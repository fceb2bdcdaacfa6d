/**
 * Python's `int(s)` on a string, as the flashcard list applies it to the
 * `stars` filter, and `str(n)`, as the pagination links render a page
 * number.
 */
module Numerals {
  import opened Options

  predicate IsDigit(c: char)
  {
    '0' <= c <= '9'
  }

  /** The characters `int()` strips around its digits: the six ASCII
      white-space characters, and above ASCII the ones `str.isspace()`
      accepts. The ASCII separators `\x1c`..`\x1f` are not among them. */
  predicate IsSpace(c: char)
  {
    || '\t' <= c <= '\r'
    || c == ' '
    || c == '\U{85}' || c == '\U{A0}' || c == '\U{1680}'
    || '\U{2000}' <= c <= '\U{200A}'
    || c == '\U{2028}' || c == '\U{2029}' || c == '\U{202F}' || c == '\U{205F}' || c == '\U{3000}'
  }

  function StripLeft(s: string): string
  {
    if s != [] && IsSpace(s[0]) then StripLeft(s[1..]) else s
  }

  function StripRight(s: string): string
  {
    if s != [] && IsSpace(s[|s| - 1]) then StripRight(s[..|s| - 1]) else s
  }

  function Strip(s: string): string
  {
    StripRight(StripLeft(s))
  }

  /** A run of decimal digits in which single underscores may separate two
      digits, as `int()` accepts since Python 3.6. */
  predicate Digits(s: string)
  {
    && s != [] && IsDigit(s[0]) && IsDigit(s[|s| - 1])
    && (forall i :: 0 <= i < |s| ==> IsDigit(s[i]) || s[i] == '_')
    && (forall i :: 0 <= i < |s| - 1 ==> s[i] == '_' ==> IsDigit(s[i + 1]))
  }

  function DigitValue(c: char): nat
    requires IsDigit(c)
  {
    c as int - '0' as int
  }

  /** The number a digit run denotes; underscores carry no value. */
  function DigitsValue(s: string): nat
    requires forall i :: 0 <= i < |s| ==> IsDigit(s[i]) || s[i] == '_'
  {
    if s == [] then 0
    else if s[|s| - 1] == '_' then DigitsValue(s[..|s| - 1])
    else DigitsValue(s[..|s| - 1]) * 10 + DigitValue(s[|s| - 1])
  }

  /** The most digits `int()` converts from text, Python's default
      `sys.int_info.default_max_str_digits` (CPython 3.11 on, and the
      3.10.7, 3.9.14 and 3.8.14 releases). `str()` refuses to write longer
      numbers just as `int()` refuses to read them. */
  const MaxStrDigits: nat := 4300

  /** The digits of a digit run, the underscores not counted. */
  function DigitCount(s: string): nat
  {
    if s == [] then 0
    else DigitCount(s[..|s| - 1]) + (if s[|s| - 1] == '_' then 0 else 1)
  }

  /** A digit run `int()` converts: well formed and within the limit. */
  predicate Numeral(s: string)
  {
    Digits(s) && DigitCount(s) <= MaxStrDigits
  }

  /** `int(s)`, with `None` where Python raises `ValueError`: surrounding
      white space is dropped, one optional sign, then a digit run of at
      most `MaxStrDigits` digits. */
  function ParseInt(s: string): Option<int>
  {
    var t := Strip(s);
    if t != [] && (t[0] == '-' || t[0] == '+') then
      if Numeral(t[1..]) then
        var v: int := DigitsValue(t[1..]);
        Some(if t[0] == '-' then -v else v)
      else None
    else if Numeral(t) then Some(DigitsValue(t))
    else None
  }

  function DigitChar(d: nat): char
    requires d < 10
  {
    ('0' as int + d) as char
  }

  /** `str(n)` for a non-negative `n`. */
  function NatText(n: nat): (s: string)
    ensures s != [] && forall i :: 0 <= i < |s| ==> IsDigit(s[i])
  {
    if n < 10 then [DigitChar(n)] else NatText(n / 10) + [DigitChar(n % 10)]
  }

  /** `str(n)`. */
  function IntText(n: int): string
  {
    if n < 0 then "-" + NatText(-n) else NatText(n)
  }

  lemma {:induction false} NatTextValue(n: nat)
    ensures DigitsValue(NatText(n)) == n
  {
    var s := NatText(n);
    if n >= 10 {
      NatTextValue(n / 10);
      assert s[..|s| - 1] == NatText(n / 10);
    }
  }

  lemma StripKeeps(s: string)
    requires s != [] && !IsSpace(s[0]) && !IsSpace(s[|s| - 1])
    ensures Strip(s) == s
  {
  }

  /** Without underscores every character is a digit. */
  lemma {:induction false} DigitCountPlain(s: string)
    requires forall i :: 0 <= i < |s| ==> IsDigit(s[i])
    ensures DigitCount(s) == |s|
  {
    if s != [] {
      DigitCountPlain(s[..|s| - 1]);
    }
  }

  /** A digit run with no underscore, within the limit, reads back as its
      digits' value. */
  lemma ParseDigits(s: string)
    requires s != [] && forall i :: 0 <= i < |s| ==> IsDigit(s[i])
    requires |s| <= MaxStrDigits
    ensures ParseInt(s) == Some(DigitsValue(s) as int)
  {
    assert !IsSpace(s[0]) && !IsSpace(s[|s| - 1]);
    StripKeeps(s);
    assert Strip(s) == s;
    assert s[0] != '-' && s[0] != '+';
    DigitCountPlain(s);
    assert Numeral(s);
  }

  /** A minus sign before such a digit run negates it. */
  lemma ParseNegated(s: string)
    requires s != [] && forall i :: 0 <= i < |s| ==> IsDigit(s[i])
    requires |s| <= MaxStrDigits
    ensures ParseInt("-" + s) == Some(-(DigitsValue(s) as int))
  {
    var t := "-" + s;
    assert t[|t| - 1] == s[|s| - 1];
    StripKeeps(t);
    DigitCountPlain(s);
    assert Numeral(s);
    ParseSigned(t, s);
  }

  lemma ParseSigned(t: string, s: string)
    requires Strip(t) == t && t == "-" + s && Numeral(s)
    ensures ParseInt(t) == Some(-(DigitsValue(s) as int))
  {
    assert t[1..] == s;
  }

  /** A run of more than `MaxStrDigits` digits is refused: `int()` raises
      `ValueError` however the run is signed or padded. */
  lemma TooManyDigits(s: string)
    requires s != [] && forall i :: 0 <= i < |s| ==> IsDigit(s[i])
    requires |s| > MaxStrDigits
    ensures ParseInt(s) == None
  {
    assert !IsSpace(s[0]) && !IsSpace(s[|s| - 1]);
    StripKeeps(s);
    assert s[0] != '-' && s[0] != '+';
    DigitCountPlain(s);
  }

  /** `int('1' * 4301)` raises `ValueError`, while `int('1' * 4300)` is read. */
  lemma DigitLimit()
    ensures ParseInt(seq(MaxStrDigits + 1, _ => '1')) == None
    ensures ParseInt(seq(MaxStrDigits, _ => '1')).Some?
  {
    TooManyDigits(seq(MaxStrDigits + 1, _ => '1'));
    ParseDigits(seq(MaxStrDigits, _ => '1'));
  }

  /** `str(n)` succeeds: `n` has at most `MaxStrDigits` digits. */
  predicate Printable(n: int)
  {
    |NatText(if n < 0 then -n else n)| <= MaxStrDigits
  }

  lemma ParseNatText(n: nat)
    requires |NatText(n)| <= MaxStrDigits
    ensures ParseInt(NatText(n)) == Some(n)
  {
    NatTextValue(n);
    ParseDigits(NatText(n));
  }

  lemma ParseNegText(n: nat)
    requires |NatText(n)| <= MaxStrDigits
    ensures ParseInt("-" + NatText(n)) == Some(-(n as int))
  {
    var s := NatText(n);
    NatTextValue(n);
    assert DigitsValue(s) == n;
    ParseNegated(s);
  }

  /** `int(str(n)) == n` for every `n` that `str()` writes: the page
      numbers written into links read back. */
  lemma ParseIntText(n: int)
    requires Printable(n)
    ensures ParseInt(IntText(n)) == Some(n)
  {
    if n < 0 {
      ParseNegText(-n);
    } else {
      ParseNatText(n);
    }
  }

  /** An ASCII separator is not white space to `int()`: `int('\x1c5')`
      raises `ValueError`. */
  lemma SeparatorNotStripped()
    ensures ParseInt("\U{1C}5") == None
  {
    var s := "\U{1C}5";
    StripKeeps(s);
    assert !IsDigit(s[0]) && s[0] != '-' && s[0] != '+';
  }
}
