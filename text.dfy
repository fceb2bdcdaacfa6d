/**
 * Text as the SQLite engine and the request layer see it: the BINARY
 * collation order that `<` and `>` use on TEXT values, the default LIKE
 * operator (wildcards `%` and `_`, ASCII-only case folding, no ESCAPE),
 * Python's `sep.join`, counting a character, and splitting on a delimiter.
 */
module Text {

  // ---------------------------------------------------------------------
  // BINARY collation
  // ---------------------------------------------------------------------

  /** `a < b` on two TEXT values: lexicographic on code points, which is the
      order of their UTF-8 bytes. */
  predicate Less(a: string, b: string)
  {
    b != [] && (a == [] || a[0] < b[0] || (a[0] == b[0] && Less(a[1..], b[1..])))
  }

  lemma {:induction false} LessTrichotomy(a: string, b: string)
    ensures Less(a, b) || a == b || Less(b, a)
    ensures !(Less(a, b) && Less(b, a))
  {
    if a != [] && b != [] && a[0] == b[0] {
      LessTrichotomy(a[1..], b[1..]);
      if a[1..] == b[1..] {
        assert a == [a[0]] + a[1..] && b == [b[0]] + b[1..];
      }
    }
  }

  lemma {:induction false} LessTransitive(a: string, b: string, c: string)
    requires Less(a, b) && Less(b, c)
    ensures Less(a, c)
  {
    if a != [] && a[0] == b[0] && b[0] == c[0] {
      LessTransitive(a[1..], b[1..], c[1..]);
    }
  }

  // ---------------------------------------------------------------------
  // LIKE
  // ---------------------------------------------------------------------

  /** SQLite's default LIKE folds only the 26 ASCII letters. */
  function Fold(c: char): char
  {
    if 'A' <= c <= 'Z' then (c as int + 32) as char else c
  }

  /** `t LIKE p`: `%` matches any run of characters, `_` any one character,
      every other character matches itself up to ASCII case. */
  predicate Like(t: string, p: string)
    decreases |t| + |p|
  {
    if p == [] then t == []
    else if p[0] == '%' then Like(t, p[1..]) || (t != [] && Like(t[1..], p))
    else t != [] && (p[0] == '_' || Fold(p[0]) == Fold(t[0])) && Like(t[1..], p[1..])
  }

  predicate NoWildcards(s: string)
  {
    '%' !in s && '_' !in s
  }

  /** `t` begins with `d`, ignoring ASCII case. */
  predicate StartsWithFolded(t: string, d: string)
  {
    |d| <= |t| && forall i :: 0 <= i < |d| ==> Fold(t[i]) == Fold(d[i])
  }

  /** `q` occurs somewhere in `t`, ignoring ASCII case. */
  predicate ContainsFolded(t: string, q: string)
  {
    exists i :: 0 <= i <= |t| && StartsWithFolded(t[i..], q)
  }

  lemma {:induction false} LikeTrailingPercent(t: string)
    ensures Like(t, "%")
    decreases |t|
  {
    assert "%"[1..] == [];
    if t != [] {
      LikeTrailingPercent(t[1..]);
    }
  }

  /** The pattern `d%` of the "on this day" filter is a prefix test. */
  lemma {:induction false} LikePrefix(t: string, d: string)
    requires NoWildcards(d)
    ensures Like(t, d + "%") <==> StartsWithFolded(t, d)
    decreases |d|
  {
    if d == [] {
      assert d + "%" == "%";
      LikeTrailingPercent(t);
    } else {
      var p := d + "%";
      assert p[0] == d[0] && p[1..] == d[1..] + "%";
      assert d == [d[0]] + d[1..];
      assert NoWildcards(d[1..]);
      if t != [] {
        LikePrefix(t[1..], d[1..]);
        if StartsWithFolded(t, d) {
          forall i | 0 <= i < |d[1..]| ensures Fold(t[1..][i]) == Fold(d[1..][i]) {
            assert Fold(t[i + 1]) == Fold(d[i + 1]);
          }
        }
        if Fold(p[0]) == Fold(t[0]) && StartsWithFolded(t[1..], d[1..]) {
          forall i | 0 <= i < |d| ensures Fold(t[i]) == Fold(d[i]) {
            if i > 0 { assert Fold(t[1..][i - 1]) == Fold(d[1..][i - 1]); }
          }
        }
      }
    }
  }

  /** A leading `%` tries every suffix of the text. */
  lemma {:induction false} LikeLeadingPercent(t: string, rest: string)
    ensures Like(t, "%" + rest) <==> exists i :: 0 <= i <= |t| && Like(t[i..], rest)
    decreases |t|
  {
    var p := "%" + rest;
    assert p[0] == '%' && p[1..] == rest;
    assert t[0..] == t;
    if t != [] {
      LikeLeadingPercent(t[1..], rest);
      if Like(t[1..], p) {
        var j :| 0 <= j <= |t[1..]| && Like(t[1..][j..], rest);
        assert t[1..][j..] == t[j + 1..];
      }
      if i :| 0 < i <= |t| && Like(t[i..], rest) {
        assert t[1..][i - 1..] == t[i..];
      }
    }
  }

  /** The pattern `%q%` of the text search is a case-insensitive substring
      test, as long as `q` carries no wildcard of its own. */
  lemma {:induction false} LikeInfix(t: string, q: string)
    requires NoWildcards(q)
    ensures Like(t, "%" + q + "%") <==> ContainsFolded(t, q)
  {
    assert "%" + q + "%" == "%" + (q + "%");
    LikeLeadingPercent(t, q + "%");
    forall i | 0 <= i <= |t| ensures Like(t[i..], q + "%") <==> StartsWithFolded(t[i..], q) {
      LikePrefix(t[i..], q);
    }
  }

  // ---------------------------------------------------------------------
  // Joining, counting, splitting
  // ---------------------------------------------------------------------

  /** Python's `sep.join(parts)`. */
  function Join(parts: seq<string>, sep: string): string
  {
    if parts == [] then "" else if |parts| == 1 then parts[0] else parts[0] + sep + Join(parts[1..], sep)
  }

  /** The number of occurrences of `c` in `s`, counted from the end. */
  function Count(c: char, s: string): nat
  {
    if s == [] then 0 else Count(c, s[..|s| - 1]) + (if s[|s| - 1] == c then 1 else 0)
  }

  function SumCounts(c: char, parts: seq<string>): nat
  {
    if parts == [] then 0 else Count(c, parts[0]) + SumCounts(c, parts[1..])
  }

  lemma {:induction false} CountConcat(c: char, a: string, b: string)
    ensures Count(c, a + b) == Count(c, a) + Count(c, b)
    decreases |b|
  {
    if b == [] {
      assert a + b == a;
    } else {
      assert (a + b)[..|a + b| - 1] == a + b[..|b| - 1];
      CountConcat(c, a, b[..|b| - 1]);
    }
  }

  lemma {:induction false} CountAbsent(c: char, s: string)
    requires c !in s
    ensures Count(c, s) == 0
    decreases |s|
  {
    if s != [] {
      assert s == s[..|s| - 1] + [s[|s| - 1]];
      CountAbsent(c, s[..|s| - 1]);
    }
  }

  lemma CountOne(c: char)
    ensures Count(c, [c]) == 1
  {
    assert [c][..0] == [];
  }

  /** Joining with a separator that lacks `c` neither adds nor loses a `c`. */
  lemma {:induction false} CountJoin(c: char, parts: seq<string>, sep: string)
    requires c !in sep
    ensures Count(c, Join(parts, sep)) == SumCounts(c, parts)
  {
    if |parts| == 1 {
      assert SumCounts(c, parts[1..]) == 0;
    } else if |parts| > 1 {
      CountJoin(c, parts[1..], sep);
      CountConcat(c, parts[0] + sep, Join(parts[1..], sep));
      CountConcat(c, parts[0], sep);
      CountAbsent(c, sep);
    }
  }

  /** Python's `s.split(d)` for a one-character delimiter: never empty. */
  function Split(s: string, d: char): (parts: seq<string>)
    ensures |parts| >= 1
  {
    if s == [] then [""]
    else
      var rest := Split(s[1..], d);
      if s[0] == d then [""] + rest else [[s[0]] + rest[0]] + rest[1..]
  }

  lemma {:induction false} SplitNoDelimiter(a: string, d: char)
    requires d !in a
    ensures Split(a, d) == [a]
  {
    if a != [] {
      assert a == [a[0]] + a[1..];
      SplitNoDelimiter(a[1..], d);
      assert [a[0]] + a[1..] == a;
    }
  }

  lemma {:induction false} SplitAt(a: string, b: string, d: char)
    requires d !in a
    ensures Split(a + [d] + b, d) == [a] + Split(b, d)
  {
    var s := a + [d] + b;
    if a == [] {
      assert s[0] == d && s[1..] == b;
    } else {
      assert s[0] == a[0] && s[1..] == a[1..] + [d] + b;
      assert a == [a[0]] + a[1..];
      SplitAt(a[1..], b, d);
      assert [a[0]] + a[1..] == a;
    }
  }

  /** Splitting undoes joining when no part holds the delimiter. */
  lemma {:induction false} SplitJoin(parts: seq<string>, d: char)
    requires parts != []
    requires forall i :: 0 <= i < |parts| ==> d !in parts[i]
    ensures Split(Join(parts, [d]), d) == parts
  {
    if |parts| == 1 {
      SplitNoDelimiter(parts[0], d);
    } else {
      SplitJoin(parts[1..], d);
      SplitAt(parts[0], Join(parts[1..], [d]), d);
      assert [parts[0]] + parts[1..] == parts;
    }
  }

  /** Python's `s.partition(d)` without the middle: the text before the
      first `d` and the text after it, or `(s, "")` when there is none. */
  function Cut(s: string, d: char): (string, string)
  {
    if s == [] then ("", "")
    else if s[0] == d then ("", s[1..])
    else var r := Cut(s[1..], d); ([s[0]] + r.0, r.1)
  }

  lemma {:induction false} CutAt(a: string, b: string, d: char)
    requires d !in a
    ensures Cut(a + [d] + b, d) == (a, b)
  {
    var s := a + [d] + b;
    if a == [] {
      assert s[0] == d && s[1..] == b;
    } else {
      assert s[0] == a[0] && s[1..] == a[1..] + [d] + b;
      assert a == [a[0]] + a[1..];
      CutAt(a[1..], b, d);
      assert [a[0]] + a[1..] == a;
    }
  }
}
