/**
 * The query string the flashcard page appends to its First / Previous /
 * Next / Last links so that the next page keeps the filters, and the way
 * the server reads a query string back into arguments: split at `&`,
 * each part cut at its first `=`, `+` read as a space and `%hh` as the
 * character with that code.
 */
module Links {
  import opened Options
  import opened Text
  import opened Numerals
  import opened Tables
  import opened Query

  /** One `key=value` argument, decoded. */
  type Field = (string, string)

  // ---------------------------------------------------------------------
  // Reading a query string back
  // ---------------------------------------------------------------------

  predicate IsHex(c: char)
  {
    '0' <= c <= '9' || 'a' <= c <= 'f' || 'A' <= c <= 'F'
  }

  function HexValue(c: char): nat
    requires IsHex(c)
  {
    if c <= '9' then c as int - '0' as int
    else if c <= 'F' then c as int - 'A' as int + 10
    else c as int - 'a' as int + 10
  }

  /** Form decoding of one key or value. */
  function Decode(s: string): string
  {
    if s == [] then []
    else if s[0] == '+' then " " + Decode(s[1..])
    else if s[0] == '%' && |s| >= 3 && IsHex(s[1]) && IsHex(s[2]) then
      [(HexValue(s[1]) * 16 + HexValue(s[2])) as char] + Decode(s[3..])
    else [s[0]] + Decode(s[1..])
  }

  /** The arguments of the `&`-separated parts, empty parts skipped, a
      part without `=` read as a key with an empty value. */
  function Fields(parts: seq<string>): (r: seq<Field>)
    ensures |r| <= |parts|
  {
    if parts == [] then []
    else if parts[0] == "" then Fields(parts[1..])
    else
      var kv := Cut(parts[0], '=');
      [(Decode(kv.0), Decode(kv.1))] + Fields(parts[1..])
  }

  function ParseArgs(query: string): seq<Field>
  {
    Fields(Split(query, '&'))
  }

  /** The query string of a link: after the first `?` and before the
      fragment the browser cuts at the first `#`. */
  function QueryOf(href: string): string
  {
    Cut(Cut(href, '#').0, '?').1
  }

  /** `request.args.get(key)`: the first value given for `key`. */
  function Get(args: seq<Field>, key: string): (r: Option<string>)
    ensures r.Some? <==> exists i :: 0 <= i < |args| && args[i].0 == key
    ensures r.Some? ==> exists i :: 0 <= i < |args| && args[i] == (key, r.value)
  {
    if args == [] then None
    else if args[0].0 == key then Some(args[0].1)
    else Get(args[1..], key)
  }

  function GetOr(args: seq<Field>, key: string, default: string): string
  {
    match Get(args, key)
    case Some(v) => v
    case None => default
  }

  /** The filter arguments as the flashcard handler reads them, with their
      defaults. */
  function ReadQuery(args: seq<Field>): CardQuery
  {
    CardQuery(GetOr(args, "subject", ""), GetOr(args, "topic", ""), GetOr(args, "date", ""),
              GetOr(args, "filter", "all"), GetOr(args, "stars", ""), GetOr(args, "q", ""))
  }

  /** `request.args.get('page', 1, type=int)`: a missing value or one
      `int()` rejects gives page 1. */
  function ReadPage(args: seq<Field>): int
  {
    match Get(args, "page")
    case None => 1
    case Some(v) => if ParseInt(v).Some? then ParseInt(v).value else 1
  }

  // ---------------------------------------------------------------------
  // Writing the link
  // ---------------------------------------------------------------------

  /** The filters a page link is meant to carry, in the handler's order:
      each one that is set, and `filter` only when it is not `all`. */
  function LinkFields(q: CardQuery): seq<Field>
  {
    Opt(q.subject != "", "subject", q.subject,
    Opt(q.topic != "", "topic", q.topic,
    Opt(q.filterType != "" && q.filterType != "all", "filter", q.filterType,
    TailFields(q))))
  }

  /** `if value: params_parts.append(...)`, followed by the later parts. */
  function Opt(present: bool, key: string, value: string, rest: seq<Field>): seq<Field>
  {
    if present then [(key, value)] + rest else rest
  }

  function RawParts(fields: seq<Field>): (r: seq<string>)
    ensures |r| == |fields|
    ensures forall i :: 0 <= i < |r| ==> r[i] == fields[i].0 + "=" + fields[i].1
  {
    if fields == [] then [] else [fields[0].0 + "=" + fields[0].1] + RawParts(fields[1..])
  }

  /** `'&'.join(params_parts)` with `f'{key}={value}'` parts, the values
      written as they are. */
  function ParamsQueryAsWritten(q: CardQuery): string
  {
    Join(RawParts(LinkFields(q)), "&")
  }

  /** The characters a value cannot carry unescaped through a query
      string, the quote that would end the `href="..."` attribute the link
      sits in, and the tab and line breaks a browser drops from a URL. */
  predicate Reserved(c: char)
  {
    c == '%' || c == '&' || c == '+' || c == '#' || c == '"' || c == '\t' || c == '\n' || c == '\r'
  }

  predicate Plain(s: string)
  {
    forall i :: 0 <= i < |s| ==> !Reserved(s[i])
  }

  /** The characters an encoded value is free of: every reserved one but
      the `%` that starts an escape. */
  predicate Escaped(s: string)
  {
    '&' !in s && '#' !in s && '+' !in s && '"' !in s && '\t' !in s && '\n' !in s && '\r' !in s
  }

  function EncodeChar(c: char): (r: string)
    ensures Escaped(r)
    ensures !Reserved(c) ==> r == [c]
  {
    if c == '%' then "%25"
    else if c == '&' then "%26"
    else if c == '+' then "%2B"
    else if c == '#' then "%23"
    else if c == '"' then "%22"
    else if c == '\t' then "%09"
    else if c == '\n' then "%0A"
    else if c == '\r' then "%0D"
    else [c]
  }

  /** Percent-encoding of the reserved characters. */
  function Encode(s: string): (r: string)
    ensures Escaped(r)
    ensures Plain(s) ==> r == s
  {
    if s == [] then [] else EncodeChar(s[0]) + Encode(s[1..])
  }

  /** One `key=value` part with the value encoded. */
  function Part(key: string, value: string): string
  {
    key + "=" + Encode(value)
  }

  function EncodedParts(fields: seq<Field>): (r: seq<string>)
    ensures |r| == |fields|
    ensures forall i :: 0 <= i < |r| ==> r[i] == fields[i].0 + "=" + Encode(fields[i].1)
  {
    if fields == [] then [] else [Part(fields[0].0, fields[0].1)] + EncodedParts(fields[1..])
  }

  /** The preserved query string with every value encoded. */
  function ParamsQuery(q: CardQuery): string
  {
    Join(EncodedParts(LinkFields(q)), "&")
  }

  /** `/practice?page=N` followed by `&` and the query string when it is
      not empty. */
  function PageHref(page: int, paramsQuery: string): string
  {
    "/practice?page=" + IntText(page) + (if paramsQuery != "" then "&" + paramsQuery else "")
  }

  // ---------------------------------------------------------------------
  // Round trips
  // ---------------------------------------------------------------------

  lemma {:induction false} DecodePlain(s: string)
    requires '+' !in s && '%' !in s
    ensures Decode(s) == s
  {
    if s != [] {
      DecodePlain(s[1..]);
      assert s == [s[0]] + s[1..];
    }
  }

  lemma DecodeEscape(h: char, l: char, c: char, rest: string)
    requires IsHex(h) && IsHex(l) && (HexValue(h) * 16 + HexValue(l)) as char == c
    ensures Decode(['%', h, l] + rest) == [c] + Decode(rest)
  {
    var s := ['%', h, l] + rest;
    assert s[0] == '%' && s[1] == h && s[2] == l && s[3..] == rest;
  }

  lemma DecodeEncodedChar(c: char, rest: string)
    ensures Decode(EncodeChar(c) + rest) == [c] + Decode(rest)
  {
    if c == '%' {
      DecodeEscape('2', '5', c, rest);
    } else if c == '&' {
      DecodeEscape('2', '6', c, rest);
    } else if c == '+' {
      DecodeEscape('2', 'B', c, rest);
    } else if c == '#' {
      DecodeEscape('2', '3', c, rest);
    } else if c == '"' {
      DecodeEscape('2', '2', c, rest);
    } else if c == '\t' {
      DecodeEscape('0', '9', c, rest);
    } else if c == '\n' {
      DecodeEscape('0', 'A', c, rest);
    } else if c == '\r' {
      DecodeEscape('0', 'D', c, rest);
    } else {
      var s := [c] + rest;
      assert s[0] == c && s[1..] == rest;
    }
  }

  /** Decoding undoes encoding. */
  lemma {:induction false} DecodeEncode(s: string)
    ensures Decode(Encode(s)) == s
  {
    if s != [] {
      DecodeEncode(s[1..]);
      DecodeEncodedChar(s[0], Encode(s[1..]));
      assert s == [s[0]] + s[1..];
    }
  }

  /** Keys a link writes: nothing in them needs decoding, and they end at
      the `=`. */
  predicate PlainKey(k: string)
  {
    '=' !in k && '&' !in k && '+' !in k && '%' !in k && '#' !in k
  }

  lemma {:induction false} FieldsOfParts(fields: seq<Field>)
    requires forall i :: 0 <= i < |fields| ==> PlainKey(fields[i].0)
    ensures Fields(EncodedParts(fields)) == fields
  {
    if fields != [] {
      var k, v := fields[0].0, fields[0].1;
      var parts := EncodedParts(fields);
      assert parts[0] == k + "=" + Encode(v);
      assert parts[0] != "";
      CutAt(k, Encode(v), '=');
      DecodePlain(k);
      DecodeEncode(v);
      assert parts[1..] == EncodedParts(fields[1..]);
      FieldsOfParts(fields[1..]);
    }
  }

  /** An encoded query string reads back as the fields it was written
      from. */
  lemma ParseEncoded(fields: seq<Field>)
    requires forall i :: 0 <= i < |fields| ==> PlainKey(fields[i].0)
    ensures ParseArgs(Join(EncodedParts(fields), "&")) == fields
  {
    FieldsOfParts(fields);
    var parts := EncodedParts(fields);
    if parts == [] {
      assert Split("", '&') == [""];
    } else {
      forall i | 0 <= i < |parts| ensures '&' !in parts[i] {
        assert parts[i] == fields[i].0 + "=" + Encode(fields[i].1);
      }
      SplitJoin(parts, '&');
    }
  }

  lemma {:induction false} CutNone(s: string, d: char)
    requires d !in s
    ensures Cut(s, d) == (s, "")
  {
    if s != [] {
      CutNone(s[1..], d);
      assert s == [s[0]] + s[1..];
    }
  }

  lemma IntTextPlain(n: int)
    ensures PlainKey(IntText(n)) && Plain(IntText(n))
  {
    var t := IntText(n);
    if n < 0 {
      assert forall i :: 1 <= i < |t| ==> IsDigit(t[i]) by {
        assert t[1..] == NatText(-n);
      }
    }
  }

  /** The query string of a page link is `page=N`, then the preserved
      query string after an `&`. */
  lemma HrefQuery(page: int, pq: string)
    requires '#' !in pq
    ensures QueryOf(PageHref(page, pq)) == "page=" + IntText(page) + (if pq != "" then "&" + pq else "")
  {
    IntTextPlain(page);
    var query := "page=" + IntText(page) + (if pq != "" then "&" + pq else "");
    var href := PageHref(page, pq);
    assert href == "/practice" + "?" + query;
    assert '#' !in href;
    CutNone(href, '#');
    CutAt("/practice", query, '?');
  }

  lemma EncodedNoHash(fields: seq<Field>)
    requires forall i :: 0 <= i < |fields| ==> PlainKey(fields[i].0)
    ensures '#' !in Join(EncodedParts(fields), "&")
  {
    var parts := EncodedParts(fields);
    forall i | 0 <= i < |parts| ensures '#' !in parts[i] {
      assert parts[i] == fields[i].0 + "=" + Encode(fields[i].1);
    }
    NoCharInJoin(parts, "&", '#');
  }

  lemma JoinCons(x: string, ps: seq<string>, sep: string)
    requires ps != [] && ps[0] != ""
    ensures Join([x] + ps, sep) == x + sep + Join(ps, sep)
    ensures Join(ps, sep) != ""
  {
    assert ([x] + ps)[1..] == ps;
  }

  /** The page number leads the arguments a link writes. */
  function PageFields(page: int, fields: seq<Field>): seq<Field>
  {
    [("page", IntText(page))] + fields
  }

  lemma PageFieldsQuery(page: int, fields: seq<Field>)
    ensures var pq := Join(EncodedParts(fields), "&");
      Join(EncodedParts(PageFields(page, fields)), "&") == "page=" + IntText(page) + (if pq != "" then "&" + pq else "")
  {
    var ps := EncodedParts(fields);
    PageParts(page, fields);
    if ps != [] {
      assert ps[0] == fields[0].0 + "=" + Encode(fields[0].1);
      assert '=' in ps[0];
    }
    JoinFront("page=" + IntText(page), ps);
  }

  /** Joining a first part in front of the others. */
  lemma JoinFront(first: string, ps: seq<string>)
    requires ps == [] || ps[0] != ""
    ensures Join([first] + ps, "&") == first + (if Join(ps, "&") != "" then "&" + Join(ps, "&") else "")
  {
    if ps == [] {
      assert [first] + ps == [first];
    } else {
      JoinCons(first, ps, "&");
    }
  }

  /** The page part comes first and needs no encoding. */
  lemma PageParts(page: int, fields: seq<Field>)
    ensures EncodedParts(PageFields(page, fields)) == ["page=" + IntText(page)] + EncodedParts(fields)
  {
    var all := PageFields(page, fields);
    IntTextPlain(page);
    assert all[0] == ("page", IntText(page)) && all[1..] == fields;
    assert Encode(IntText(page)) == IntText(page);
    assert "page" + "=" + IntText(page) == "page=" + IntText(page);
  }

  lemma PageFieldsKeys(page: int, fields: seq<Field>)
    requires forall i :: 0 <= i < |fields| ==> PlainKey(fields[i].0)
    ensures forall i :: 0 <= i < |PageFields(page, fields)| ==> PlainKey(PageFields(page, fields)[i].0)
  {
    var all := PageFields(page, fields);
    assert PlainKey("page");
    forall i | 0 <= i < |all| ensures PlainKey(all[i].0) {
      if i > 0 {
        assert all[i] == fields[i - 1];
      }
    }
  }

  /** A page link reads back as its page number followed by the fields of
      the query string. */
  lemma HrefArgs(page: int, fields: seq<Field>)
    requires forall i :: 0 <= i < |fields| ==> PlainKey(fields[i].0)
    ensures ParseArgs(QueryOf(PageHref(page, Join(EncodedParts(fields), "&")))) == PageFields(page, fields)
  {
    EncodedNoHash(fields);
    HrefQuery(page, Join(EncodedParts(fields), "&"));
    PageFieldsQuery(page, fields);
    PageFieldsKeys(page, fields);
    ParseEncoded(PageFields(page, fields));
  }

  lemma {:induction false} NoCharInJoin(parts: seq<string>, sep: string, c: char)
    requires c !in sep
    requires forall i :: 0 <= i < |parts| ==> c !in parts[i]
    ensures c !in Join(parts, sep)
  {
    if |parts| > 1 {
      NoCharInJoin(parts[1..], sep, c);
    }
  }

  lemma GetOpt(present: bool, key: string, value: string, rest: seq<Field>, k: string)
    ensures Get(Opt(present, key, value, rest), k) == if present && key == k then Some(value) else Get(rest, k)
  {
    if present {
      assert ([(key, value)] + rest)[1..] == rest;
    }
  }

  /** The query the next page reads: the same filters, with an empty
      `filter` read back as its default `all`. */
  function Reread(q: CardQuery): CardQuery
  {
    q.(filterType := if q.filterType == "" then "all" else q.filterType)
  }

  /** An empty `filter` and `all` both select no date comparison, so the
      next page lists the same rows. */
  lemma RereadMatches(q: CardQuery, r: Row<CardBody>)
    ensures Matches(Reread(q), r) == Matches(q, r)
    ensures forall x :: Selected(Reread(q), x) == Selected(q, x)
  {
  }

  /** The date, stars and search parts of the link fields. */
  function TailFields(q: CardQuery): seq<Field>
  {
    Opt(q.date != "", "date", q.date,
    Opt(q.stars != "", "stars", q.stars,
    Opt(q.search != "", "q", q.search, [])))
  }

  lemma GetTailField(q: CardQuery, k: string)
    ensures Get(TailFields(q), k) == TailChain(q, k)
  {
    var f6 := Opt(q.search != "", "q", q.search, []);
    var f5 := Opt(q.stars != "", "stars", q.stars, f6);
    GetOpt(q.date != "", "date", q.date, f5, k);
    GetOpt(q.stars != "", "stars", q.stars, f6, k);
    GetOpt(q.search != "", "q", q.search, [], k);
  }

  /** `Get` on the link fields finds each filter that is set, under its
      key. */
  lemma GetLinkField(q: CardQuery, k: string)
    ensures Get(LinkFields(q), k) == GetChain(q, k)
  {
    var f4 := TailFields(q);
    var f3 := Opt(q.filterType != "" && q.filterType != "all", "filter", q.filterType, f4);
    var f2 := Opt(q.topic != "", "topic", q.topic, f3);
    GetOpt(q.subject != "", "subject", q.subject, f2, k);
    GetOpt(q.topic != "", "topic", q.topic, f3, k);
    GetOpt(q.filterType != "" && q.filterType != "all", "filter", q.filterType, f4, k);
    GetTailField(q, k);
  }

  /** The arguments of a page link give back the page, whenever `str()`
      can write it, and the filters. */
  lemma ReadLinkFields(page: int, q: CardQuery)
    ensures Printable(page) ==> ReadPage(PageFields(page, LinkFields(q))) == page
    ensures ReadQuery(PageFields(page, LinkFields(q))) == Reread(q)
  {
    var args := PageFields(page, LinkFields(q));
    assert args[0] == ("page", IntText(page)) && args[1..] == LinkFields(q);
    GetLinkField(q, "subject");
    GetLinkField(q, "topic");
    GetLinkField(q, "filter");
    GetLinkField(q, "date");
    GetLinkField(q, "stars");
    GetLinkField(q, "q");
    if Printable(page) {
      ParseIntText(page);
    }
    var r := ReadQuery(args);
    assert r.subject == q.subject && r.topic == q.topic && r.date == q.date;
    assert r.stars == q.stars && r.search == q.search;
    assert r.filterType == Reread(q).filterType;
  }

  /** What `Get` finds for key `k` in the link fields of `q`. */
  function GetChain(q: CardQuery, k: string): Option<string>
  {
    if k == "subject" then (if q.subject != "" then Some(q.subject) else None)
    else if k == "topic" then (if q.topic != "" then Some(q.topic) else None)
    else if k == "filter" then (if q.filterType != "" && q.filterType != "all" then Some(q.filterType) else None)
    else TailChain(q, k)
  }

  function TailChain(q: CardQuery, k: string): Option<string>
  {
    if k == "date" then (if q.date != "" then Some(q.date) else None)
    else if k == "stars" then (if q.stars != "" then Some(q.stars) else None)
    else if k == "q" then (if q.search != "" then Some(q.search) else None)
    else None
  }

  lemma OptKeys(present: bool, key: string, value: string, rest: seq<Field>)
    requires PlainKey(key)
    requires forall i :: 0 <= i < |rest| ==> PlainKey(rest[i].0)
    ensures var r := Opt(present, key, value, rest); forall i :: 0 <= i < |r| ==> PlainKey(r[i].0)
  {
    if present {
      var r := Opt(present, key, value, rest);
      forall i | 0 <= i < |r| ensures PlainKey(r[i].0) {
        if i > 0 {
          assert r[i] == rest[i - 1];
        }
      }
    }
  }

  lemma KeysPlain()
    ensures PlainKey("subject") && PlainKey("topic") && PlainKey("filter")
    ensures PlainKey("date") && PlainKey("stars") && PlainKey("q")
  {
    assert PlainKey("subject");
    assert PlainKey("topic");
    assert PlainKey("filter");
    assert PlainKey("date");
    assert PlainKey("stars");
  }

  /** The keys a link writes are plain. */
  lemma LinkFieldsKeys(q: CardQuery)
    ensures forall i :: 0 <= i < |LinkFields(q)| ==> PlainKey(LinkFields(q)[i].0)
  {
    KeysPlain();
    var f6 := Opt(q.search != "", "q", q.search, []);
    var f5 := Opt(q.stars != "", "stars", q.stars, f6);
    var f4 := Opt(q.date != "", "date", q.date, f5);
    var f3 := Opt(q.filterType != "" && q.filterType != "all", "filter", q.filterType, f4);
    var f2 := Opt(q.topic != "", "topic", q.topic, f3);
    OptKeys(q.search != "", "q", q.search, []);
    OptKeys(q.stars != "", "stars", q.stars, f6);
    OptKeys(q.date != "", "date", q.date, f5);
    OptKeys(q.filterType != "" && q.filterType != "all", "filter", q.filterType, f4);
    OptKeys(q.topic != "", "topic", q.topic, f3);
    OptKeys(q.subject != "", "subject", q.subject, f2);
  }

  /** Following a page link keeps the page number and every filter: the
      next page reads the same query, an empty `filter` aside, and so lists
      the same rows. A page number `str()` cannot write gives no link. */
  lemma LinkKeepsFilters(q: CardQuery, page: int)
    ensures var args := ParseArgs(QueryOf(PageHref(page, ParamsQuery(q))));
      (Printable(page) ==> ReadPage(args) == page) && ReadQuery(args) == Reread(q)
  {
    LinkFieldsKeys(q);
    HrefArgs(page, LinkFields(q));
    ReadLinkFields(page, q);
  }

  lemma {:induction false} RawIsEncoded(fields: seq<Field>)
    requires forall i :: 0 <= i < |fields| ==> Plain(fields[i].1)
    ensures RawParts(fields) == EncodedParts(fields)
  {
    if fields != [] {
      RawIsEncoded(fields[1..]);
    }
  }

  /** As long as no value holds a reserved character, the link as written
      is the encoded one. */
  lemma AsWrittenOnPlainValues(q: CardQuery)
    requires Plain(q.subject) && Plain(q.topic) && Plain(q.filterType)
    requires Plain(q.date) && Plain(q.stars) && Plain(q.search)
    ensures ParamsQueryAsWritten(q) == ParamsQuery(q)
  {
    var f := LinkFields(q);
    forall i | 0 <= i < |f| ensures Plain(f[i].1) {
      LinkFieldValue(q, i);
    }
    RawIsEncoded(f);
  }

  lemma LinkFieldValue(q: CardQuery, i: int)
    requires 0 <= i < |LinkFields(q)|
    ensures LinkFields(q)[i].1 in [q.subject, q.topic, q.filterType, q.date, q.stars, q.search]
  {
    var vals := [q.subject, q.topic, q.filterType, q.date, q.stars, q.search];
    var f6 := Opt(q.search != "", "q", q.search, []);
    var f5 := Opt(q.stars != "", "stars", q.stars, f6);
    var f4 := Opt(q.date != "", "date", q.date, f5);
    var f3 := Opt(q.filterType != "" && q.filterType != "all", "filter", q.filterType, f4);
    var f2 := Opt(q.topic != "", "topic", q.topic, f3);
    OptValues(q.search != "", "q", q.search, [], vals);
    OptValues(q.stars != "", "stars", q.stars, f6, vals);
    OptValues(q.date != "", "date", q.date, f5, vals);
    OptValues(q.filterType != "" && q.filterType != "all", "filter", q.filterType, f4, vals);
    OptValues(q.topic != "", "topic", q.topic, f3, vals);
    OptValues(q.subject != "", "subject", q.subject, f2, vals);
  }

  lemma OptValues(present: bool, key: string, value: string, rest: seq<Field>, vals: seq<string>)
    requires value in vals
    requires forall i :: 0 <= i < |rest| ==> rest[i].1 in vals
    ensures var r := Opt(present, key, value, rest); forall i :: 0 <= i < |r| ==> r[i].1 in vals
  {
    if present {
      var r := Opt(present, key, value, rest);
      forall i | 0 <= i < |r| ensures r[i].1 in vals {
        if i > 0 {
          assert r[i] == rest[i - 1];
        }
      }
    }
  }

  /** A subject with an `&` in it, in the link as written: the value
      breaks at the `&`, and the next page filters on the text before it. */
  lemma AsWrittenSplitsAmpersand(a: string, b: string, page: int)
    requires PlainKey(a) && PlainKey(b) && b != ""
    ensures var q := CardQuery(a + "&" + b, "", "", "all", "", "");
      ReadQuery(ParseArgs(QueryOf(PageHref(page, ParamsQueryAsWritten(q))))).subject == a
  {
    var v := a + "&" + b;
    var q := CardQuery(v, "", "", "all", "", "");
    assert TailFields(q) == [];
    assert LinkFields(q) == [("subject", v)];
    var pq := ParamsQueryAsWritten(q);
    assert pq == "subject" + "=" + v;
    assert '#' !in pq;
    HrefQuery(page, pq);
    IntTextPlain(page);
    var first := "page=" + IntText(page);
    var second := "subject" + "=" + a;
    assert '&' !in first && '&' !in second;
    assert QueryOf(PageHref(page, pq)) == first + ['&'] + (second + ['&'] + b);
    SplitAt(first, second + ['&'] + b, '&');
    SplitAt(second, b, '&');
    SplitNoDelimiter(b, '&');
    var parts := Split(first + ['&'] + (second + ['&'] + b), '&');
    assert parts == [first, second, b];
    SubjectAfterPage(IntText(page), a, b);
    var args := ParseArgs(QueryOf(PageHref(page, pq)));
    assert args == Fields(parts);
    assert Get(args, "subject") == Some(a);
    assert ReadQuery(args).subject == GetOr(args, "subject", "");
  }

  /** `Get` sees the first `subject` part after the page part. */
  lemma SubjectAfterPage(n: string, a: string, b: string)
    requires PlainKey(a) && b != ""
    ensures Get(Fields(["page=" + n, "subject" + "=" + a, b]), "subject") == Some(a)
  {
    var parts := ["page=" + n, "subject" + "=" + a, b];
    assert parts[0] == "page" + "=" + n;
    CutAt("page", n, '=');
    DecodePlain("page");
    KeysPlain();
    CutAt("subject", a, '=');
    DecodePlain("subject");
    DecodePlain(a);
    var rest := Fields(parts[1..]);
    assert parts[1..][1..] == [b];
    assert rest[0] == ("subject", a);
    assert Fields(parts) == [("page", Decode(n))] + rest;
  }

  /** The subject `R&D` comes back as `R`. */
  lemma AsWrittenLosesRAndD()
    ensures var q := CardQuery("R&D", "", "", "all", "", "");
      ReadQuery(ParseArgs(QueryOf(PageHref(2, ParamsQueryAsWritten(q))))).subject == "R"
  {
    assert "R&D" == "R" + "&" + "D";
    AsWrittenSplitsAmpersand("R", "D", 2);
  }

  /** One `if` of the builder contributes its part, or nothing, ahead of
      the parts of the fields after it. */
  lemma EncodedOpt(present: bool, key: string, value: string, rest: seq<Field>)
    ensures EncodedParts(Opt(present, key, value, rest)) == (if present then [Part(key, value)] else []) + EncodedParts(rest)
  {
    if present {
      assert ([(key, value)] + rest)[1..] == rest;
    } else {
      assert [] + EncodedParts(rest) == EncodedParts(rest);
    }
  }

  /** `if value: params_parts.append(f'{key}={value}')`, the value encoded:
      the parts built so far, followed by the parts of the fields still to
      come, remain the parts of the whole link. */
  method AppendPart(parts: seq<string>, present: bool, key: string, value: string, ghost rest: seq<Field>, ghost goal: seq<string>)
    returns (parts': seq<string>)
    requires parts + EncodedParts(Opt(present, key, value, rest)) == goal
    ensures parts' + EncodedParts(rest) == goal
  {
    EncodedOpt(present, key, value, rest);
    parts' := parts;
    if present {
      parts' := parts' + [Part(key, value)];
      assert parts' + EncodedParts(rest) == parts + ([Part(key, value)] + EncodedParts(rest));
    } else {
      assert [] + EncodedParts(rest) == EncodedParts(rest);
    }
  }

  /** The `params_parts` list, appended to one filter at a time and joined
      with `&`, each value encoded. */
  method BuildParamsQuery(q: CardQuery) returns (paramsQuery: string)
    ensures paramsQuery == ParamsQuery(q)
  {
    ghost var f4 := TailFields(q);
    ghost var f3 := Opt(q.filterType != "" && q.filterType != "all", "filter", q.filterType, f4);
    ghost var f2 := Opt(q.topic != "", "topic", q.topic, f3);
    ghost var goal := EncodedParts(LinkFields(q));
    var parts: seq<string> := [];
    assert parts + goal == goal;
    parts := AppendPart(parts, q.subject != "", "subject", q.subject, f2, goal);
    parts := AppendPart(parts, q.topic != "", "topic", q.topic, f3, goal);
    parts := AppendPart(parts, q.filterType != "" && q.filterType != "all", "filter", q.filterType, f4, goal);
    parts := AppendTailParts(parts, q, goal);
    paramsQuery := Join(parts, "&");
  }

  /** The date, stars and search steps of the builder. */
  method AppendTailParts(parts: seq<string>, q: CardQuery, ghost goal: seq<string>) returns (parts': seq<string>)
    requires parts + EncodedParts(TailFields(q)) == goal
    ensures parts' == goal
  {
    ghost var f7: seq<Field> := [];
    ghost var f6 := Opt(q.search != "", "q", q.search, f7);
    ghost var f5 := Opt(q.stars != "", "stars", q.stars, f6);
    parts' := AppendPart(parts, q.date != "", "date", q.date, f5, goal);
    parts' := AppendPart(parts', q.stars != "", "stars", q.stars, f6, goal);
    parts' := AppendPart(parts', q.search != "", "q", q.search, f7, goal);
    assert EncodedParts(f7) == [];
    assert parts' + [] == parts';
  }

  /** The preserved query string is empty exactly when no filter is set
      and the filter type is `all` or empty. */
  lemma ParamsQueryEmpty(q: CardQuery)
    ensures ParamsQuery(q) == "" <==>
      q.subject == "" && q.topic == "" && q.date == "" && q.stars == "" && q.search == ""
      && (q.filterType == "" || q.filterType == "all")
  {
    var parts := EncodedParts(LinkFields(q));
    if parts != [] {
      assert parts[0] == LinkFields(q)[0].0 + "=" + Encode(LinkFields(q)[0].1);
      assert |Join(parts, "&")| >= |parts[0]| by {
        if |parts| > 1 {
          assert Join(parts, "&") == parts[0] + "&" + Join(parts[1..], "&");
        }
      }
    }
    var empty := q.subject == "" && q.topic == "" && q.date == "" && q.stars == "" && q.search == ""
      && (q.filterType == "" || q.filterType == "all");
    assert LinkFields(q) == [] <==> empty by {
      assert TailFields(q) == [] <==> q.date == "" && q.stars == "" && q.search == "";
    }
  }
}
