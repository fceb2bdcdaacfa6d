/**
 * The two tables the handlers work on, `notes` and `spaced_repetition`
 * (flashcards), as maps from row id to row, with the single-row updates the
 * handlers issue and the `SELECT ... ORDER BY` listing they read.
 */
module Tables {
  import opened Text
  import opened Sorting

  const SecondsPerDay: int := 86400

  /** A stored timestamp: the instant, in seconds, and the text the `date`
      column holds for it. Filters compare the text; `DATE(date)` and
      `timedelta` work on the instant. */
  datatype Date = Date(stamp: int, text: string)

  datatype NoteBody = NoteBody(text: string)
  {
    /** The guard `if text:` of the create and edit handlers. */
    predicate Complete()
    {
      text != ""
    }
  }

  datatype CardBody = CardBody(subject: string, topic: string, question: string, answer: string)
  {
    /** The guard `if subject and topic and question and answer:`. */
    predicate Complete()
    {
      subject != "" && topic != "" && question != "" && answer != ""
    }
  }

  /** A row of either table: its text fields, its date and its stars. */
  datatype Row<B> = Row(body: B, date: Date, stars: int)

  type Table<B> = map<int, Row<B>>

  /** A row as a query returns it, with its id. */
  type Listed<B> = (int, Row<B>)

  /** How a stored date's text renders its instant: the engine's
      `CURRENT_TIMESTAMP` default on insert, and Python's `isoformat()`
      wherever a handler writes a date itself. */
  datatype Clock = Clock(sqlText: int -> string, isoText: int -> string)
  {
    predicate Renders(d: Date)
    {
      d.text == sqlText(d.stamp) || d.text == isoText(d.stamp)
    }
  }

  /** Ids are handed out from 1 upwards and stay below the next free id,
      stars stay within 0..5, and every date's text renders its instant. */
  ghost predicate WellFormed<B>(t: Table<B>, next: int, clock: Clock)
  {
    forall id :: id in t ==>
      && 1 <= id < next
      && 0 <= t[id].stars <= 5
      && clock.Renders(t[id].date)
  }

  // ---------------------------------------------------------------------
  // Dates
  // ---------------------------------------------------------------------

  /** `DATE(date)`: the calendar day the instant falls on, counted from
      0001-01-01, the first day `datetime` holds. */
  function Day(stamp: int): int
  {
    stamp / SecondsPerDay
  }

  /** 9999-12-31, the last day `datetime` holds. */
  const LastDay: int := 3652058

  /** The instants a `datetime` can hold; arithmetic that leaves them raises
      `OverflowError`. */
  predicate InRange(stamp: int)
  {
    0 <= stamp && Day(stamp) <= LastDay
  }

  /** Whether `date + timedelta(days=days)` stays within range. */
  predicate ShiftFits(d: Date, days: int)
  {
    InRange(d.stamp + days * SecondsPerDay)
  }

  /** `datetime + timedelta(days=days)`, stored back as text. */
  function Shift(d: Date, days: int, render: int -> string): (r: Date)
    ensures Day(r.stamp) == Day(d.stamp) + days
    ensures r.stamp % SecondsPerDay == d.stamp % SecondsPerDay
    ensures r.text == render(r.stamp)
  {
    var s := d.stamp + days * SecondsPerDay;
    Date(s, render(s))
  }

  // ---------------------------------------------------------------------
  // Single-row updates, each addressed by id
  // ---------------------------------------------------------------------

  /** The guard `1 <= stars <= 5` of both rating handlers. */
  predicate ValidRating(stars: int)
  {
    1 <= stars <= 5
  }

  /** `UPDATE ... SET stars = ? WHERE id = ?`, issued only for a valid rating. */
  function Rate<B>(t: Table<B>, id: int, stars: int): (r: Table<B>)
    ensures r.Keys == t.Keys
    ensures forall k :: k in t && k != id ==> r[k] == t[k]
    ensures id in t && ValidRating(stars) ==>
      r[id].stars == stars && r[id].body == t[id].body && r[id].date == t[id].date
    ensures !ValidRating(stars) || id !in t ==> r == t
  {
    if ValidRating(stars) && id in t then t[id := t[id].(stars := stars)] else t
  }

  /** `UPDATE ... SET date = ? WHERE id = ?` with the date pushed `days`
      days on. A date pushed out of range raises `OverflowError` before the
      update, and the row keeps its date. */
  function Reschedule<B>(t: Table<B>, id: int, days: int, render: int -> string): (r: Table<B>)
    ensures r.Keys == t.Keys
    ensures forall k :: k in t && k != id ==> r[k] == t[k]
    ensures id in t && ShiftFits(t[id].date, days) ==>
      && Day(r[id].date.stamp) == Day(t[id].date.stamp) + days
      && r[id].date.stamp % SecondsPerDay == t[id].date.stamp % SecondsPerDay
      && InRange(r[id].date.stamp)
      && r[id].date.text == render(r[id].date.stamp)
      && r[id].body == t[id].body && r[id].stars == t[id].stars
    ensures id !in t || !ShiftFits(t[id].date, days) ==> r == t
  {
    if id in t && ShiftFits(t[id].date, days) then t[id := t[id].(date := Shift(t[id].date, days, render))] else t
  }

  /** Pushing an in-range row on by `a` days and then by `b` days lands
      where pushing it on by `a + b` days does, when that date is in range. */
  lemma RescheduleTwice<B>(t: Table<B>, id: int, a: nat, b: nat, render: int -> string)
    requires id in t ==> InRange(t[id].date.stamp)
    ensures id in t && ShiftFits(t[id].date, a + b) ==>
      Reschedule(Reschedule(t, id, a, render), id, b, render) == Reschedule(t, id, a + b, render)
  {
    if id in t && ShiftFits(t[id].date, a + b) {
      var d := t[id].date;
      var s := d.stamp + a * SecondsPerDay;
      assert d.stamp + a * SecondsPerDay + b * SecondsPerDay == d.stamp + (a + b) * SecondsPerDay;
      assert d.stamp <= s <= d.stamp + (a + b) * SecondsPerDay;
      assert Day(s) <= Day(d.stamp + (a + b) * SecondsPerDay);
      assert ShiftFits(d, a);
    }
  }

  /** The largest value sqlite3 binds as an `INTEGER`. */
  const MaxSqlInt: int := 0x7FFF_FFFF_FFFF_FFFF

  /** sqlite3 binds a Python `int` only in the signed 64-bit range; any
      other raises `OverflowError` and the statement does not run. */
  predicate Binds(n: int)
  {
    -MaxSqlInt - 1 <= n <= MaxSqlInt
  }

  /** The edit handlers' `UPDATE ... SET <text fields> WHERE id = ?`. */
  function Replace<B>(t: Table<B>, id: int, body: B): (r: Table<B>)
    ensures r.Keys == t.Keys
    ensures forall k :: k in t && k != id ==> r[k] == t[k]
    ensures id in t ==> r[id].body == body && r[id].date == t[id].date && r[id].stars == t[id].stars
    ensures id !in t ==> r == t
  {
    if id in t then t[id := t[id].(body := body)] else t
  }

  /** `DELETE FROM ... WHERE id = ?`. */
  function Remove<B>(t: Table<B>, id: int): (r: Table<B>)
    ensures r.Keys == t.Keys - {id}
    ensures forall k :: k in r ==> r[k] == t[k]
  {
    t - {id}
  }

  /** `INSERT`: the row takes the next free id. */
  function AddRow<B>(t: Table<B>, next: int, row: Row<B>): (r: Table<B>)
    requires forall k :: k in t ==> k < next
    ensures r.Keys == t.Keys + {next} && next !in t
    ensures r[next] == row && forall k :: k in t ==> r[k] == t[k]
    ensures |r| == |t| + 1
  {
    t[next := row]
  }

  /** A row the engine creates: default stars 0, dated `now`. */
  function NewRow<B>(body: B, now: int, render: int -> string): Row<B>
  {
    Row(body, Date(now, render(now)), 0)
  }

  /** Deleting a row just added gives the table back. */
  lemma RemoveAdded<B>(t: Table<B>, next: int, row: Row<B>)
    requires forall k :: k in t ==> k < next
    ensures Remove(AddRow(t, next, row), next) == t
  {
    assert Remove(AddRow(t, next, row), next).Keys == t.Keys;
  }

  // ---------------------------------------------------------------------
  // SELECT ... WHERE ... ORDER BY
  // ---------------------------------------------------------------------

  /** The table read in id order over the ids in `[lo, hi)`. */
  function Scan<B>(t: Table<B>, lo: int, hi: int): seq<Listed<B>>
    decreases hi - lo
  {
    if lo >= hi then []
    else if lo in t then [(lo, t[lo])] + Scan(t, lo + 1, hi)
    else Scan(t, lo + 1, hi)
  }

  /** The scan reads each row of `[lo, hi)` once, with its id, in
      increasing id order. */
  lemma {:induction false} ScanFacts<B>(t: Table<B>, lo: int, hi: int)
    ensures forall i :: 0 <= i < |Scan(t, lo, hi)| ==>
      lo <= Scan(t, lo, hi)[i].0 < hi && Scan(t, lo, hi)[i].0 in t && t[Scan(t, lo, hi)[i].0] == Scan(t, lo, hi)[i].1
    ensures forall i, j :: 0 <= i < j < |Scan(t, lo, hi)| ==> Scan(t, lo, hi)[i].0 < Scan(t, lo, hi)[j].0
    ensures forall id :: lo <= id < hi && id in t ==> (id, t[id]) in Scan(t, lo, hi)
    decreases hi - lo
  {
    if lo < hi {
      ScanFacts(t, lo + 1, hi);
      var rest := Scan(t, lo + 1, hi);
      if lo in t {
        var r := [(lo, t[lo])] + rest;
        assert Scan(t, lo, hi) == r;
        assert forall i :: 1 <= i < |r| ==> r[i] == rest[i - 1];
        assert forall x :: x in rest ==> x in r;
      }
    }
  }

  function KeysIn<B>(t: Table<B>, lo: int, hi: int): set<int>
  {
    set k | k in t && lo <= k < hi
  }

  lemma KeysInStep<B>(t: Table<B>, lo: int, hi: int)
    requires lo < hi
    ensures lo in t ==> KeysIn(t, lo, hi) == {lo} + KeysIn(t, lo + 1, hi) && lo !in KeysIn(t, lo + 1, hi)
    ensures lo !in t ==> KeysIn(t, lo, hi) == KeysIn(t, lo + 1, hi)
  {
  }

  lemma {:induction false} ScanSize<B>(t: Table<B>, lo: int, hi: int)
    ensures |Scan(t, lo, hi)| == |KeysIn(t, lo, hi)|
    decreases hi - lo
  {
    if lo < hi {
      ScanSize(t, lo + 1, hi);
      KeysInStep(t, lo, hi);
      if lo in t {
        assert |Scan(t, lo, hi)| == 1 + |Scan(t, lo + 1, hi)|;
        assert |KeysIn(t, lo, hi)| == 1 + |KeysIn(t, lo + 1, hi)|;
      } else {
        assert |Scan(t, lo, hi)| == |Scan(t, lo + 1, hi)|;
      }
    } else {
      assert KeysIn(t, lo, hi) == {};
    }
  }

  /** The `WHERE` step: keep the rows the condition holds of, in order. */
  function Keep<B(==,!new)>(s: seq<Listed<B>>, keep: Row<B> -> bool): (r: seq<Listed<B>>)
    ensures forall x :: x in r <==> x in s && keep(x.1)
    ensures Distinct(s) ==> Distinct(r)
    ensures |r| <= |s|
  {
    if s == [] then []
    else
      assert s == [s[0]] + s[1..];
      if keep(s[0].1) then [s[0]] + Keep(s[1..], keep) else Keep(s[1..], keep)
  }

  lemma {:induction false} KeepAll<B(!new)>(s: seq<Listed<B>>, keep: Row<B> -> bool)
    requires forall i :: 0 <= i < |s| ==> keep(s[i].1)
    ensures Keep(s, keep) == s
  {
    if s != [] {
      KeepAll(s[1..], keep);
    }
  }

  lemma {:induction false} KeepCongruent<B(!new)>(s: seq<Listed<B>>, k1: Row<B> -> bool, k2: Row<B> -> bool)
    requires forall r :: k1(r) == k2(r)
    ensures Keep(s, k1) == Keep(s, k2)
  {
    if s != [] {
      KeepCongruent(s[1..], k1, k2);
    }
  }

  /** `SELECT * FROM table WHERE keep ORDER BY le` on a table whose ids lie
      in `[1, bound)`. */
  function Select<B(==,!new)>(t: Table<B>, bound: int, keep: Row<B> -> bool, le: (Listed<B>, Listed<B>) -> bool): seq<Listed<B>>
  {
    Sort(Keep(Scan(t, 1, bound), keep), le)
  }

  /** `SELECT COUNT(*) FROM table WHERE keep`. */
  function CountWhere<B(==,!new)>(t: Table<B>, bound: int, keep: Row<B> -> bool): nat
  {
    |Keep(Scan(t, 1, bound), keep)|
  }

  /** What a `SELECT ... WHERE ... ORDER BY` promises: each matching row once,
      with its id, no other row, in the requested order. */
  ghost predicate IsListing<B>(l: seq<Listed<B>>, t: Table<B>, keep: Row<B> -> bool, le: (Listed<B>, Listed<B>) -> bool)
  {
    && (forall i :: 0 <= i < |l| ==> l[i].0 in t && t[l[i].0] == l[i].1 && keep(l[i].1))
    && (forall id :: id in t && keep(t[id]) ==> (id, t[id]) in l)
    && (forall i, j :: 0 <= i < j < |l| ==> l[i].0 != l[j].0)
    && SortedBy(l, le)
  }

  /** Rows drawn from a table carry their ids, so distinct rows have
      distinct ids. */
  lemma DistinctIds<B>(l: seq<Listed<B>>, t: Table<B>)
    requires Distinct(l)
    requires forall i :: 0 <= i < |l| ==> l[i].0 in t && t[l[i].0] == l[i].1
    ensures forall i, j :: 0 <= i < j < |l| ==> l[i].0 != l[j].0
  {
  }

  lemma SelectIsListing<B(!new)>(t: Table<B>, bound: int, keep: Row<B> -> bool, le: (Listed<B>, Listed<B>) -> bool)
    requires forall id :: id in t ==> 1 <= id < bound
    requires TotalPreorder(le)
    ensures IsListing(Select(t, bound, keep, le), t, keep, le)
    ensures |Select(t, bound, keep, le)| == CountWhere(t, bound, keep)
  {
    var scan := Scan(t, 1, bound);
    var kept := Keep(scan, keep);
    var l := Sort(kept, le);
    ScanFacts(t, 1, bound);
    assert Distinct(scan);
    SortDistinct(kept, le);
    SortSorted(kept, le);
    forall i | 0 <= i < |l| ensures l[i].0 in t && t[l[i].0] == l[i].1 && keep(l[i].1) {
      assert l[i] in l;
      assert l[i] in kept;
      assert l[i] in scan;
      var j :| 0 <= j < |scan| && scan[j] == l[i];
    }
    forall id | id in t && keep(t[id]) ensures (id, t[id]) in l {
      assert (id, t[id]) in scan;
    }
    DistinctIds(l, t);
  }

  /** The unfiltered listing holds every row of the table. */
  lemma SelectAllSize<B(!new)>(t: Table<B>, bound: int, keep: Row<B> -> bool, le: (Listed<B>, Listed<B>) -> bool)
    requires forall id :: id in t ==> 1 <= id < bound
    requires forall r :: keep(r)
    ensures |Select(t, bound, keep, le)| == |t|
  {
    var scan := Scan(t, 1, bound);
    KeepAll(scan, keep);
    assert |Select(t, bound, keep, le)| == |Keep(scan, keep)| == |scan|;
    ScanSize(t, 1, bound);
    assert KeysIn(t, 1, bound) == t.Keys by {
      forall k ensures k in KeysIn(t, 1, bound) <==> k in t.Keys {
      }
    }
    assert |t.Keys| == |t|;
  }

  lemma SelectCongruent<B(!new)>(t: Table<B>, bound: int, k1: Row<B> -> bool, k2: Row<B> -> bool, le: (Listed<B>, Listed<B>) -> bool)
    requires forall r :: k1(r) == k2(r)
    ensures Select(t, bound, k1, le) == Select(t, bound, k2, le)
    ensures CountWhere(t, bound, k1) == CountWhere(t, bound, k2)
  {
    KeepCongruent(Scan(t, 1, bound), k1, k2);
  }

  // ---------------------------------------------------------------------
  // The two orders
  // ---------------------------------------------------------------------

  /** `ORDER BY date ASC, stars ASC`, the flashcard order: the date text,
      then the stars. */
  predicate ByDateThenStars(a: Listed<CardBody>, b: Listed<CardBody>)
  {
    Less(a.1.date.text, b.1.date.text) || (a.1.date.text == b.1.date.text && a.1.stars <= b.1.stars)
  }

  lemma ByDateThenStarsIsPreorder()
    ensures TotalPreorder(ByDateThenStars)
  {
    forall a: Listed<CardBody>, b: Listed<CardBody> ensures ByDateThenStars(a, b) || ByDateThenStars(b, a) {
      LessTrichotomy(a.1.date.text, b.1.date.text);
    }
    forall a: Listed<CardBody>, b: Listed<CardBody>, c: Listed<CardBody> | ByDateThenStars(a, b) && ByDateThenStars(b, c)
      ensures ByDateThenStars(a, c)
    {
      var x, y, z := a.1.date.text, b.1.date.text, c.1.date.text;
      if Less(x, y) && Less(y, z) {
        LessTransitive(x, y, z);
      }
    }
  }

  /** `ORDER BY DATE(date) ASC, stars ASC`. */
  predicate NotesAscending(a: Listed<NoteBody>, b: Listed<NoteBody>)
  {
    Day(a.1.date.stamp) < Day(b.1.date.stamp) || (Day(a.1.date.stamp) == Day(b.1.date.stamp) && a.1.stars <= b.1.stars)
  }

  /** `ORDER BY DATE(date) DESC, stars ASC`: the stars stay ascending. */
  predicate NotesDescending(a: Listed<NoteBody>, b: Listed<NoteBody>)
  {
    Day(a.1.date.stamp) > Day(b.1.date.stamp) || (Day(a.1.date.stamp) == Day(b.1.date.stamp) && a.1.stars <= b.1.stars)
  }

  lemma NoteOrdersArePreorders()
    ensures TotalPreorder(NotesAscending) && TotalPreorder(NotesDescending)
  {
  }
}
