/**
 * The example flashcards the practice page inserts when it would otherwise
 * show nothing, and the guard that decides when it does so.
 */
module Seeding {
  import opened Options
  import opened Numerals
  import opened Tables
  import opened Query

  /** The five cards, each dated by its own reading of the clock. */
  const DummyCards: seq<CardBody> := [
    CardBody("Mathematics", "Algebra", "What is the solution to 2x + 5 = 13?", "x = 4"),
    CardBody("Science", "Physics", "What is Newtons second law of motion?", "F = ma (Force equals mass times acceleration)"),
    CardBody("History", "World War II", "In what year did World War II end?", "1945"),
    CardBody("Biology", "Cells", "What is the powerhouse of the cell?", "Mitochondria"),
    CardBody("Chemistry", "Periodic Table", "What is the chemical symbol for Gold?", "Au")
  ]

  /** The guard as the handler writes it: nothing was listed and neither a
      subject, a topic, a date nor a search term was given. The stars
      filter is not consulted. */
  predicate SeedGuardAsWritten(q: CardQuery, listed: nat)
  {
    listed == 0 && q.subject == "" && q.topic == "" && q.date == "" && q.search == ""
  }

  /** The guard with the stars filter consulted too, so that "no filters
      are applied" holds of every filter the page has. Stars text that
      `int()` does not read filters nothing, so it does not block seeding. */
  predicate SeedGuard(q: CardQuery, listed: nat)
  {
    SeedGuardAsWritten(q, listed) && StarsFilter(q.stars).None?
  }

  /** The flashcard listing the page computes for `q`. */
  function Listing(t: Table<CardBody>, bound: int, q: CardQuery): seq<Listed<CardBody>>
  {
    Select(t, bound, (r: Row<CardBody>) => Matches(q, r), ByDateThenStars)
  }

  /** The table after `bodies` are inserted one after the other, each given
      the next free id and dated by its stamp rendered through `render`. */
  function Seed(t: Table<CardBody>, next: int, bodies: seq<CardBody>, stamps: seq<int>, render: int -> string): Table<CardBody>
    requires |stamps| == |bodies|
    decreases |bodies|
  {
    if bodies == [] then t
    else Seed(t[next := NewRow(bodies[0], stamps[0], render)], next + 1, bodies[1..], stamps[1..], render)
  }

  /** Seeding the rest of `bodies` from `i` on is inserting the `i`-th one
      and then seeding the rest after it. */
  lemma SeedUnfold(t: Table<CardBody>, next: int, bodies: seq<CardBody>, stamps: seq<int>, render: int -> string, i: nat)
    requires |stamps| == |bodies| && i < |bodies|
    ensures Seed(t, next, bodies[i..], stamps[i..], render)
      == Seed(t[next := NewRow(bodies[i], stamps[i], render)], next + 1, bodies[i + 1..], stamps[i + 1..], render)
  {
    assert bodies[i..][1..] == bodies[i + 1..] && stamps[i..][1..] == stamps[i + 1..];
  }

  /** Seeding adds the ids `next` up to `next + |bodies|` and no other. */
  lemma {:induction false} SeedKeys(t: Table<CardBody>, next: int, bodies: seq<CardBody>, stamps: seq<int>, render: int -> string)
    requires |stamps| == |bodies|
    ensures forall k :: k in Seed(t, next, bodies, stamps, render) <==> k in t || next <= k < next + |bodies|
    decreases |bodies|
  {
    if bodies != [] {
      SeedKeys(t[next := NewRow(bodies[0], stamps[0], render)], next + 1, bodies[1..], stamps[1..], render);
    }
  }

  /** The rows already there are left as they were. */
  lemma {:induction false} SeedKeepsRows(t: Table<CardBody>, next: int, bodies: seq<CardBody>, stamps: seq<int>, render: int -> string)
    requires |stamps| == |bodies|
    requires forall k :: k in t ==> k < next
    ensures forall k :: k in t ==> k in Seed(t, next, bodies, stamps, render) && Seed(t, next, bodies, stamps, render)[k] == t[k]
    decreases |bodies|
  {
    if bodies != [] {
      SeedKeepsRows(t[next := NewRow(bodies[0], stamps[0], render)], next + 1, bodies[1..], stamps[1..], render);
    }
  }

  /** The `i`-th body lands at id `next + i`, dated by `stamps[i]`, with no
      stars. */
  lemma {:induction false} SeedNewRow(t: Table<CardBody>, next: int, bodies: seq<CardBody>, stamps: seq<int>, render: int -> string, i: int)
    requires |stamps| == |bodies| && 0 <= i < |bodies|
    requires forall k :: k in t ==> k < next
    ensures next + i in Seed(t, next, bodies, stamps, render)
    ensures Seed(t, next, bodies, stamps, render)[next + i] == NewRow(bodies[i], stamps[i], render)
    decreases |bodies|
  {
    var t' := t[next := NewRow(bodies[0], stamps[0], render)];
    if i == 0 {
      assert next in t';
      SeedKeepsRows(t', next + 1, bodies[1..], stamps[1..], render);
    } else {
      SeedNewRow(t', next + 1, bodies[1..], stamps[1..], render, i - 1);
      assert bodies[1..][i - 1] == bodies[i] && stamps[1..][i - 1] == stamps[i];
      assert next + 1 + (i - 1) == next + i;
    }
  }

  lemma SeedNewRows(t: Table<CardBody>, next: int, bodies: seq<CardBody>, stamps: seq<int>, render: int -> string)
    requires |stamps| == |bodies|
    requires forall k :: k in t ==> k < next
    ensures forall k :: next <= k < next + |bodies| ==>
      k in Seed(t, next, bodies, stamps, render) && Seed(t, next, bodies, stamps, render)[k] == NewRow(bodies[k - next], stamps[k - next], render)
  {
    forall k | next <= k < next + |bodies|
      ensures k in Seed(t, next, bodies, stamps, render) && Seed(t, next, bodies, stamps, render)[k] == NewRow(bodies[k - next], stamps[k - next], render)
    {
      SeedNewRow(t, next, bodies, stamps, render, k - next);
    }
  }

  /** Seeding adds exactly as many rows as it is given. */
  lemma {:induction false} SeedSize(t: Table<CardBody>, next: int, bodies: seq<CardBody>, stamps: seq<int>, render: int -> string)
    requires |stamps| == |bodies|
    requires forall k :: k in t ==> k < next
    ensures |Seed(t, next, bodies, stamps, render)| == |t| + |bodies|
    decreases |bodies|
  {
    if bodies != [] {
      var t' := t[next := NewRow(bodies[0], stamps[0], render)];
      assert next !in t;
      SeedSize(t', next + 1, bodies[1..], stamps[1..], render);
    }
  }

  /** Seeding a well-formed table from its next free id keeps it
      well-formed, the ids now reaching past the new rows. */
  lemma SeedWellFormed(t: Table<CardBody>, next: int, bodies: seq<CardBody>, stamps: seq<int>, clock: Clock)
    requires |stamps| == |bodies| && next >= 1
    requires WellFormed(t, next, clock)
    ensures WellFormed(Seed(t, next, bodies, stamps, clock.isoText), next + |bodies|, clock)
  {
    var r := Seed(t, next, bodies, stamps, clock.isoText);
    SeedKeys(t, next, bodies, stamps, clock.isoText);
    SeedKeepsRows(t, next, bodies, stamps, clock.isoText);
    SeedNewRows(t, next, bodies, stamps, clock.isoText);
    forall id | id in r ensures 1 <= id < next + |bodies| && 0 <= r[id].stars <= 5 && clock.Renders(r[id].date) {
    }
  }

  /** With no filter set every row is listed, so the corrected guard fires
      exactly when the table is empty. */
  lemma {:induction false} SeedOnlyIntoEmptyTable(t: Table<CardBody>, bound: int, q: CardQuery)
    requires forall id :: id in t ==> 1 <= id < bound
    ensures SeedGuard(q, |Listing(t, bound, q)|) <==>
      t == map[] && q.subject == "" && q.topic == "" && q.date == "" && q.search == "" && StarsFilter(q.stars).None?
  {
    if q.subject == "" && q.topic == "" && q.date == "" && q.search == "" && StarsFilter(q.stars).None? {
      forall r: Row<CardBody> ensures Matches(q, r) {
        NoFiltersMatchAll(q, r);
      }
      SelectAllSize(t, bound, (r: Row<CardBody>) => Matches(q, r), ByDateThenStars);
      if t != map[] {
        var id :| id in t;
        assert |t| > 0;
      }
    }
  }

  /** Once seeded, the table stays put on the next visit, whatever that
      visit filters by. */
  lemma NoReseed(next: int, bodies: seq<CardBody>, stamps: seq<int>, render: int -> string, q: CardQuery)
    requires next >= 1 && |stamps| == |bodies| && bodies != []
    ensures !SeedGuard(q, |Listing(Seed(map[], next, bodies, stamps, render), next + |bodies|, q)|)
  {
    var t := Seed(map[], next, bodies, stamps, render);
    SeedKeys(map[], next, bodies, stamps, render);
    assert next in t;
    SeedOnlyIntoEmptyTable(t, next + |bodies|, q);
  }

  /** With the guard as written, a stars filter that no row meets lists
      nothing and so inserts the example cards again, however full the
      table already is. */
  lemma AsWrittenSeedsUnderStarsFilter(t: Table<CardBody>, bound: int, n: nat)
    requires Printable(n)
    requires forall id :: id in t ==> 1 <= id < bound
    requires forall id :: id in t ==> t[id].stars != n
    ensures SeedGuardAsWritten(CardQuery("", "", "", "all", IntText(n), ""), |Listing(t, bound, CardQuery("", "", "", "all", IntText(n), ""))|)
  {
    var q := CardQuery("", "", "", "all", IntText(n), "");
    ParseIntText(n);
    assert StarsFilter(q.stars) == Some(n);
    var l := Listing(t, bound, q);
    ByDateThenStarsIsPreorder();
    SelectIsListing(t, bound, (r: Row<CardBody>) => Matches(q, r), ByDateThenStars);
  }

  /** The visible symptom: right after seeding, asking for five-star cards
      seeds a second time, since the example cards carry no stars. */
  lemma AsWrittenReseedsSeededTable(next: int, bodies: seq<CardBody>, stamps: seq<int>, render: int -> string)
    requires next >= 1 && |stamps| == |bodies| && bodies != []
    ensures var t := Seed(map[], next, bodies, stamps, render);
      var q := CardQuery("", "", "", "all", IntText(5), "");
      t != map[] && SeedGuardAsWritten(q, |Listing(t, next + |bodies|, q)|)
  {
    var t := Seed(map[], next, bodies, stamps, render);
    SeedKeys(map[], next, bodies, stamps, render);
    SeedNewRows(map[], next, bodies, stamps, render);
    assert next in t;
    forall id | id in t ensures t[id].stars != 5 {
      assert t[id] == NewRow(bodies[id - next], stamps[id - next], render);
    }
    assert NatText(5) == "5";
    AsWrittenSeedsUnderStarsFilter(t, next + |bodies|, 5);
  }
  /** The accept-all condition of the unfiltered re-read. */
  predicate AnyCard(r: Row<CardBody>)
  {
    true
  }

  /** The practice page with the guard as written: the flashcard table
      afterwards and the listing it pages through. When the guard fires the
      example cards are inserted and the table is read back unfiltered,
      whatever the filters were. */
  function PracticeAsWritten(t: Table<CardBody>, next: int, q: CardQuery, stamps: seq<int>, render: int -> string): (Table<CardBody>, seq<Listed<CardBody>>)
    requires |stamps| == |DummyCards|
  {
    if SeedGuardAsWritten(q, |Listing(t, next, q)|) then
      var seeded := Seed(t, next, DummyCards, stamps, render);
      (seeded, Select(seeded, next + |DummyCards|, AnyCard, ByDateThenStars))
    else (t, Listing(t, next, q))
  }

  /** Once the guard as written fires, the page lists every card the table
      held before together with the five inserted ones, the filters
      notwithstanding: under a stars filter on a full table that is more
      cards than the table held, none of the old ones with those stars. */
  lemma AsWrittenListsEverything(t: Table<CardBody>, next: int, q: CardQuery, stamps: seq<int>, render: int -> string)
    requires |stamps| == |DummyCards|
    requires next >= 1 && forall id :: id in t ==> 1 <= id < next
    requires SeedGuardAsWritten(q, |Listing(t, next, q)|)
    ensures var after := PracticeAsWritten(t, next, q, stamps, render);
      && |after.0| == |t| + |DummyCards|
      && (forall id :: id in t ==> id in after.0 && after.0[id] == t[id])
      && |after.1| == |after.0|
      && IsListing(after.1, after.0, AnyCard, ByDateThenStars)
  {
    var seeded := Seed(t, next, DummyCards, stamps, render);
    SeedSize(t, next, DummyCards, stamps, render);
    SeedKeepsRows(t, next, DummyCards, stamps, render);
    SeededBelow(t, next, DummyCards, stamps, render);
    ReadAllListing(seeded, next + |DummyCards|);
  }

  /** Seeding from a positive next free id keeps every id in range. */
  lemma SeededBelow(t: Table<CardBody>, next: int, bodies: seq<CardBody>, stamps: seq<int>, render: int -> string)
    requires |stamps| == |bodies|
    requires next >= 1 && forall id :: id in t ==> 1 <= id < next
    ensures forall id :: id in Seed(t, next, bodies, stamps, render) ==> 1 <= id < next + |bodies|
  {
    SeedKeys(t, next, bodies, stamps, render);
  }

  /** The unfiltered re-read lists each row of the table once. */
  lemma ReadAllListing(t: Table<CardBody>, bound: int)
    requires forall id :: id in t ==> 1 <= id < bound
    ensures |Select(t, bound, AnyCard, ByDateThenStars)| == |t|
    ensures IsListing(Select(t, bound, AnyCard, ByDateThenStars), t, AnyCard, ByDateThenStars)
  {
    ByDateThenStarsIsPreorder();
    SelectAllSize(t, bound, AnyCard, ByDateThenStars);
    SelectIsListing(t, bound, AnyCard, ByDateThenStars);
  }
}
