/**
 * The request handlers of the notes and flashcard pages over one store
 * holding both tables and the next free id of each.
 */
module Handlers {
  import opened Options
  import opened Sorting
  import opened Pagination
  import opened Tables
  import opened Query
  import opened Links
  import opened Seeding

  /** The rows the notes page lists for a date filter. */
  function NotesListing(t: Table<NoteBody>, bound: int, filterType: string, date: string, sortOrder: string): seq<Listed<NoteBody>>
  {
    Select(t, bound, (r: Row<NoteBody>) => NoteMatches(filterType, date, r), NoteOrder(sortOrder))
  }

  class Store {
    var notes: Table<NoteBody>
    var cards: Table<CardBody>
    var nextNote: int
    var nextCard: int
    const clock: Clock

    ghost predicate Valid()
      reads this
    {
      && nextNote >= 1 && nextCard >= 1
      && WellFormed(notes, nextNote, clock)
      && WellFormed(cards, nextCard, clock)
    }

    /** A fresh database: both tables empty, ids starting at 1. */
    constructor(clock: Clock)
      ensures Valid()
      ensures notes == map[] && cards == map[] && nextNote == 1 && nextCard == 1
      ensures this.clock == clock
    {
      notes, cards := map[], map[];
      nextNote, nextCard := 1, 1;
      this.clock := clock;
    }

    // -------------------------------------------------------------------
    // Notes
    // -------------------------------------------------------------------

    /** The POST branch of the notes page: a non-empty text becomes a new
        note, dated by the engine's clock, with no stars. */
    method AddNote(text: string, now: int)
      requires Valid()
      modifies this
      ensures Valid()
      ensures text != "" ==> notes == AddRow(old(notes), old(nextNote), NewRow(NoteBody(text), now, clock.sqlText)) && nextNote == old(nextNote) + 1
      ensures text == "" ==> notes == old(notes) && nextNote == old(nextNote)
      ensures cards == old(cards) && nextCard == old(nextCard)
    {
      if text != "" {
        notes := AddRow(notes, nextNote, NewRow(NoteBody(text), now, clock.sqlText));
        nextNote := nextNote + 1;
      }
    }

    /** The POST branch of the edit page: a non-empty text replaces the
        note's text and nothing else. */
    method EditNote(id: nat, text: string)
      requires Valid()
      modifies this
      ensures Valid()
      ensures notes == if text != "" then Replace(old(notes), id, NoteBody(text)) else old(notes)
      ensures nextNote == old(nextNote) && cards == old(cards) && nextCard == old(nextCard)
    {
      if text != "" {
        notes := Replace(notes, id, NoteBody(text));
      }
    }

    method DeleteNote(id: nat)
      requires Valid()
      modifies this
      ensures Valid()
      ensures notes == Remove(old(notes), id)
      ensures nextNote == old(nextNote) && cards == old(cards) && nextCard == old(nextCard)
    {
      notes := Remove(notes, id);
    }

    /** Push a note's date on by `days` days; the new date is written in
        `isoformat()`. `overflow` is the `OverflowError` a date pushed past
        9999-12-31 raises, the note then left as it was. */
    method RescheduleNote(id: nat, days: nat) returns (overflow: bool)
      requires Valid()
      modifies this
      ensures Valid()
      ensures overflow <==> id in old(notes) && !ShiftFits(old(notes)[id].date, days)
      ensures notes == Reschedule(old(notes), id, days, clock.isoText)
      ensures nextNote == old(nextNote) && cards == old(cards) && nextCard == old(nextCard)
    {
      overflow := id in notes && !ShiftFits(notes[id].date, days);
      notes := Reschedule(notes, id, days, clock.isoText);
    }

    method RateNote(id: nat, stars: nat)
      requires Valid()
      modifies this
      ensures Valid()
      ensures notes == Rate(old(notes), id, stars)
      ensures nextNote == old(nextNote) && cards == old(cards) && nextCard == old(nextCard)
    {
      notes := Rate(notes, id, stars);
    }

    /** The GET branch of the notes page: the page's rows, the number of
        notes that pass the date filter, and the number of pages. An offset
        past the 64-bit range makes the listing statement raise
        `OverflowError` (`overflow`), and then no page is shown. */
    method Home(page: int, filterType: string, date: string, sortOrder: string)
      returns (rows: seq<Listed<NoteBody>>, total: nat, totalPages: nat, overflow: bool)
      requires Valid() && page >= 1
      ensures overflow <==> !Binds(Offset(page, NotesPerPage))
      ensures !overflow ==> total == |NotesListing(notes, nextNote, filterType, date, sortOrder)|
      ensures !overflow ==> rows == PageSlice(NotesListing(notes, nextNote, filterType, date, sortOrder), Offset(page, NotesPerPage), NotesPerPage)
      ensures !overflow ==> totalPages == TotalPages(total, NotesPerPage)
      ensures forall i :: 0 <= i < |rows| ==>
        rows[i].0 in notes && notes[rows[i].0] == rows[i].1 && NoteMatches(filterType, date, rows[i].1)
      ensures SortedBy(rows, NoteOrder(sortOrder))
      ensures !overflow && page <= totalPages ==> 1 <= |rows| <= NotesPerPage
      ensures !overflow && page > totalPages ==> rows == []
    {
      overflow := !Binds(Offset(page, NotesPerPage));
      if overflow {
        rows, total, totalPages := [], 0, 0;
        return;
      }
      var keep := (r: Row<NoteBody>) => NoteMatches(filterType, date, r);
      var le := NoteOrder(sortOrder);
      total := CountWhere(notes, nextNote, keep);
      var listed := Select(notes, nextNote, keep, le);
      rows := PageSlice(listed, Offset(page, NotesPerPage), NotesPerPage);
      totalPages := TotalPages(total, NotesPerPage);
      NoteOrdersArePreorders();
      SelectIsListing(notes, nextNote, keep, le);
      PageBounds(listed, NotesPerPage, page);
      SliceOfListing(listed, notes, keep, le, Offset(page, NotesPerPage), NotesPerPage);
    }

    // -------------------------------------------------------------------
    // Flashcards
    // -------------------------------------------------------------------

    /** The POST branch of the practice page: a card with every text field
        set is inserted, dated by the engine's clock, with no stars. */
    method AddCard(body: CardBody, now: int)
      requires Valid()
      modifies this
      ensures Valid()
      ensures body.Complete() ==> cards == AddRow(old(cards), old(nextCard), NewRow(body, now, clock.sqlText)) && nextCard == old(nextCard) + 1
      ensures !body.Complete() ==> cards == old(cards) && nextCard == old(nextCard)
      ensures notes == old(notes) && nextNote == old(nextNote)
    {
      if body.Complete() {
        cards := AddRow(cards, nextCard, NewRow(body, now, clock.sqlText));
        nextCard := nextCard + 1;
      }
    }

    /** The POST branch of the card edit page: the four text fields are
        replaced together, and only when every one of them is set. */
    method EditCard(id: nat, body: CardBody)
      requires Valid()
      modifies this
      ensures Valid()
      ensures cards == if body.Complete() then Replace(old(cards), id, body) else old(cards)
      ensures nextCard == old(nextCard) && notes == old(notes) && nextNote == old(nextNote)
    {
      if body.Complete() {
        cards := Replace(cards, id, body);
      }
    }

    method DeleteCard(id: nat)
      requires Valid()
      modifies this
      ensures Valid()
      ensures cards == Remove(old(cards), id)
      ensures nextCard == old(nextCard) && notes == old(notes) && nextNote == old(nextNote)
    {
      cards := Remove(cards, id);
    }

    method RescheduleCard(id: nat, days: nat) returns (overflow: bool)
      requires Valid()
      modifies this
      ensures Valid()
      ensures overflow <==> id in old(cards) && !ShiftFits(old(cards)[id].date, days)
      ensures cards == Reschedule(old(cards), id, days, clock.isoText)
      ensures nextCard == old(nextCard) && notes == old(notes) && nextNote == old(nextNote)
    {
      overflow := id in cards && !ShiftFits(cards[id].date, days);
      cards := Reschedule(cards, id, days, clock.isoText);
    }

    method RateCard(id: nat, stars: nat)
      requires Valid()
      modifies this
      ensures Valid()
      ensures cards == Rate(old(cards), id, stars)
      ensures nextCard == old(nextCard) && notes == old(notes) && nextNote == old(nextNote)
    {
      cards := Rate(cards, id, stars);
    }

    /** The insert loop of the seeding branch: one card after the other,
        each dated by its own `isoformat()` reading of the clock. */
    method SeedCards(bodies: seq<CardBody>, stamps: seq<int>)
      requires Valid() && |stamps| == |bodies|
      modifies this
      ensures Valid()
      ensures cards == Seed(old(cards), old(nextCard), bodies, stamps, clock.isoText)
      ensures nextCard == old(nextCard) + |bodies|
      ensures notes == old(notes) && nextNote == old(nextNote)
    {
      var i := 0;
      while i < |bodies|
        invariant 0 <= i <= |bodies|
        invariant nextCard == old(nextCard) + i && nextCard >= 1
        invariant Valid()
        invariant Seed(cards, nextCard, bodies[i..], stamps[i..], clock.isoText)
          == Seed(old(cards), old(nextCard), bodies, stamps, clock.isoText)
        invariant notes == old(notes) && nextNote == old(nextNote)
      {
        SeedUnfold(cards, nextCard, bodies, stamps, clock.isoText, i);
        InsertCard(bodies[i], stamps[i]);
        i := i + 1;
      }
      assert bodies[i..] == [];
    }

    /** One `INSERT` of the seeding loop, the date given as text. */
    method InsertCard(body: CardBody, stamp: int)
      requires Valid()
      modifies this
      ensures Valid()
      ensures cards == old(cards)[old(nextCard) := NewRow(body, stamp, clock.isoText)]
      ensures nextCard == old(nextCard) + 1
      ensures notes == old(notes) && nextNote == old(nextNote)
    {
      cards := AddRow(cards, nextCard, NewRow(body, stamp, clock.isoText));
      nextCard := nextCard + 1;
    }

    /** The GET branch of the practice page: build the filter, run both
        statements, seed the example cards when the guard fires, and cut out
        the page. The guard is the corrected one, which also requires that
        no stars filter applies. A stars value past the 64-bit range makes
        the count statement raise `OverflowError` (`overflow`) before
        anything is inserted. */
    method Practice(q: CardQuery, page: int, stamps: seq<int>)
      returns (rows: seq<Listed<CardBody>>, total: nat, totalPages: nat, paramsQuery: string, overflow: bool)
      requires Valid() && page >= 1 && |stamps| == |DummyCards|
      modifies this
      ensures Valid()
      ensures overflow <==> StarsFilter(q.stars).Some? && !Binds(StarsFilter(q.stars).value)
      ensures overflow ==> cards == old(cards) && nextCard == old(nextCard)
      ensures !overflow && SeedGuard(q, |Listing(old(cards), old(nextCard), q)|) ==>
        old(cards) == map[] && cards == Seed(map[], old(nextCard), DummyCards, stamps, clock.isoText) && nextCard == old(nextCard) + |DummyCards|
      ensures !SeedGuard(q, |Listing(old(cards), old(nextCard), q)|) ==> cards == old(cards) && nextCard == old(nextCard)
      ensures notes == old(notes) && nextNote == old(nextNote)
      ensures !overflow ==> total == |Listing(cards, nextCard, q)|
      ensures !overflow ==> rows == PageSlice(Listing(cards, nextCard, q), Offset(page, CardsPerPage), CardsPerPage)
      ensures !overflow ==> totalPages == TotalPages(total, CardsPerPage)
      ensures !overflow ==> paramsQuery == ParamsQuery(q)
    {
      overflow := StarsFilter(q.stars).Some? && !Binds(StarsFilter(q.stars).value);
      if overflow {
        rows, total, totalPages, paramsQuery := [], 0, 0, "";
        return;
      }
      var conds, params := BuildFilter(q);
      var query, queryCount := Statements(conds);
      var engine := (r: Row<CardBody>) => EvalWhere(conds, params, r) == Some(true);
      var matches := (r: Row<CardBody>) => Matches(q, r);
      SelectCongruent(cards, nextCard, engine, matches, ByDateThenStars);
      total := CountWhere(cards, nextCard, engine);
      var all := Select(cards, nextCard, engine, ByDateThenStars);
      ByDateThenStarsIsPreorder();
      SelectIsListing(cards, nextCard, matches, ByDateThenStars);
      if SeedGuard(q, |all|) {
        SeedOnlyIntoEmptyTable(cards, nextCard, q);
        SeedCards(DummyCards, stamps);
        all, total := ReadAll();
        UnfilteredListing(q);
      }
      rows := PageSlice(all, Offset(page, CardsPerPage), CardsPerPage);
      totalPages := TotalPages(total, CardsPerPage);
      paramsQuery := BuildParamsQuery(q);
    }

    /** The unfiltered re-read after seeding. */
    method ReadAll() returns (all: seq<Listed<CardBody>>, total: nat)
      requires Valid()
      ensures all == Select(cards, nextCard, (r: Row<CardBody>) => true, ByDateThenStars)
      ensures total == |all| == |cards|
    {
      all := Select(cards, nextCard, (r: Row<CardBody>) => true, ByDateThenStars);
      total := |all|;
      SelectAllSize(cards, nextCard, (r: Row<CardBody>) => true, ByDateThenStars);
    }

    /** With no filter set the filtered listing is the unfiltered one. */
    lemma UnfilteredListing(q: CardQuery)
      requires q.subject == "" && q.topic == "" && StarsFilter(q.stars).None? && q.date == "" && q.search == ""
      ensures Listing(cards, nextCard, q) == Select(cards, nextCard, (r: Row<CardBody>) => true, ByDateThenStars)
    {
      forall r: Row<CardBody> ensures Matches(q, r) {
        NoFiltersMatchAll(q, r);
      }
      SelectCongruent(cards, nextCard, (r: Row<CardBody>) => Matches(q, r), (r: Row<CardBody>) => true, ByDateThenStars);
    }

    /** The JSON endpoint: nothing without a search term, otherwise every
        card whose question or answer the term occurs in, by date and then
        stars. */
    method SearchPractice(q: string) returns (results: seq<Listed<CardBody>>)
      requires Valid()
      ensures q == "" ==> results == []
      ensures q != "" ==> IsListing(results, cards, (r: Row<CardBody>) => SearchHolds(q, r), ByDateThenStars)
    {
      results := [];
      if q != "" {
        var keep := (r: Row<CardBody>) => SearchHolds(q, r);
        results := Select(cards, nextCard, keep, ByDateThenStars);
        ByDateThenStarsIsPreorder();
        SelectIsListing(cards, nextCard, keep, ByDateThenStars);
      }
    }
  }

  /** A page cut out of a listing keeps the listing's row facts and order. */
  lemma SliceOfListing<B>(l: seq<Listed<B>>, t: Table<B>, keep: Row<B> -> bool, le: (Listed<B>, Listed<B>) -> bool, offset: nat, count: nat)
    requires IsListing(l, t, keep, le)
    ensures var s := PageSlice(l, offset, count);
      && (forall i :: 0 <= i < |s| ==> s[i].0 in t && t[s[i].0] == s[i].1 && keep(s[i].1))
      && SortedBy(s, le)
  {
    var s := PageSlice(l, offset, count);
    forall i, j | 0 <= i < j < |s| ensures le(s[i], s[j]) {
      assert s[i] == l[offset + i] && s[j] == l[offset + j];
    }
  }
}
