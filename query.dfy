/**
 * The row filters of the two list pages: the date comparison both pages
 * share, the five flashcard filters, and the parameterised `WHERE` clause
 * the flashcard page builds from them condition by condition.
 */
module Query {
  import opened Options
  import opened Text
  import opened Numerals
  import opened Tables

  // ---------------------------------------------------------------------
  // The date filter, shared by the notes and the flashcard lists
  // ---------------------------------------------------------------------

  datatype DateCond = Before | After | On

  /** The `filter` argument picks a comparison, and only when `date` is not
      empty; any other name, `all` included, filters nothing. */
  function DateFilter(filterType: string, date: string): (r: Option<DateCond>)
    ensures r.Some? <==> date != "" && (filterType == "before" || filterType == "after" || filterType == "on")
    ensures r == Some(Before) <==> date != "" && filterType == "before"
    ensures r == Some(After) <==> date != "" && filterType == "after"
    ensures r == Some(On) <==> date != "" && filterType == "on"
  {
    if filterType == "before" && date != "" then Some(Before)
    else if filterType == "after" && date != "" then Some(After)
    else if filterType == "on" && date != "" then Some(On)
    else None
  }

  /** `date < d`, `date > d` and `date LIKE 'd%'` on the stored date text. */
  predicate DateHolds(c: DateCond, d: string, text: string)
  {
    match c
    case Before => Less(text, d)
    case After => Less(d, text)
    case On => Like(text, d + "%")
  }

  /** A row passes the date filter when no comparison was picked or the picked
      one holds of its date. */
  predicate DateOk(filterType: string, date: string, text: string)
  {
    var f := DateFilter(filterType, date);
    f.Some? ==> DateHolds(f.value, date, text)
  }

  /** "On this day" is a prefix test on the date text (ASCII case aside)
      when the given date has no LIKE wildcard in it. */
  lemma OnDayIsPrefix(date: string, text: string)
    requires NoWildcards(date)
    ensures DateHolds(On, date, text) <==> StartsWithFolded(text, date)
  {
    LikePrefix(text, date);
  }

  /** Before and after split the rows with a date other than the given one:
      no date is both, and every other date is one of them. */
  lemma BeforeAfterSplit(date: string, text: string)
    ensures !(DateHolds(Before, date, text) && DateHolds(After, date, text))
    ensures text != date ==> DateHolds(Before, date, text) || DateHolds(After, date, text)
    ensures !DateHolds(Before, date, date) && !DateHolds(After, date, date)
  {
    LessTrichotomy(text, date);
    LessTrichotomy(date, date);
  }

  /** The `home` list: the date filter alone; the `q` argument filters
      nothing. */
  predicate NoteMatches(filterType: string, date: string, r: Row<NoteBody>)
  {
    DateOk(filterType, date, r.date.text)
  }

  /** `sort=desc` lists the latest day first; any other value the earliest. */
  function NoteOrder(sortOrder: string): (le: (Listed<NoteBody>, Listed<NoteBody>) -> bool)
    ensures sortOrder == "desc" ==> le == NotesDescending
    ensures sortOrder != "desc" ==> le == NotesAscending
  {
    if sortOrder == "desc" then NotesDescending else NotesAscending
  }

  // ---------------------------------------------------------------------
  // The flashcard filters
  // ---------------------------------------------------------------------

  /** The query arguments of the flashcard page; absent ones are empty. */
  datatype CardQuery = CardQuery(subject: string, topic: string, date: string, filterType: string, stars: string, search: string)

  /** The `stars` argument filters only when it is set and `int()` reads
      it; otherwise it is ignored. */
  function StarsFilter(stars: string): (r: Option<int>)
    ensures stars == "" ==> r == None
    ensures r.Some? <==> ParseInt(stars).Some?
    ensures r.Some? ==> r == ParseInt(stars)
  {
    if stars != "" then ParseInt(stars) else None
  }

  /** `question LIKE '%q%' OR answer LIKE '%q%'`. */
  predicate SearchHolds(search: string, r: Row<CardBody>)
  {
    Like(r.body.question, "%" + search + "%") || Like(r.body.answer, "%" + search + "%")
  }

  /** Without wildcards in it the search term is a case-insensitive substring
      of the question or of the answer. */
  lemma SearchIsSubstring(search: string, r: Row<CardBody>)
    requires NoWildcards(search)
    ensures SearchHolds(search, r) <==> ContainsFolded(r.body.question, search) || ContainsFolded(r.body.answer, search)
  {
    LikeInfix(r.body.question, search);
    LikeInfix(r.body.answer, search);
  }

  predicate SubjectOk(q: CardQuery, r: Row<CardBody>) { q.subject != "" ==> r.body.subject == q.subject }
  predicate TopicOk(q: CardQuery, r: Row<CardBody>) { q.topic != "" ==> r.body.topic == q.topic }
  predicate StarsOk(q: CardQuery, r: Row<CardBody>) { StarsFilter(q.stars).Some? ==> r.stars == StarsFilter(q.stars).value }
  predicate SearchOk(q: CardQuery, r: Row<CardBody>) { q.search != "" ==> SearchHolds(q.search, r) }

  /** The rows the flashcard page lists: every filter that is set holds. */
  predicate Matches(q: CardQuery, r: Row<CardBody>)
  {
    SubjectOk(q, r) && TopicOk(q, r) && StarsOk(q, r) && DateOk(q.filterType, q.date, r.date.text) && SearchOk(q, r)
  }

  /** A query that sets no filter, and whose stars text, if any, `int()`
      does not read, lists every row. */
  lemma NoFiltersMatchAll(q: CardQuery, r: Row<CardBody>)
    requires q.subject == "" && q.topic == "" && StarsFilter(q.stars).None? && q.date == "" && q.search == ""
    ensures Matches(q, r)
  {
  }

  // ---------------------------------------------------------------------
  // The parameterised WHERE clause
  // ---------------------------------------------------------------------

  /** One entry of the `conditions` list. */
  datatype Condition = SubjectIs | TopicIs | StarsIs | DateBefore | DateAfter | DateLike | TextSearch
  {
    /** The SQL text appended for the condition. */
    function Sql(): string
    {
      match this
      case SubjectIs => "subject = ?"
      case TopicIs => "topic = ?"
      case StarsIs => "stars = ?"
      case DateBefore => "date < ?"
      case DateAfter => "date > ?"
      case DateLike => "date LIKE ?"
      case TextSearch => "(question LIKE ? OR answer LIKE ?)"
    }

    /** How many parameters the condition takes from `params`. */
    function Arity(): nat
    {
      if this == TextSearch then 2 else 1
    }

    /** The position the handler appends the condition at; the three date
        conditions exclude one another. */
    function Rank(): nat
    {
      match this
      case SubjectIs => 0
      case TopicIs => 1
      case StarsIs => 2
      case DateBefore => 3
      case DateAfter => 3
      case DateLike => 3
      case TextSearch => 4
    }
  }

  lemma OneMark(a: string)
    requires '?' !in a
    ensures Count('?', a + "?") == 1
  {
    CountConcat('?', a, "?");
    CountAbsent('?', a);
    CountOne('?');
  }

  /** Each condition's text holds as many `?` as it takes parameters. */
  lemma SqlPlaceholders(c: Condition)
    ensures Count('?', c.Sql()) == c.Arity()
  {
    match c
    case SubjectIs => assert c.Sql() == "subject = " + "?"; OneMark("subject = ");
    case TopicIs => assert c.Sql() == "topic = " + "?"; OneMark("topic = ");
    case StarsIs => assert c.Sql() == "stars = " + "?"; OneMark("stars = ");
    case DateBefore => assert c.Sql() == "date < " + "?"; OneMark("date < ");
    case DateAfter => assert c.Sql() == "date > " + "?"; OneMark("date > ");
    case DateLike => assert c.Sql() == "date LIKE " + "?"; OneMark("date LIKE ");
    case TextSearch => SearchMarks();
  }

  lemma TwoMarks(a: string, b: string, e: string)
    requires '?' !in a && '?' !in b && '?' !in e
    ensures Count('?', a + "?" + b + "?" + e) == 2
  {
    CountConcat('?', a + "?" + b + "?", e);
    CountConcat('?', a + "?" + b, "?");
    CountConcat('?', a + "?", b);
    OneMark(a);
    CountAbsent('?', b);
    CountAbsent('?', e);
    CountOne('?');
  }

  lemma SearchMarks()
    ensures Count('?', TextSearch.Sql()) == 2
  {
    assert TextSearch.Sql() == "(question LIKE " + "?" + " OR answer LIKE " + "?" + ")";
    TwoMarks("(question LIKE ", " OR answer LIKE ", ")");
  }

  /** A query parameter: text, or the integer `int(stars)` gives. */
  datatype Param = TextParam(s: string) | IntParam(n: int)

  /** One condition on a row, given the parameters bound to its `?`s;
      `None` when the parameters do not fit it. */
  function EvalCondition(c: Condition, ps: seq<Param>, r: Row<CardBody>): Option<bool>
  {
    if |ps| != c.Arity() then None
    else match (c, ps[0])
      case (SubjectIs, TextParam(s)) => Some(r.body.subject == s)
      case (TopicIs, TextParam(s)) => Some(r.body.topic == s)
      case (StarsIs, IntParam(n)) => Some(r.stars == n)
      case (DateBefore, TextParam(d)) => Some(Less(r.date.text, d))
      case (DateAfter, TextParam(d)) => Some(Less(d, r.date.text))
      case (DateLike, TextParam(p)) => Some(Like(r.date.text, p))
      case (TextSearch, TextParam(a)) =>
        (match ps[1]
         case TextParam(b) => Some(Like(r.body.question, a) || Like(r.body.answer, b))
         case IntParam(_) => None)
      case _ => None
  }

  function Arities(conds: seq<Condition>): nat
  {
    if conds == [] then 0 else conds[0].Arity() + Arities(conds[1..])
  }

  /** `cond1 AND cond2 AND ...` on a row, the `?`s bound to `params` from
      left to right; `None` where SQLite would reject the binding. */
  function EvalWhere(conds: seq<Condition>, ps: seq<Param>, r: Row<CardBody>): Option<bool>
  {
    if conds == [] then (if ps == [] then Some(true) else None)
    else
      var a := conds[0].Arity();
      if |ps| < a then None
      else
        var head := EvalCondition(conds[0], ps[..a], r);
        var rest := EvalWhere(conds[1..], ps[a..], r);
        if head.Some? && rest.Some? then Some(head.value && rest.value) else None
  }

  /** Appending one condition and its parameters conjoins it. */
  lemma {:induction false} EvalWhereSnoc(conds: seq<Condition>, ps: seq<Param>, c: Condition, qs: seq<Param>, r: Row<CardBody>)
    requires |ps| == Arities(conds) && |qs| == c.Arity()
    ensures var w, e := EvalWhere(conds, ps, r), EvalCondition(c, qs, r);
      EvalWhere(conds + [c], ps + qs, r) == if w.Some? && e.Some? then Some(w.value && e.value) else None
  {
    if conds == [] {
      assert conds + [c] == [c];
      assert ps + qs == qs;
      assert qs[..c.Arity()] == qs && qs[c.Arity()..] == [];
    } else {
      var a := conds[0].Arity();
      assert (conds + [c])[0] == conds[0] && (conds + [c])[1..] == conds[1..] + [c];
      assert (ps + qs)[..a] == ps[..a] && (ps + qs)[a..] == ps[a..] + qs;
      EvalWhereSnoc(conds[1..], ps[a..], c, qs, r);
    }
  }

  function SqlTexts(conds: seq<Condition>): (r: seq<string>)
    ensures |r| == |conds| && forall i :: 0 <= i < |conds| ==> r[i] == conds[i].Sql()
  {
    if conds == [] then [] else [conds[0].Sql()] + SqlTexts(conds[1..])
  }

  /** `' WHERE ' + ' AND '.join(conditions)` when there are conditions. */
  function WhereClause(conds: seq<Condition>): (w: string)
    ensures w == "" <==> conds == []
  {
    if conds == [] then "" else " WHERE " + Join(SqlTexts(conds), " AND ")
  }

  lemma {:induction false} SumPlaceholders(conds: seq<Condition>)
    ensures SumCounts('?', SqlTexts(conds)) == Arities(conds)
  {
    if conds != [] {
      SqlPlaceholders(conds[0]);
      assert SqlTexts(conds)[1..] == SqlTexts(conds[1..]);
      SumPlaceholders(conds[1..]);
    }
  }

  /** The clause holds one `?` for each parameter its conditions take. */
  lemma WherePlaceholders(conds: seq<Condition>)
    ensures Count('?', WhereClause(conds)) == Arities(conds)
  {
    SumPlaceholders(conds);
    if conds != [] {
      CountJoin('?', SqlTexts(conds), " AND ");
      CountConcat('?', " WHERE ", Join(SqlTexts(conds), " AND "));
      CountAbsent('?', " WHERE ");
    }
  }

  const TableName: string := "spaced_repetition"
  const SelectCards: string := "SELECT * FROM " + TableName
  const CountCards: string := "SELECT COUNT(*) as count FROM " + TableName
  const CardOrder: string := " ORDER BY date ASC, stars ASC"

  lemma FixedTextsUnmarked()
    ensures Count('?', SelectCards) == 0 && Count('?', CountCards) == 0 && Count('?', CardOrder) == 0
  {
    SelectUnmarked();
    CountUnmarked();
    OrderUnmarked();
  }

  lemma SelectUnmarked()
    ensures Count('?', SelectCards) == 0
  {
    CountAbsent('?', SelectCards);
  }

  lemma CountUnmarked()
    ensures Count('?', CountCards) == 0
  {
    CountAbsent('?', CountCards);
  }

  lemma OrderUnmarked()
    ensures Count('?', CardOrder) == 0
  {
    CountAbsent('?', CardOrder);
  }

  lemma Surrounded(prefix: string, w: string, suffix: string)
    requires Count('?', prefix) == 0 && Count('?', suffix) == 0
    ensures Count('?', prefix + w + suffix) == Count('?', w)
  {
    CountConcat('?', prefix + w, suffix);
    CountConcat('?', prefix, w);
  }

  /** Both statements hold exactly the placeholders of their clause. */
  lemma StatementPlaceholders(conds: seq<Condition>)
    ensures Count('?', SelectCards + WhereClause(conds) + CardOrder) == Arities(conds)
    ensures Count('?', CountCards + WhereClause(conds)) == Arities(conds)
  {
    WherePlaceholders(conds);
    FixedTextsUnmarked();
    Surrounded(SelectCards, WhereClause(conds), CardOrder);
    Surrounded(CountCards, WhereClause(conds), "");
    assert CountCards + WhereClause(conds) + "" == CountCards + WhereClause(conds);
  }

  /** Conditions appear in the order the handler appends them, each at most
      once, and at most one date condition. */
  predicate Ranked(conds: seq<Condition>)
  {
    forall i, j :: 0 <= i < j < |conds| ==> conds[i].Rank() < conds[j].Rank()
  }

  lemma {:induction false} AritiesSnoc(conds: seq<Condition>, c: Condition)
    ensures Arities(conds + [c]) == Arities(conds) + c.Arity()
  {
    if conds != [] {
      assert (conds + [c])[1..] == conds[1..] + [c];
      AritiesSnoc(conds[1..], c);
    } else {
      assert conds + [c] == [c];
    }
  }

  /** Whether the handler appends condition `x` for the query `q`. */
  predicate Selected(q: CardQuery, x: Condition)
  {
    match x
    case SubjectIs => q.subject != ""
    case TopicIs => q.topic != ""
    case StarsIs => StarsFilter(q.stars).Some?
    case DateBefore => DateFilter(q.filterType, q.date) == Some(Before)
    case DateAfter => DateFilter(q.filterType, q.date) == Some(After)
    case DateLike => DateFilter(q.filterType, q.date) == Some(On)
    case TextSearch => q.search != ""
  }

  /** The test of the `k`-th filter section, numbered as `Rank` numbers the
      conditions. */
  predicate Section(q: CardQuery, k: nat, r: Row<CardBody>)
  {
    if k == 0 then SubjectOk(q, r)
    else if k == 1 then TopicOk(q, r)
    else if k == 2 then StarsOk(q, r)
    else if k == 3 then DateOk(q.filterType, q.date, r.date.text)
    else SearchOk(q, r)
  }

  /** The tests of the first `k` sections together. */
  predicate Through(q: CardQuery, k: nat, r: Row<CardBody>)
  {
    forall j :: 0 <= j < k && j < 5 ==> Section(q, j, r)
  }

  /** The state after the first `k` sections: the selected conditions of
      those sections, in order, with parameters that make the clause test
      exactly what those sections test. */
  ghost predicate Built(q: CardQuery, k: nat, conds: seq<Condition>, params: seq<Param>)
  {
    && |params| == Arities(conds) && Ranked(conds)
    && (forall x :: x in conds <==> x.Rank() < k && Selected(q, x))
    && (forall r :: EvalWhere(conds, params, r) == Some(Through(q, k, r)))
  }

  /** A section whose filter is set appends its one selected condition. */
  lemma Grow(q: CardQuery, k: nat, conds: seq<Condition>, params: seq<Param>, c: Condition, qs: seq<Param>)
    requires Built(q, k, conds, params)
    requires c.Rank() == k && Selected(q, c) && |qs| == c.Arity()
    requires forall x: Condition :: x.Rank() == k && Selected(q, x) ==> x == c
    requires forall r :: EvalCondition(c, qs, r) == Some(Section(q, k, r))
    ensures Built(q, k + 1, conds + [c], params + qs)
  {
    var conds' := conds + [c];
    AritiesSnoc(conds, c);
    forall i, j | 0 <= i < j < |conds'| ensures conds'[i].Rank() < conds'[j].Rank() {
      if j == |conds| {
        assert conds'[i] == conds[i] && conds[i] in conds;
      } else {
        assert conds'[i] == conds[i] && conds'[j] == conds[j];
      }
    }
    forall x ensures x in conds' <==> x.Rank() < k + 1 && Selected(q, x) {
      assert x in conds' <==> x in conds || x == c;
    }
    forall r ensures EvalWhere(conds', params + qs, r) == Some(Through(q, k + 1, r)) {
      EvalWhereSnoc(conds, params, c, qs, r);
      ThroughStep(q, k, r);
    }
  }

  lemma ThroughStep(q: CardQuery, k: nat, r: Row<CardBody>)
    requires k < 5
    ensures Through(q, k + 1, r) == (Through(q, k, r) && Section(q, k, r))
  {
    if Through(q, k, r) && Section(q, k, r) {
      forall j | 0 <= j < k + 1 && j < 5 ensures Section(q, j, r) {
        if j < k {
          assert 0 <= j < k && j < 5;
        }
      }
    }
  }

  /** A section whose filter is not set appends nothing and tests nothing. */
  lemma Skip(q: CardQuery, k: nat, conds: seq<Condition>, params: seq<Param>)
    requires Built(q, k, conds, params)
    requires forall x: Condition :: x.Rank() == k ==> !Selected(q, x)
    requires forall r :: Section(q, k, r)
    ensures Built(q, k + 1, conds, params)
  {
  }

  /** A condition list in rank order takes one parameter per condition and
      one more for the text search. */
  lemma {:induction false} RankedArities(conds: seq<Condition>)
    requires Ranked(conds)
    ensures Arities(conds) == |conds| + (if TextSearch in conds then 1 else 0)
  {
    if conds != [] {
      assert Ranked(conds[1..]);
      RankedArities(conds[1..]);
      if conds[0] == TextSearch {
        assert forall i :: 0 <= i < |conds[1..]| ==> conds[1..][i].Rank() > 4;
      }
      assert TextSearch in conds <==> conds[0] == TextSearch || TextSearch in conds[1..];
    }
  }

  /** What each appended condition and its parameters test on a row. */
  lemma SectionTests(q: CardQuery, c: Condition, qs: seq<Param>)
    requires Selected(q, c)
    requires c == SubjectIs ==> qs == [TextParam(q.subject)]
    requires c == TopicIs ==> qs == [TextParam(q.topic)]
    requires c == StarsIs ==> qs == [IntParam(ParseInt(q.stars).value)]
    requires c == DateBefore || c == DateAfter ==> qs == [TextParam(q.date)]
    requires c == DateLike ==> qs == [TextParam(q.date + "%")]
    requires c == TextSearch ==> qs == [TextParam("%" + q.search + "%"), TextParam("%" + q.search + "%")]
    ensures |qs| == c.Arity()
    ensures forall r :: EvalCondition(c, qs, r) == Some(Section(q, c.Rank(), r))
  {
  }

  /** After the five sections the clause tests exactly `Matches` and holds
      exactly the selected conditions. */
  lemma BuiltAll(q: CardQuery, conds: seq<Condition>, params: seq<Param>)
    requires Built(q, 5, conds, params)
    ensures forall r :: EvalWhere(conds, params, r) == Some(Matches(q, r))
    ensures forall x :: x in conds <==> Selected(q, x)
    ensures Ranked(conds)
    ensures |params| == Arities(conds) == |conds| + (if q.search != "" then 1 else 0)
  {
    RankedArities(conds);
    forall r ensures EvalWhere(conds, params, r) == Some(Matches(q, r)) {
      assert Section(q, 0, r) && Section(q, 1, r) && Section(q, 2, r) && Section(q, 3, r) && Section(q, 4, r) <==> Matches(q, r);
    }
    forall x ensures x in conds <==> Selected(q, x) {
      assert x.Rank() < 5;
    }
  }

  /** `if subject:` appends `subject = ?` with the subject. */
  method SubjectSection(q: CardQuery, conds: seq<Condition>, params: seq<Param>) returns (conds': seq<Condition>, params': seq<Param>)
    requires Built(q, 0, conds, params)
    ensures Built(q, 1, conds', params')
  {
    conds', params' := conds, params;
    if q.subject != "" {
      SectionTests(q, SubjectIs, [TextParam(q.subject)]);
      Grow(q, 0, conds, params, SubjectIs, [TextParam(q.subject)]);
      conds', params' := conds' + [SubjectIs], params' + [TextParam(q.subject)];
    } else {
      Skip(q, 0, conds, params);
    }
  }

  /** `if topic:` appends `topic = ?` with the topic. */
  method TopicSection(q: CardQuery, conds: seq<Condition>, params: seq<Param>) returns (conds': seq<Condition>, params': seq<Param>)
    requires Built(q, 1, conds, params)
    ensures Built(q, 2, conds', params')
  {
    conds', params' := conds, params;
    if q.topic != "" {
      SectionTests(q, TopicIs, [TextParam(q.topic)]);
      Grow(q, 1, conds, params, TopicIs, [TextParam(q.topic)]);
      conds', params' := conds' + [TopicIs], params' + [TextParam(q.topic)];
    } else {
      Skip(q, 1, conds, params);
    }
  }

  /** `if stars:` appends `stars = ?` with `int(stars)`; a `ValueError`
      from `int()` is caught and leaves the lists as they were. */
  method StarsSection(q: CardQuery, conds: seq<Condition>, params: seq<Param>) returns (conds': seq<Condition>, params': seq<Param>)
    requires Built(q, 2, conds, params)
    ensures Built(q, 3, conds', params')
  {
    conds', params' := conds, params;
    var stars := if q.stars != "" then ParseInt(q.stars) else None;
    if stars.Some? {
      SectionTests(q, StarsIs, [IntParam(stars.value)]);
      Grow(q, 2, conds, params, StarsIs, [IntParam(stars.value)]);
      params', conds' := params' + [IntParam(stars.value)], conds' + [StarsIs];
    } else {
      Skip(q, 2, conds, params);
    }
  }

  /** The `before` / `after` / `on` chain, each only with a date. */
  method DateSection(q: CardQuery, conds: seq<Condition>, params: seq<Param>) returns (conds': seq<Condition>, params': seq<Param>)
    requires Built(q, 3, conds, params)
    ensures Built(q, 4, conds', params')
  {
    conds', params' := conds, params;
    if q.filterType == "before" && q.date != "" {
      SectionTests(q, DateBefore, [TextParam(q.date)]);
      Grow(q, 3, conds, params, DateBefore, [TextParam(q.date)]);
      conds', params' := conds' + [DateBefore], params' + [TextParam(q.date)];
    } else if q.filterType == "after" && q.date != "" {
      SectionTests(q, DateAfter, [TextParam(q.date)]);
      Grow(q, 3, conds, params, DateAfter, [TextParam(q.date)]);
      conds', params' := conds' + [DateAfter], params' + [TextParam(q.date)];
    } else if q.filterType == "on" && q.date != "" {
      SectionTests(q, DateLike, [TextParam(q.date + "%")]);
      Grow(q, 3, conds, params, DateLike, [TextParam(q.date + "%")]);
      conds', params' := conds' + [DateLike], params' + [TextParam(q.date + "%")];
    } else {
      Skip(q, 3, conds, params);
    }
  }

  /** `if q:` appends the two-sided `LIKE` with `%q%` twice. */
  method SearchSection(q: CardQuery, conds: seq<Condition>, params: seq<Param>) returns (conds': seq<Condition>, params': seq<Param>)
    requires Built(q, 4, conds, params)
    ensures Built(q, 5, conds', params')
  {
    conds', params' := conds, params;
    if q.search != "" {
      var likeQ := "%" + q.search + "%";
      SectionTests(q, TextSearch, [TextParam(likeQ), TextParam(likeQ)]);
      Grow(q, 4, conds, params, TextSearch, [TextParam(likeQ), TextParam(likeQ)]);
      conds', params' := conds' + [TextSearch], params' + [TextParam(likeQ), TextParam(likeQ)];
    } else {
      Skip(q, 4, conds, params);
    }
  }

  /** The filter section of the flashcard page: one condition and its
      parameters per filter that is set, appended in a fixed order. */
  method BuildFilter(q: CardQuery) returns (conds: seq<Condition>, params: seq<Param>)
    ensures forall r :: EvalWhere(conds, params, r) == Some(Matches(q, r))
    ensures forall x :: x in conds <==> Selected(q, x)
    ensures Ranked(conds)
    ensures |params| == Arities(conds) == |conds| + (if q.search != "" then 1 else 0)
  {
    conds, params := [], [];
    assert Built(q, 0, conds, params);
    conds, params := SubjectSection(q, conds, params);
    conds, params := TopicSection(q, conds, params);
    conds, params := StarsSection(q, conds, params);
    conds, params := DateSection(q, conds, params);
    conds, params := SearchSection(q, conds, params);
    BuiltAll(q, conds, params);
  }

  /** The `if conditions:` section: the list statement and the count
      statement get the same clause, and each holds one `?` per parameter
      the conditions take. */
  method Statements(conds: seq<Condition>) returns (query: string, queryCount: string)
    ensures query == SelectCards + WhereClause(conds) + CardOrder
    ensures queryCount == CountCards + WhereClause(conds)
    ensures Count('?', query) == Arities(conds) && Count('?', queryCount) == Arities(conds)
  {
    query, queryCount := SelectCards, CountCards;
    if conds != [] {
      var whereClause := " WHERE " + Join(SqlTexts(conds), " AND ");
      query := query + whereClause;
      queryCount := queryCount + whereClause;
    }
    query := query + CardOrder;
    StatementPlaceholders(conds);
  }
}
