# Spaced-repetition notes and flashcards

A model of the request handlers in `app.py` of SpaceRepititionApp, a small
Flask application. It keeps two SQLite tables: dated notes and dated
flashcards. Each table has a star rating and a date that the user pushes
forward to schedule the next review. The model covers:

- the rows and their in-place updates: create, edit, delete, reschedule by
  a number of days, and rate from 1 to 5 stars;
- the filters of the two list pages. The notes page has a date comparison
  only. The flashcard page has a subject, a topic, a star count, a date
  comparison and a text search, and turns them into a parameterised
  `WHERE` clause one condition at a time (`BuildFilter` and `Statements`);
- pagination: twenty notes a page through `LIMIT ? OFFSET ?`, one card a
  page through a list slice, and the First / Previous / Next / Last links;
- the query string appended to the flashcard page links so that the next
  page keeps the filters, and how the server reads it back;
- the seeding branch that inserts five example cards when the page would
  otherwise show nothing;
- the JSON search endpoint.

A database is a `Handlers.Store` object. It holds two maps from row id to
row and the next free id of each table. The tables are declared
`AUTOINCREMENT`, so an id is never reused. SQL evaluation is modelled by
functions over these maps:

- `Tables.Select` scans the ids in ascending order, keeps the rows a
  condition accepts, and sorts them with a stable insertion sort under the
  `ORDER BY` preorder;
- `Query.EvalWhere` evaluates the built condition list against its
  parameter list, and `Query.BuildFilter` is proved to produce a list that
  accepts exactly the rows `Query.Matches` describes;
- the engine's clock (`CURRENT_TIMESTAMP`, `datetime.now()`) is a stamp
  argument. A `Tables.Clock` value renders a stamp as text in the engine's
  format (`sqlText`) and in Python's `isoformat()` (`isoText`).

The `stars` column is modelled as `app.py` reads and writes it. `database.py`
creates the flashcard table without it; see "Left out".

## Model

| member | source | states |
|---|---|---|
| Handlers.Store.constructor | database.py:23-43 | a new database has both tables empty and both id counters at 1 |
| Handlers.Store.AddNote | app.py:29-36 | a non-empty text becomes one new note under the next id, dated by the clock, with no stars; an empty or missing text changes nothing; the flashcards are untouched and the store stays well-formed |
| Handlers.Store.EditNote | app.py:251-259 | a non-empty text replaces that note's text only; an empty text changes nothing |
| Handlers.Store.DeleteNote | app.py:240-246 | the note with that id is removed and every other row is kept |
| Handlers.Store.RescheduleNote | app.py:328-345 | the note's date moves by the given days, written back in `isoformat()`; a date pushed past 9999-12-31 is the `OverflowError` result and leaves the note as it was; a missing id changes nothing; other rows are untouched |
| Handlers.Store.RateNote | app.py:348-358 | a rating from 1 to 5 is stored on that note; any other rating changes nothing |
| Handlers.NotesListing | app.py:54-74 | the notes the page lists: those that `Query.NoteMatches` accepts, in the order `Query.NoteOrder` picks (defined, no contract) |
| Handlers.Store.Home | app.py:39-78 | an offset past the 64-bit range is the `OverflowError` result; otherwise the page holds at most 20 notes, each in the table and passing the date filter, in the chosen date order; the total counts every passing note; the page count is the fewest 20-row pages that hold them; pages 1 to the page count are non-empty and later pages are empty |
| Handlers.Store.AddCard | app.py:517-529 | a card with all four text fields set is inserted under the next id with no stars; otherwise nothing changes |
| Handlers.Store.EditCard | app.py:397-410 | the four text fields are replaced together, and only when each is set; the date and stars are kept |
| Handlers.Store.DeleteCard | app.py:504-511 | the card with that id is removed and nothing else changes |
| Handlers.Store.RescheduleCard | app.py:361-379 | the card's date moves by the given days, written back in `isoformat()`; a date pushed past 9999-12-31 is the `OverflowError` result and leaves the card as it was; a missing id changes nothing; other rows are untouched |
| Handlers.Store.RateCard | app.py:382-392 | a rating from 1 to 5 is stored on that card; any other rating changes nothing |
| Handlers.Store.SeedCards | app.py:610-614 | the loop inserts the bodies one after the other, each with the next id and its own clock reading, and ends with the id counter moved on by the number of bodies |
| Handlers.Store.InsertCard | app.py:611-614 | one insert of the seeding loop puts the card at the next id, dated in `isoformat()` text |
| Handlers.Store.Practice | app.py:533-625 | a stars value past the 64-bit range is the `OverflowError` result and changes nothing; otherwise the page lists the cards matching every filter, sorted by date then stars, one per page; when the store has no card and no filter is set, the five example cards are inserted first and listed; otherwise the table is left as it was; the total and the page count describe the listing; the returned link text is the encoded filter query |
| Handlers.Store.ReadAll | app.py:617-619 | the unfiltered re-read lists every card in the table |
| Handlers.Store.UnfilteredListing | app.py:617-619 | with no filter set, the filtered listing equals the unfiltered one |
| Handlers.Store.SearchPractice | app.py:996-1010 | an empty term gives no results; otherwise the results are exactly the cards whose question or answer is `LIKE '%term%'` (`%` and `_` in the term being wildcards), each once, sorted by date then stars |
| Handlers.SliceOfListing | app.py:74 | a page cut from a listing keeps its rows' membership, filter and order |
| Text.Like | app.py:576-582 | SQLite's `LIKE`: `%` any run, `_` any one character, ASCII letters matched up to case (defined, no contract) |
| Query.NoteMatches | app.py:57-65 | a note passes when the date filter picks no comparison or the picked one holds of its date text (defined, no contract) |
| Query.NoteOrder | app.py:72 | `sort=desc` lists the latest day first and any other value the earliest |
| Query.Matches | app.py:551-587 | a card passes when each of the five filters that is set holds of it (defined, no contract) |
| Query.DateFilter | app.py:568-576 | `before`, `after` and `on` pick a comparison only when a date is given; any other filter name, `all` included, picks none |
| Query.OnDayIsPrefix | app.py:574-576 | for a date without `%` or `_`, "on this day" (`LIKE 'date%'`) holds exactly when the stored date text starts with the given date, ignoring ASCII case |
| Query.BeforeAfterSplit | app.py:568-573 | no date is both before and after the given date; any other date is one of the two; the given date itself is neither |
| Query.StarsFilter | app.py:560-566 | the stars argument filters only when it is set and parses as an integer, and then on that integer |
| Query.SearchIsSubstring | app.py:579-582 | for a term without `%` or `_`, the search holds exactly when the term occurs in the question or the answer, ignoring ASCII case |
| Query.NoFiltersMatchAll | app.py:551-587 | with every filter unset each card matches |
| Query.SqlPlaceholders | app.py:555-582 | each condition's SQL text has as many `?` as it takes parameters |
| Query.WherePlaceholders | app.py:584-587 | the joined `WHERE` clause has as many `?` as the conditions take parameters together |
| Query.StatementPlaceholders | app.py:584-590 | both the listing and the count statement carry exactly the placeholders of the clause |
| Query.BuiltAll | app.py:551-582 | after the five filter sections, the conditions under their parameters accept exactly the matching cards |
| Query.BuildFilter | app.py:551-582 | the conditions accept exactly the cards `Matches` describes; a condition is present exactly when its filter is selected; they follow the handler's order; there is one parameter per condition, plus one for the two-sided search |
| Query.Statements | app.py:584-587 | the two SQL statements are the fixed texts around the clause and have one `?` per parameter |
| Query.WhereClause | app.py:584-587 | the clause is empty exactly when no condition is present |
| Pagination.Offset | app.py:41 | `(page - 1) * per_page`, as both pages compute it (app.py:41 and 535) (defined, no contract) |
| Pagination.TotalPages | app.py:78 | the page count is the fewest pages that hold every row; no rows gives zero pages |
| Pagination.PageSlice | app.py:622 | the page holds the rows from the offset on, at most one page of them, in their order |
| Pagination.PageBounds | app.py:39-41 | pages 1 to the page count hold between 1 and per-page rows; later pages are empty |
| Pagination.PagesPartition | app.py:533-535 | the pages from 1 to the page count, concatenated, give back the whole list |
| Pagination.Navigation | app.py:120-128 | every link points to a page from 1 to the page count other than the current page; Previous appears exactly after page 1 and Next exactly before the last page |
| Tables.Shift | app.py:336-342 | the new date is the given number of days later, at the same time of day, written in the given format; whether it is in range is `ShiftFits` |
| Tables.Rate | app.py:351-356 | a rating from 1 to 5 on an existing row sets that row's stars only; otherwise the table is unchanged |
| Tables.Reschedule | app.py:370-376 | an existing row's date moves by the days and stays within 0001-01-01 to 9999-12-31; its body and stars are kept; a date that would leave that range, or a missing id, changes nothing |
| Tables.RescheduleTwice | app.py:336-342 | for an in-range date and forward steps, moving it twice is moving it once by the sum whenever that sum lands in range |
| Tables.Replace | app.py:403-410 | the row's body is replaced; its date and stars are kept; a missing id changes nothing |
| Tables.Remove | app.py:508 | exactly the given id leaves the table |
| Tables.AddRow | app.py:522-529 | the new row is added under a fresh id and the table grows by one |
| Tables.RemoveAdded | app.py:243 | deleting the row just added gives back the table before the insert |
| Tables.ScanFacts | app.py:593-594 | the id scan lists table rows in ascending id order and misses none in range |
| Tables.ScanSize | app.py:590 | the scan has one entry per id in range |
| Tables.Keep | app.py:584-587 | the kept rows are exactly the scanned rows the condition accepts |
| Tables.SelectIsListing | app.py:1002-1008 | a `SELECT` lists each accepted row exactly once, as stored, sorted under the `ORDER BY`; its length is the `COUNT(*)` |
| Tables.SelectAllSize | app.py:617-619 | an unfiltered `SELECT` returns one row per table row |
| Tables.SelectCongruent | app.py:590-594 | two conditions that accept the same rows select and count alike |
| Tables.ByDateThenStarsIsPreorder | app.py:593 | ordering by date, then stars, is a total preorder |
| Tables.NoteOrdersArePreorders | app.py:72-73 | both note orders, by calendar day then stars, are total preorders |
| Numerals.ParseIntText | app.py:563 | `int()` reads back the decimal text of every integer `str()` writes, signed or not, that is, of at most 4300 digits |
| Numerals.ParseInt | app.py:563 | `int()` on text: white space around it dropped, one optional sign, then ASCII digits with single underscores between them, at most 4300 digits not counting the underscores; anything else is the `ValueError` case `None` (defined, no contract) |
| Numerals.SeparatorNotStripped | app.py:563 | the ASCII separator `\x1c` is not stripped: `int('\x1c5')` fails |
| Numerals.TooManyDigits | app.py:563 | a run of more than 4300 digits is the `ValueError` case |
| Numerals.DigitLimit | app.py:563 | `int()` refuses 4301 ones and reads 4300 |
| Links.ReadPage | app.py:533 | the page argument read with `type=int`: missing or unreadable, including more than 4300 digits, gives 1 (defined, no contract) |
| Links.ReadQuery | app.py:538-544 | the filter arguments read with their defaults: empty strings, and `all` for the filter type (defined, no contract) |
| Sorting.SortSorted | app.py:593 | the sorted rows are in order |
| Sorting.SortDistinct | app.py:593 | sorting neither duplicates nor merges rows |
| Sorting.Sort | app.py:593 | the sorted rows are a permutation of the input |
| Links.Encode | app.py:636-649 | an encoded value carries no `&`, `#`, `+`, `"`, tab or line break, and a value without reserved characters is left as it is |
| Links.DecodeEncode | app.py:636-649 | decoding an encoded value gives it back |
| Links.ParseEncoded | app.py:636-649 | reading the joined encoded parts gives back the fields in order |
| Links.LinkKeepsFilters | app.py:980-983 | following a page link gives the next page that page number, whenever `str()` can write it, and the same filters, with an empty filter type read as `all` |
| Links.RereadMatches | app.py:641-642 | the query read back selects and matches the same cards as the original |
| Links.ParamsQueryEmpty | app.py:636-649 | the link query is empty exactly when no filter is set and the filter type is `all` or empty |
| Links.BuildParamsQuery | app.py:636-649 | the list built one filter at a time and joined with `&` is the encoded link query |
| Links.ParamsQueryAsWritten | app.py:636-649 | the link query as the handler writes it, each value unencoded (defined, no contract) |
| Links.LinkFields | app.py:636-649 | the filters a link carries, in the handler's order: each set one, and the filter type unless it is `all` (defined, no contract) |
| Links.ParamsQuery | app.py:636-649 | the corrected link query: the link fields joined with `&`, each value percent-encoded (defined, no contract) |
| Links.PageHref | app.py:980-983 | `/practice?page=N`, followed by `&` and the link query when that is not empty (defined, no contract) |
| Links.AsWrittenOnPlainValues | app.py:636-649 | when no value has a reserved character, the query as written equals the encoded one |
| Links.AsWrittenSplitsAmpersand | app.py:636-649 | as written, a subject `a&b` comes back on the next page as `a` |
| Links.AsWrittenLosesRAndD | app.py:636-649 | as written, the subject `R&D` comes back as `R` |
| Seeding.SeedKeys | app.py:610-614 | seeding adds exactly the next ids, one per card |
| Seeding.SeedNewRows | app.py:598-614 | each example card lands at its id with its clock reading and no stars |
| Seeding.SeedSize | app.py:610-614 | seeding grows the table by the number of cards |
| Seeding.SeedWellFormed | app.py:610-614 | seeding keeps the table well-formed and moves the id bound past the new rows |
| Seeding.SeedOnlyIntoEmptyTable | app.py:597 | the corrected guard fires exactly when the table is empty and no filter is set; stars text that `int()` does not read counts as unset |
| Seeding.NoReseed | app.py:597-619 | after seeding, the corrected guard never fires again, whatever the filters |
| Seeding.SeedGuardAsWritten | app.py:597 | the guard as written: nothing listed and no subject, topic, date or search given, stars not consulted (defined, no contract) |
| Seeding.PracticeAsWritten | app.py:597-619 | the table and the listing of the page with the guard as written (defined, no contract) |
| Seeding.SeedGuard | app.py:597 | the corrected guard: the guard as written, and no stars filter applies (defined, no contract) |
| Seeding.Seed | app.py:598-614 | the table after the example cards are inserted one by one at the next ids (defined, no contract) |
| Seeding.Listing | app.py:590-594 | the cards the page lists: those that `Query.Matches` accepts, by date then stars (defined, no contract) |
| Seeding.AsWrittenListsEverything | app.py:597-619 | as written, once the guard fires the table holds its old rows unchanged plus the five example cards, and the page lists all of them, each once, whatever the filters |
| Seeding.AsWrittenSeedsUnderStarsFilter | app.py:597 | as written, a stars filter that no row meets fires the guard, however full the table is |
| Seeding.AsWrittenReseedsSeededTable | app.py:597 | as written, asking for five-star cards right after seeding seeds again |

## Left out

- The HTML pages, markdown rendering and `format_date`: they produce text for the browser and change no state.
- The full SQL engine: each statement is modelled by the functions above. These are an id scan, a condition, the `?` parameters and a stable sort. SQLite promises no order among rows that tie under `ORDER BY`. Ascending id order among ties is the model's own choice, and the contracts claim only the `ORDER BY` order and the membership.
- The clock and the engine's date formats: a stamp is a parameter, and its two renderings are fields of `Tables.Clock`. Time zones and the UTC `CURRENT_TIMESTAMP` are not modelled.
- Form and query parsing by Flask: a missing form field is modelled as the empty string. `request.args` is modelled as a list of decoded fields in which the first occurrence of a key wins.
- Handlers.Store.Home: requires `page >= 1`. A page of 0 or below gives a negative offset, which SQLite and Python slices treat differently.
- Handlers.Store.Practice: requires `page >= 1`, as `Home` does.
- Handlers.Store.Home: the unused `q` argument and the `items` table read are left out. They filter nothing.
- The notes date filter is pasted into the SQL text in double quotes, which is SQL injection. The model treats it as the same text comparison as the flashcard filter's parameter. In the source, `?filter=before&date=2025" OR "1"="1` gives `WHERE date < "2025" OR "1"="1"` and lists every note. A date equal to a column name, such as `date=stars`, is read by SQLite as that column and not as text.
- The `date` columns are declared `TIMESTAMP` (database.py:28, 41), which gives them NUMERIC affinity. A date filter that reads as a number, such as `2026`, is compared as that number. Every text date sorts above a number, so in the source `before` then matches nothing and `after` matches everything, on both pages. The model compares text (`Text.Less`, `Query.DateFilter`). The date inputs of both pages (app.py:221, 932) send `YYYY-MM-DD` text, which does not read as a number.
- Handlers.Store.RescheduleNote: `days` is a `nat`, because the `<int:days>` route converter admits only non-negative values.
- Handlers.Store.Practice: uses the corrected seeding guard and the encoded link query (see "Findings"). The handler as written is modelled on values by `Seeding.PracticeAsWritten` and `Links.ParamsQueryAsWritten`, not as a second method on the store.
- The notes page navigation links carry no filters. Only their page numbers are modelled, by `Pagination.Navigation`.
- Percent-decoding is per character: `%hh` gives the character with that code, and multi-byte UTF-8 sequences are not joined.
- The subject and topic dropdowns (`SELECT DISTINCT`) and other read-only template data are left out.
- `search_practice` is registered after the `app.run` call. Under `python app.py` it is never registered while the server runs; under `flask run` or a WSGI import `app.run` is skipped and the route is served. It is modelled as a route.
- `database.py` (the schema creation script) and `backup_and_restore.py` are not part of this model. The flashcard table that `database.py` creates has no `stars` column; the model gives every row one that starts at 0.
- Query.StarsFilter: `int()` here reads ASCII digits only. Python's `int()` also reads every other Unicode decimal digit, so `?stars=%D9%A5` (Arabic-Indic five) filters on 5 stars in the source but is ignored here. `Query.BuildFilter` and `Links.ReadPage` share this gap.
- Query.StarsFilter: a stars value outside the 64-bit range is read like any other; the `OverflowError` it causes in the statement is the `overflow` result of `Handlers.Store.Practice`. Stars text of more than 4300 digits is the `ValueError` case of `Numerals.ParseInt` and filters nothing, as in the source.
- The HTML attribute the page links sit in is not decoded: `Links.Encode` encodes `"` and `&`, the two characters that matter inside a double-quoted attribute, and `Links.LinkKeepsFilters` covers the query-string layer only. Tab, line feed and carriage return are encoded as well, since a browser drops them from a URL.
- Connections, commits and concurrent requests are left out: each handler is one atomic step on the store.

## Findings

| source | as written | input that shows it | evidently intended | confidence | as-written member | corrected member |
|---|---|---|---|---|---|---|
| app.py:597 | the seeding guard checks that no subject, topic, date or search is given, but not the stars filter | five seeded cards and `?stars=5`: nothing is listed, so the five cards are inserted a second time | seed only when no filter at all is applied, as the comment says; stars text that `int()` does not read applies no filter, so it does not block seeding | not executed | Seeding.AsWrittenReseedsSeededTable | Seeding.SeedOnlyIntoEmptyTable |
| app.py:636-649 | the link query is built as `key=value` with the value unencoded | subject `R&D`: the next page reads subject `R` | the next page keeps the filters | not executed | Links.AsWrittenLosesRAndD | Links.LinkKeepsFilters |
