/**
 * Page arithmetic shared by the notes list (twenty rows a page, through
 * `LIMIT ? OFFSET ?`) and the flashcard list (one card a page, through a
 * Python slice), and the First / Previous / Next / Last links both render.
 */
module Pagination {

  const NotesPerPage: nat := 20
  const CardsPerPage: nat := 1

  function Min(a: int, b: int): int
  {
    if a <= b then a else b
  }

  /** `(page - 1) * per_page`. */
  function Offset(page: int, perPage: nat): int
  {
    (page - 1) * perPage
  }

  /** `(total + per_page - 1) // per_page`: the least number of pages that
      hold `total` rows. There is no minimum of one page: an empty list has
      zero pages. */
  function TotalPages(total: nat, perPage: nat): (n: nat)
    requires perPage >= 1
    ensures n * perPage >= total
    ensures n > 0 ==> (n - 1) * perPage < total
    ensures total == 0 <==> n == 0
  {
    var n := (total + perPage - 1) / perPage;
    assert total + perPage - 1 == n * perPage + (total + perPage - 1) % perPage;
    assert (n - 1) * perPage == n * perPage - perPage;
    n
  }

  /** `rows[offset:offset + count]` for a non-negative offset, which is also
      what `LIMIT count OFFSET offset` returns. */
  function PageSlice<T>(s: seq<T>, offset: nat, count: nat): (r: seq<T>)
    ensures |r| == if offset >= |s| then 0 else Min(count, |s| - offset)
    ensures forall i :: 0 <= i < |r| ==> r[i] == s[offset + i]
  {
    if offset >= |s| then [] else s[offset..Min(offset + count, |s|)]
  }

  lemma MulMonotone(x: int, y: int, c: nat)
    requires x <= y
    ensures x * c <= y * c
  {
    assert y * c - x * c == (y - x) * c;
  }

  /** Every page from the first to the last holds at least one and at most
      `perPage` rows; a page past the last is empty. */
  lemma PageBounds<T>(s: seq<T>, perPage: nat, page: int)
    requires perPage >= 1 && page >= 1
    ensures page <= TotalPages(|s|, perPage) ==> 1 <= |PageSlice(s, Offset(page, perPage), perPage)| <= perPage
    ensures page > TotalPages(|s|, perPage) ==> PageSlice(s, Offset(page, perPage), perPage) == []
  {
    var n := TotalPages(|s|, perPage);
    var off := Offset(page, perPage);
    if page <= n {
      MulMonotone(page - 1, n - 1, perPage);
      assert off < |s|;
    } else {
      MulMonotone(n, page - 1, perPage);
      assert off >= |s|;
    }
  }

  /** Pages `1..k`, concatenated in order. */
  function Pages<T>(s: seq<T>, perPage: nat, k: nat): seq<T>
  {
    if k == 0 then [] else Pages(s, perPage, k - 1) + PageSlice(s, Offset(k, perPage), perPage)
  }

  /** The rows before `lo`, followed by the page starting at `lo`, are the
      rows before the end of that page. */
  lemma AppendPage<T>(s: seq<T>, lo: nat, perPage: nat)
    ensures s[..Min(lo, |s|)] + PageSlice(s, lo, perPage) == s[..Min(lo + perPage, |s|)]
  {
    if lo < |s| {
      assert PageSlice(s, lo, perPage) == s[lo..Min(lo + perPage, |s|)];
    } else {
      assert PageSlice(s, lo, perPage) == [];
    }
  }

  lemma {:induction false} PagesPrefix<T>(s: seq<T>, perPage: nat, k: nat)
    ensures Pages(s, perPage, k) == s[..Min(k * perPage, |s|)]
  {
    if k > 0 {
      PagesPrefix(s, perPage, k - 1);
      var lo := (k - 1) * perPage;
      assert Offset(k, perPage) == lo;
      assert k * perPage == lo + perPage;
      AppendPage(s, lo, perPage);
    }
  }

  /** The pages from the first to the last, in order, give back the whole
      filtered list: every row lands on exactly one page. */
  lemma PagesPartition<T>(s: seq<T>, perPage: nat)
    requires perPage >= 1
    ensures Pages(s, perPage, TotalPages(|s|, perPage)) == s
  {
    PagesPrefix(s, perPage, TotalPages(|s|, perPage));
  }

  datatype Link = Link(caption: string, page: int)

  /** The navigation links under a list: First and Previous after page one,
      Next and Last before the last page. */
  function Navigation(page: int, totalPages: int): (r: seq<Link>)
    ensures 1 <= page <= totalPages ==> forall l :: l in r ==> 1 <= l.page <= totalPages && l.page != page
    ensures (Link("Previous", page - 1) in r) <==> page > 1
    ensures (Link("Next", page + 1) in r) <==> page < totalPages
  {
    (if page > 1 then [Link("First", 1), Link("Previous", page - 1)] else [])
    + (if page < totalPages then [Link("Next", page + 1), Link("Last", totalPages)] else [])
  }
}
