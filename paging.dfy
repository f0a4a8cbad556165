/** Paged listings as the services build them: `skip = (page - 1) * limit`, `.skip(skip).limit(limit)` over a
    sorted result, and `totalPages = Math.ceil(total / limit)`. */
module Paging {
  import opened Sorting

  /** `skip = (page - 1) * limit`. */
  function Skip(page: int, limit: int): int {
    (page - 1) * limit
  }

  /** `Math.ceil(total / limit)` for a positive limit. */
  function TotalPages(total: nat, limit: nat): nat
    requires limit >= 1
  {
    (total + limit - 1) / limit
  }

  /** `.skip(skip).limit(limit)`: at most `limit` elements starting at position `skip`. */
  function Window<T>(s: seq<T>, skip: nat, limit: nat): (r: seq<T>)
    ensures |r| <= limit
  {
    if skip >= |s| then []
    else if skip + limit <= |s| then s[skip..skip + limit]
    else s[skip..]
  }

  /** A window holds only elements of the listing. */
  lemma WindowWithin<T>(s: seq<T>, skip: nat, limit: nat, x: T)
    requires x in Window(s, skip, limit)
    ensures x in s
  {
  }

  /** A listing that fits in one window is its own first window. */
  lemma WindowWhole<T>(s: seq<T>, limit: nat)
    requires |s| <= limit
    ensures Window(s, 0, limit) == s
  {
    if |s| > 0 {
      assert s[0..] == s;
    }
  }

  lemma MulMono(a: int, b: int, c: nat)
    requires a <= b
    ensures a * c <= b * c
  {
  }

  /** `totalPages` is the ceiling of `total / limit`: the fewest pages of `limit` that hold `total`. */
  lemma TotalPagesIsCeiling(total: nat, limit: nat)
    requires limit >= 1
    ensures (TotalPages(total, limit) - 1) * limit < total <= TotalPages(total, limit) * limit
  {
    var q, m := (total + limit - 1) / limit, (total + limit - 1) % limit;
    assert total + limit - 1 == q * limit + m;
    assert (q - 1) * limit == q * limit - limit;
  }

  /** A slice of a sorted listing is sorted. */
  lemma SortedSlice<T>(s: seq<T>, key: T -> int, lo: nat, hi: nat)
    requires lo <= hi <= |s| && SortedBy(s, key)
    ensures SortedBy(s[lo..hi], key)
  {
    var t := s[lo..hi];
    forall i, j | 0 <= i < j < |t| ensures key(t[i]) <= key(t[j]) {
      assert t[i] == s[lo + i] && t[j] == s[lo + j];
    }
  }

  /** A window of a sorted listing is sorted. */
  lemma WindowSorted<T>(s: seq<T>, key: T -> int, skip: nat, limit: nat)
    requires SortedBy(s, key)
    ensures SortedBy(Window(s, skip, limit), key)
  {
    if skip < |s| {
      SortedSlice(s, key, skip, if skip + limit <= |s| then skip + limit else |s|);
    }
  }

  /** A page is empty exactly when it lies past the last page. */
  lemma WindowEmptyIffPastLast<T>(s: seq<T>, page: int, limit: int)
    requires page >= 1 && limit >= 1
    ensures Window(s, Skip(page, limit), limit) == [] <==> page > TotalPages(|s|, limit)
  {
    var pages := TotalPages(|s|, limit);
    TotalPagesIsCeiling(|s|, limit);
    if page > pages {
      MulMono(pages, page - 1, limit);
    } else {
      MulMono(page - 1, pages - 1, limit);
    }
  }
}
