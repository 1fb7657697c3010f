/** Page slicing and the pagination metadata shared by the college routes
    (college-predictor-backend/routes/colleges.js:137-144, 243-252 and
    355-364). */
module Pagination {
  import opened Wrappers
  import opened Js

  /** `list.slice(skip, skip + limit)` with `skip = (page - 1) * limit`. */
  function Page<T>(s: seq<T>, page: int, limit: int): (r: seq<T>)
    ensures page >= 1 && limit > 0 && (page - 1) * limit <= |s| ==>
      r == s[(page - 1) * limit..if page * limit <= |s| then page * limit else |s|]
    ensures page >= 1 && limit > 0 && (page - 1) * limit > |s| ==> r == []
  {
    var skip := (page - 1) * limit;
    Slice(s, skip, skip + limit)
  }

  /** The response fields that describe the page. `totalPages` is `None` when
      `Math.ceil(n / limit)` is not finite (a zero limit gives Infinity, or NaN
      when there are no results), which the JSON response carries as null. */
  datatype PageInfo = PageInfo(currentPage: int, totalPages: Option<int>, total: nat,
                               hasNextPage: bool, hasPrevPage: bool)

  /** `totalPages: Math.ceil(n / limit)`, `hasNextPage: page < totalPages`,
      `hasPrevPage: page > 1`; `page < Infinity` holds and `page < NaN` does
      not. */
  function Info(n: nat, page: int, limit: int): (r: PageInfo)
    ensures r.total == n && r.currentPage == page
    ensures r.totalPages.None? <==> limit == 0
    ensures limit > 0 ==> r.totalPages.value * limit >= n && (r.totalPages.value - 1) * limit < n + (if n == 0 then limit else 0)
    ensures limit < 0 ==> r.totalPages.value <= 0
    ensures r.hasNextPage <==> if limit == 0 then n > 0 else page < r.totalPages.value
    ensures r.hasPrevPage <==> page > 1
  {
    if limit == 0 then PageInfo(page, None, n, n > 0, page > 1)
    else
      var total := CeilDivInt(n, limit);
      PageInfo(page, Some(total), n, page < total, page > 1)
  }

  /** Pages `1..k` laid end to end. */
  function Pages<T>(s: seq<T>, limit: int, k: nat): seq<T>
    requires limit > 0
  {
    if k == 0 then [] else Pages(s, limit, k - 1) + Page(s, k, limit)
  }

  /** Page `k` continues the first `k - 1` pages. */
  lemma {:induction false} PageExtendsPrefix<T>(s: seq<T>, limit: int, k: int)
    requires limit > 0 && k >= 1
    ensures s[..if (k - 1) * limit <= |s| then (k - 1) * limit else |s|] + Page(s, k, limit)
            == s[..if k * limit <= |s| then k * limit else |s|]
  {
    var a := (k - 1) * limit;
    var b := k * limit;
    MulPred(k, limit);
    if a <= |s| {
      var b' := if b <= |s| then b else |s|;
      assert s[..a] + s[a..b'] == s[..b'];
    }
  }

  /** The first `k` pages are the first `k * limit` results. */
  lemma {:induction false} PagesArePrefix<T>(s: seq<T>, limit: int, k: nat)
    requires limit > 0
    ensures Pages(s, limit, k) == s[..if k * limit <= |s| then k * limit else |s|]
  {
    if k > 0 {
      PagesArePrefix(s, limit, k - 1);
      PageExtendsPrefix(s, limit, k);
    }
  }

  /** Concatenating pages `1..totalPages` gives back the whole list. */
  lemma {:induction false} PagesCoverAll<T>(s: seq<T>, limit: int)
    requires limit > 0
    ensures Pages(s, limit, Info(|s|, 1, limit).totalPages.value) == s
  {
    var k := Info(|s|, 1, limit).totalPages.value;
    PagesArePrefix(s, limit, k);
    assert s[..|s|] == s;
  }

  /** For a positive page number, a page has results exactly when the page
      number is at most `totalPages`. */
  lemma {:induction false} PageNonEmptyIff<T>(s: seq<T>, page: int, limit: int)
    requires page >= 1 && limit > 0
    ensures Page(s, page, limit) != [] <==> page <= Info(|s|, page, limit).totalPages.value
  {
    var t := CeilDiv(|s|, limit);
    PageNonEmptyIffSkip(s, page, limit);
    SkipBeforeEndIff(|s|, page, limit, t);
  }

  /** A page has results exactly when it starts before the end. */
  lemma {:induction false} PageNonEmptyIffSkip<T>(s: seq<T>, page: int, limit: int)
    requires page >= 1 && limit > 0
    ensures Page(s, page, limit) != [] <==> (page - 1) * limit < |s|
  {
    MulPred(page, limit);
  }

  /** Page `page` starts before result `n` exactly when it is at most the
      page count `t = ceil(n / limit)`. */
  lemma {:induction false} SkipBeforeEndIff(n: nat, page: int, limit: int, t: int)
    requires page >= 1 && limit > 0
    requires (t - 1) * limit < n <= t * limit || (n == 0 && t == 0)
    ensures (page - 1) * limit < n <==> page <= t
  {
    MulMono(0, page - 1, limit);
    if page <= t {
      MulMono(page - 1, t - 1, limit);
    } else {
      MulMono(t, page - 1, limit);
    }
  }

  /** `hasNextPage` says exactly whether the following page has results. */
  lemma {:induction false} HasNextPageIff<T>(s: seq<T>, page: int, limit: int)
    requires page >= 0 && limit > 0
    ensures Info(|s|, page, limit).hasNextPage <==> Page(s, page + 1, limit) != []
  {
    PageNonEmptyIff(s, page + 1, limit);
  }

  lemma {:induction false} MulPred(k: int, n: int)
    ensures (k - 1) * n == k * n - n
  {
  }

  lemma {:induction false} MulMono(a: int, b: int, c: int)
    requires a <= b && c > 0
    ensures a * c <= b * c
  {
  }
}
