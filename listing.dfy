/** The catalog listing, `GET /` of college-predictor-backend/routes/colleges.js:128-148:
    one window of the catalog in stored order, with the same page metadata as
    the prediction route. */
module Listing {
  import opened Wrappers
  import opened Catalog
  import opened Pagination

  /** `parseInt(q) || d` for a query parameter whose `parseInt` is `q`
      (`None` stands for NaN): NaN and 0 fall back to `d`. */
  function IntOr(q: Option<int>, d: int): (r: int)
    ensures q.Some? && q.value != 0 ==> r == q.value
    ensures q.None? || q.value == 0 ==> r == d
  {
    if q.Some? && q.value != 0 then q.value else d
  }

  /** The documents `find({}).skip(skip).limit(limit)` returns for a
      non-negative skip; a negative limit returns as many documents as its
      absolute value. */
  function Window(catalog: seq<College>, skip: nat, limit: int): (r: seq<College>)
    ensures skip >= |catalog| ==> r == []
    ensures skip < |catalog| ==> r == catalog[skip..if skip + Abs(limit) <= |catalog| then skip + Abs(limit) else |catalog|]
  {
    var a := if skip <= |catalog| then skip else |catalog|;
    var b := if skip + Abs(limit) <= |catalog| then skip + Abs(limit) else |catalog|;
    catalog[a..b]
  }

  function Abs(x: int): nat { if x < 0 then -x else x }

  /** The listing either answers with a window and its metadata, or fails with
      status 500 when the database rejects the query. */
  datatype ListOutcome = Listed(colleges: seq<College>, info: PageInfo) | ServerError

  /** The handler: the page and limit default to 1 and 15, a negative skip is
      rejected by the database, and the metadata counts the whole catalog. */
  function ListColleges(catalog: seq<College>, pageQ: Option<int>, limitQ: Option<int>): (r: ListOutcome)
    ensures r.ServerError? <==> (IntOr(pageQ, 1) - 1) * IntOr(limitQ, 15) < 0
    ensures r.Listed? ==> r.info == Info(|catalog|, IntOr(pageQ, 1), IntOr(limitQ, 15))
  {
    var page := IntOr(pageQ, 1);
    var limit := IntOr(limitQ, 15);
    var skip := (page - 1) * limit;
    if skip < 0 then ServerError
    else Listed(Window(catalog, skip, limit), Info(|catalog|, page, limit))
  }

  /** For a positive page and limit the window is exactly the page the
      prediction route would cut from the same list, so the listing pages
      tile the catalog. */
  lemma {:induction false} ListingIsPage(catalog: seq<College>, pageQ: Option<int>, limitQ: Option<int>)
    requires IntOr(pageQ, 1) >= 1 && IntOr(limitQ, 15) > 0
    ensures ListColleges(catalog, pageQ, limitQ) == Listed(Page(catalog, IntOr(pageQ, 1), IntOr(limitQ, 15)),
                                                         Info(|catalog|, IntOr(pageQ, 1), IntOr(limitQ, 15)))
  {
    var page, limit := IntOr(pageQ, 1), IntOr(limitQ, 15);
    MulPred(page, limit);
    MulNonNeg(page - 1, limit);
  }

  /** Missing or unparsable parameters give the first page of 15. */
  lemma {:induction false} DefaultListing(catalog: seq<College>)
    ensures ListColleges(catalog, None, None) == Listed(catalog[..if 15 <= |catalog| then 15 else |catalog|], Info(|catalog|, 1, 15))
  {
  }

  lemma {:induction false} MulNonNeg(a: int, b: int)
    requires a >= 0 && b >= 0
    ensures a * b >= 0
  {
  }
}
