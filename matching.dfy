/** The prediction route, `POST /predict` of
    college-predictor-backend/routes/colleges.js:151-368: a coarse filter on
    city and college type, a representative cutoff per college, a filter on
    that cutoff, a stable descending sort and a page of the result. */
module Matching {
  import opened Wrappers
  import opened Js
  import opened Text
  import opened Cutoff
  import opened Catalog
  import opened BranchNormalizer
  import opened Ranking
  import opened Pagination

  /** The request body. `page` and `limit` default to 1 and 15 when they are
      left out. */
  datatype PredictRequest = PredictRequest(
    percentile: NumArg,
    branch: Option<string>,
    category: Option<string>,
    city: Option<string>,
    collegeType: Option<string>,
    cutoffRangeMin: NumArg,
    cutoffRangeMax: NumArg,
    page: Option<int>,
    limit: Option<int>)

  function PageOf(req: PredictRequest): int { req.page.GetOr(1) }
  function LimitOf(req: PredictRequest): int { req.limit.GetOr(15) }

  /** Range mode holds the parsed bounds; it is on only when both bounds are
      truthy (colleges.js:157-159). */
  datatype Mode = PercentileMode | RangeMode(min: real, max: real)

  function ModeOf(req: PredictRequest): (m: Mode)
    ensures m.RangeMode? <==> Truthy(req.cutoffRangeMin) && Truthy(req.cutoffRangeMax)
    ensures m.RangeMode? ==> m.min == ParseFloat(req.cutoffRangeMin) && m.max == ParseFloat(req.cutoffRangeMax)
  {
    if Truthy(req.cutoffRangeMin) && Truthy(req.cutoffRangeMax) then
      RangeMode(ParseFloat(req.cutoffRangeMin), ParseFloat(req.cutoffRangeMax))
    else PercentileMode
  }

  /** The database query: a case-insensitive city match when a city is given
      and an exact type match when a type other than "All Types" is given
      (colleges.js:165-172). */
  predicate InQuery(req: PredictRequest, c: College) {
    (TruthyStr(req.city) ==> Contains(Lower(c.location.city), Lower(req.city.value)))
    && (TruthyStr(req.collegeType) && req.collegeType.value != "All Types" ==> c.collegeType == req.collegeType.value)
  }

  function Find(catalog: seq<College>, req: PredictRequest): seq<College> {
    Filter((c: College) => InQuery(req, c), catalog)
  }

  /** `percentile && parseFloat(percentile) >= cutoffValue`. */
  predicate Qualifies(p: NumArg, v: Num) {
    Truthy(p) && AtLeast(ParseFloat(p), v)
  }

  /** The resolved cutoff of `b` for the requested category, or `None` when no
      category is given or the branch has none stored. */
  function BranchCutoff(req: PredictRequest, b: Branch): Option<Num> {
    if TruthyStr(req.category) then Resolve(CutoffFor(b.cutoffs, req.category.value)) else None
  }

  /** One branch of the "Any" scan (colleges.js:184-211). */
  function AnyStep(req: PredictRequest, h: real, b: Branch): real {
    match BranchCutoff(req, b)
    case None => h
    case Some(v) =>
      if ModeOf(req).RangeMode? then (if Exceeds(v, h) then v.r else h)
      else if Qualifies(req.percentile, v) && Exceeds(v, h) then v.r else h
  }

  /** `highestCutoff` after scanning `bs`, starting from -1. */
  function AnyCutoff(req: PredictRequest, bs: seq<Branch>): real {
    if bs == [] then -1.0 else AnyStep(req, AnyCutoff(req, bs[..|bs| - 1]), bs[|bs| - 1])
  }

  /** The two accumulators of the specific-branch scan. */
  datatype Acc = Acc(has: bool, highest: real)

  /** One branch of the specific-branch scan (colleges.js:277-323); the two
      `highestCutoff = 0` assignments overwrite whatever was found before. */
  function SpecificStep(req: PredictRequest, a: Acc, b: Branch): Acc {
    if !TruthyStr(req.category) then Acc(true, 0.0)
    else match BranchCutoff(req, b)
      case None => if ModeOf(req).RangeMode? then a else Acc(true, 0.0)
      case Some(v) =>
        if ModeOf(req).RangeMode? || Qualifies(req.percentile, v) then
          Acc(true, if Exceeds(v, a.highest) then v.r else a.highest)
        else a
  }

  /** `hasMatchingBranch` and `highestCutoff` after scanning `bs`. */
  function SpecificAcc(req: PredictRequest, bs: seq<Branch>): Acc {
    if bs == [] then Acc(false, -1.0) else SpecificStep(req, SpecificAcc(req, bs[..|bs| - 1]), bs[|bs| - 1])
  }

  /** The branches whose normalised name equals `want`, the normalised
      request branch (colleges.js:264-268). */
  function MatchingBranches(want: string, c: College): seq<Branch> {
    Filter((b: Branch) => NormalizeBranchName(Some(b.branchName)) == want, c.branches)
  }

  /** Every college of the query result with its "Any" cutoff
      (colleges.js:180-217). */
  function AnyScored(req: PredictRequest, cs: seq<College>): (r: seq<Scored<College>>)
    ensures |r| == |cs|
  {
    if cs == [] then []
    else
      var c := cs[|cs| - 1];
      AnyScored(req, cs[..|cs| - 1]) + [Scored(c, AnyCutoff(req, c.branches))]
  }

  /** The colleges with a qualifying matching branch and their cutoffs
      (colleges.js:260-332). */
  function SpecificScored(req: PredictRequest, want: string, cs: seq<College>): seq<Scored<College>> {
    if cs == [] then []
    else
      var c := cs[|cs| - 1];
      var a := SpecificAcc(req, MatchingBranches(want, c));
      SpecificScored(req, want, cs[..|cs| - 1]) + (if a.has then [Scored(c, a.highest)] else [])
  }

  /** The cutoff filter: range mode keeps a representative cutoff that is
      neither -1 nor 0 and lies in `[min, max]`; percentile mode drops -1
      (colleges.js:222-234 and 339-350). */
  predicate Keep(m: Mode, x: real) {
    match m
    case RangeMode(lo, hi) => x != -1.0 && x != 0.0 && lo <= x <= hi
    case PercentileMode => x != -1.0
  }

  function KeepFilter(m: Mode): Scored<College> -> bool {
    (s: Scored<College>) => Keep(m, s.cutoff)
  }

  function Items<T>(s: seq<Scored<T>>): (r: seq<T>)
    ensures |r| == |s| && forall i :: 0 <= i < |s| ==> r[i] == s[i].item
  {
    seq(|s|, i requires 0 <= i < |s| => s[i].item)
  }

  /** The ranked records before pagination, in the order each path of the
      handler produces them: "Any" filters then sorts, a specific branch
      sorts then filters. */
  function RankedScored(req: PredictRequest, catalog: seq<College>): seq<Scored<College>> {
    var found := Find(catalog, req);
    if req.branch == Some("Any") then SortDesc(Filter(KeepFilter(ModeOf(req)), AnyScored(req, found)))
    else Filter(KeepFilter(ModeOf(req)), SortDesc(SpecificScored(req, NormalizeBranchName(req.branch), found)))
  }

  /** The response body. */
  datatype PredictResponse = PredictResponse(colleges: seq<College>, info: PageInfo)

  function PredictSpec(req: PredictRequest, catalog: seq<College>): PredictResponse
  {
    var all := Items(RankedScored(req, catalog));
    PredictResponse(Page(all, PageOf(req), LimitOf(req)), Info(|all|, PageOf(req), LimitOf(req)))
  }

  /** The `college.branches.forEach` callback of the "Any" path
      (colleges.js:181-211): `highestCutoff` rises to each larger cutoff that
      counts in the current mode. */
  method ScanAny(req: PredictRequest, college: College) returns (highest: real)
    ensures highest == AnyCutoff(req, college.branches)
  {
    var mode := ModeOf(req);
    highest := -1.0;
    var j := 0;
    while j < |college.branches|
      invariant 0 <= j <= |college.branches|
      invariant highest == AnyCutoff(req, college.branches[..j])
    {
      var b := college.branches[j];
      if TruthyStr(req.category) {
        var cutoff := Resolve(CutoffFor(b.cutoffs, req.category.value));
        if cutoff.Some? {
          var v := cutoff.value;
          if mode.RangeMode? {
            if Exceeds(v, highest) {
              highest := v.r;
            }
          } else if Qualifies(req.percentile, v) && Exceeds(v, highest) {
            highest := v.r;
          }
        }
      }
      assert college.branches[..j + 1][..j] == college.branches[..j];
      j := j + 1;
    }
    assert college.branches[..j] == college.branches;
  }

  /** The `matchingBranches.forEach` callback of the specific-branch path
      (colleges.js:274-323). */
  method ScanMatching(req: PredictRequest, branches: seq<Branch>) returns (hasMatchingBranch: bool, highest: real)
    ensures Acc(hasMatchingBranch, highest) == SpecificAcc(req, branches)
  {
    var mode := ModeOf(req);
    highest := -1.0;
    hasMatchingBranch := false;
    var j := 0;
    while j < |branches|
      invariant 0 <= j <= |branches|
      invariant Acc(hasMatchingBranch, highest) == SpecificAcc(req, branches[..j])
    {
      var b := branches[j];
      if TruthyStr(req.category) {
        var cutoff := Resolve(CutoffFor(b.cutoffs, req.category.value));
        if cutoff.Some? {
          var v := cutoff.value;
          if mode.RangeMode? {
            hasMatchingBranch := true;
            if Exceeds(v, highest) {
              highest := v.r;
            }
          } else if Qualifies(req.percentile, v) {
            hasMatchingBranch := true;
            if Exceeds(v, highest) {
              highest := v.r;
            }
          }
        } else if !mode.RangeMode? {
          hasMatchingBranch := true;
          highest := 0.0;
        }
      } else {
        hasMatchingBranch := true;
        highest := 0.0;
      }
      assert branches[..j + 1][..j] == branches[..j];
      j := j + 1;
    }
    assert branches[..j] == branches;
  }

  /** `allColleges.map(...)` of the "Any" path (colleges.js:178-217). */
  method ScoreAll(req: PredictRequest, allColleges: seq<College>) returns (withCutoff: seq<Scored<College>>)
    ensures withCutoff == AnyScored(req, allColleges)
  {
    withCutoff := [];
    var i := 0;
    while i < |allColleges|
      invariant 0 <= i <= |allColleges|
      invariant withCutoff == AnyScored(req, allColleges[..i])
    {
      var highest := ScanAny(req, allColleges[i]);
      assert allColleges[..i + 1][..i] == allColleges[..i];
      withCutoff := withCutoff + [Scored(allColleges[i], highest)];
      i := i + 1;
    }
    assert allColleges[..i] == allColleges;
  }

  /** One college of the specific-branch path (colleges.js:262-323): the
      branches with the requested normalised name, then their scan; no
      matching branch at all leaves the college out. */
  method ScoreCollege(req: PredictRequest, want: string, college: College) returns (hasMatchingBranch: bool, highest: real)
    ensures Acc(hasMatchingBranch, highest) == SpecificAcc(req, MatchingBranches(want, college))
  {
    var branches := MatchingBranches(want, college);
    if |branches| == 0 {
      return false, -1.0;
    }
    hasMatchingBranch, highest := ScanMatching(req, branches);
  }

  /** `allColleges.forEach(...)` of the specific-branch path
      (colleges.js:260-332). */
  method CollectMatching(req: PredictRequest, want: string, allColleges: seq<College>) returns (matching: seq<Scored<College>>)
    ensures matching == SpecificScored(req, want, allColleges)
  {
    matching := [];
    var i := 0;
    while i < |allColleges|
      invariant 0 <= i <= |allColleges|
      invariant matching == SpecificScored(req, want, allColleges[..i])
    {
      var hasMatchingBranch, highest := ScoreCollege(req, want, allColleges[i]);
      assert allColleges[..i + 1][..i] == allColleges[..i];
      if hasMatchingBranch {
        matching := matching + [Scored(allColleges[i], highest)];
      }
      i := i + 1;
    }
    assert allColleges[..i] == allColleges;
  }

  /** The handler: the query, one of the two scans, the cutoff filter, the
      descending sort and the page. */
  method Predict(catalog: seq<College>, req: PredictRequest) returns (resp: PredictResponse)
    ensures resp == PredictSpec(req, catalog)
  {
    var mode := ModeOf(req);
    var allColleges := Find(catalog, req);
    var ranked: seq<Scored<College>>;
    if req.branch == Some("Any") {
      var withCutoff := ScoreAll(req, allColleges);
      ranked := SortDesc(Filter(KeepFilter(mode), withCutoff));
    } else {
      var normalizedUserBranch := NormalizeBranchName(req.branch);
      var matching := CollectMatching(req, normalizedUserBranch, allColleges);
      ranked := Filter(KeepFilter(mode), SortDesc(matching));
    }
    var colleges := Items(ranked);
    resp := PredictResponse(Page(colleges, PageOf(req), LimitOf(req)), Info(|colleges|, PageOf(req), LimitOf(req)));
  }
}
