/** What the prediction route of college-predictor-backend/routes/colleges.js
    guarantees about its result: which colleges are kept, with which
    representative cutoff, in which order, and how the result moves when the
    percentile rises. */
module MatchingLaws {
  import opened Wrappers
  import opened Js
  import opened Cutoff
  import opened Catalog
  import opened BranchNormalizer
  import opened Ranking
  import opened Matching

  /** Branch `b` takes part in the "Any" scan with cutoff `v`: its cutoff is
      present and finite, and in percentile mode the percentile reaches it
      (colleges.js:199-210). */
  predicate AnyCounts(req: PredictRequest, b: Branch, v: real) {
    BranchCutoff(req, b) == Some(Fin(v)) && (ModeOf(req).RangeMode? || Qualifies(req.percentile, Fin(v)))
  }

  /** The "Any" cutoff of a college is -1 or the largest cutoff that counts,
      and it is never below a cutoff that counts. */
  lemma {:induction false} AnyCutoffIsMax(req: PredictRequest, bs: seq<Branch>)
    ensures AnyCutoff(req, bs) >= -1.0
    ensures forall b, v :: b in bs && AnyCounts(req, b, v) ==> AnyCutoff(req, bs) >= v
    ensures AnyCutoff(req, bs) == -1.0 || exists b :: b in bs && AnyCounts(req, b, AnyCutoff(req, bs))
  {
    if bs != [] {
      var init, last := bs[..|bs| - 1], bs[|bs| - 1];
      assert bs == init + [last];
      AnyCutoffIsMax(req, init);
      var h := AnyCutoff(req, init);
      var r := AnyCutoff(req, bs);
      assert r == AnyStep(req, h, last);
      forall b, v | b in bs && AnyCounts(req, b, v)
        ensures r >= v
      {
        if b !in init {
          assert b == last;
        }
      }
      if r != -1.0 {
        if r == h {
          var b :| b in init && AnyCounts(req, b, h);
          assert b in bs;
        } else {
          assert AnyCounts(req, last, r);
        }
      }
    }
  }

  /** Branch `b` qualifies in the specific-branch scan
      (colleges.js:277-323): no category is given, or the cutoff is absent
      outside range mode, or it is present and either range mode is on or the
      percentile reaches it. */
  predicate SpecificQualifies(req: PredictRequest, b: Branch) {
    !TruthyStr(req.category) ||
    match BranchCutoff(req, b)
    case None => !ModeOf(req).RangeMode?
    case Some(v) => ModeOf(req).RangeMode? || Qualifies(req.percentile, v)
  }

  /** One step of the specific-branch scan sets `hasMatchingBranch` exactly
      when the branch qualifies, and keeps `highestCutoff` at least -1. */
  lemma {:induction false} SpecificStepFacts(req: PredictRequest, a: Acc, b: Branch)
    ensures SpecificStep(req, a, b).has <==> a.has || SpecificQualifies(req, b)
    ensures a.highest >= -1.0 ==> SpecificStep(req, a, b).highest >= -1.0
  {
  }

  /** `hasMatchingBranch` ends true exactly when some branch qualifies, and
      `highestCutoff` never drops below its starting -1. */
  lemma {:induction false} SpecificHasIff(req: PredictRequest, bs: seq<Branch>)
    ensures SpecificAcc(req, bs).has <==> exists b :: b in bs && SpecificQualifies(req, b)
    ensures SpecificAcc(req, bs).highest >= -1.0
  {
    if bs != [] {
      var init, last := bs[..|bs| - 1], bs[|bs| - 1];
      assert bs == init + [last];
      SpecificHasIff(req, init);
      SpecificStepFacts(req, SpecificAcc(req, init), last);
      assert forall b :: b in bs <==> b in init || b == last;
    }
  }

  /** The representative cutoff of the specific-branch scan depends on the
      order of the branches: a qualifying cutoff `v > 0` followed by a branch
      with no cutoff ends at 0 (the assignment of colleges.js:321), while the
      reverse order ends at `v`. */
  lemma {:induction false} SpecificOrderMatters(req: PredictRequest, b1: Branch, b2: Branch, v: real)
    requires TruthyStr(req.category) && !ModeOf(req).RangeMode?
    requires BranchCutoff(req, b1) == Some(Fin(v)) && Qualifies(req.percentile, Fin(v)) && v > 0.0
    requires BranchCutoff(req, b2) == None
    ensures SpecificAcc(req, [b1, b2]) == Acc(true, 0.0)
    ensures SpecificAcc(req, [b2, b1]) == Acc(true, v)
  {
    assert [b1, b2][..1] == [b1] && [b2, b1][..1] == [b2];
    assert [b1][..0] == [] && [b2][..0] == [];
  }

  /** Membership in the "Any" records: one per college of the query result. */
  lemma {:induction false} AnyScoredMembers(req: PredictRequest, cs: seq<College>)
    ensures forall x :: x in AnyScored(req, cs) <==> exists c :: c in cs && x == Scored(c, AnyCutoff(req, c.branches))
  {
    if cs != [] {
      var init := cs[..|cs| - 1];
      assert cs == init + [cs[|cs| - 1]];
      AnyScoredMembers(req, init);
    }
  }

  /** Membership in the specific-branch records: a college of the query
      result whose matching branches end the scan with `hasMatchingBranch`. */
  lemma {:induction false} SpecificScoredMembers(req: PredictRequest, want: string, cs: seq<College>)
    ensures forall x :: x in SpecificScored(req, want, cs) <==>
      exists c :: c in cs && SpecificAcc(req, MatchingBranches(want, c)).has
                  && x == Scored(c, SpecificAcc(req, MatchingBranches(want, c)).highest)
  {
    if cs != [] {
      var init := cs[..|cs| - 1];
      assert cs == init + [cs[|cs| - 1]];
      SpecificScoredMembers(req, want, init);
    }
  }

  /** The records a request ranks, before the cutoff filter. */
  function Candidates(req: PredictRequest, catalog: seq<College>): seq<Scored<College>> {
    var found := Find(catalog, req);
    if req.branch == Some("Any") then AnyScored(req, found)
    else SpecificScored(req, NormalizeBranchName(req.branch), found)
  }

  /** Both paths produce the stable descending sort of the kept records,
      although the "Any" path filters first and the specific-branch path
      sorts first; so the result is ordered by representative cutoff,
      highest first. */
  lemma {:induction false} RankedIsSortedFilter(req: PredictRequest, catalog: seq<College>)
    ensures RankedScored(req, catalog) == SortDesc(Filter(KeepFilter(ModeOf(req)), Candidates(req, catalog)))
    ensures SortedDesc(RankedScored(req, catalog))
  {
    if req.branch != Some("Any") {
      FilterSortCommute(KeepFilter(ModeOf(req)), Candidates(req, catalog));
    }
  }

  /** A record is ranked exactly when it is a candidate whose cutoff passes
      the mode's filter. */
  lemma {:induction false} RankedMembers(req: PredictRequest, catalog: seq<College>)
    ensures forall x :: x in RankedScored(req, catalog) <==> x in Candidates(req, catalog) && Keep(ModeOf(req), x.cutoff)
  {
    var p, c := KeepFilter(ModeOf(req)), Candidates(req, catalog);
    var f := Filter(p, c);
    RankedIsSortedFilter(req, catalog);
    FilterMembers(p, c);
    assert multiset(SortDesc(f)) == multiset(f);
    forall x ensures x in SortDesc(f) <==> x in f {
      assert x in SortDesc(f) <==> x in multiset(SortDesc(f));
      assert x in f <==> x in multiset(f);
    }
  }

  /** Every ranked college came out of the query (city and type), and in
      specific-branch mode it has a branch whose normalised name equals the
      normalised requested branch and that qualifies. */
  lemma {:induction false} RankedColleges(req: PredictRequest, catalog: seq<College>)
    ensures forall x :: x in RankedScored(req, catalog) ==> x.item in catalog && InQuery(req, x.item)
    ensures req.branch != Some("Any") ==>
      forall x :: x in RankedScored(req, catalog) ==>
        exists b :: b in x.item.branches && SpecificQualifies(req, b)
                    && NormalizeBranchName(Some(b.branchName)) == NormalizeBranchName(req.branch)
  {
    RankedMembers(req, catalog);
    var found := Find(catalog, req);
    FilterMembers((c: College) => InQuery(req, c), catalog);
    var want := NormalizeBranchName(req.branch);
    if req.branch == Some("Any") {
      AnyScoredMembers(req, found);
    } else {
      SpecificScoredMembers(req, want, found);
      forall x | x in RankedScored(req, catalog)
        ensures exists b :: b in x.item.branches && SpecificQualifies(req, b)
                            && NormalizeBranchName(Some(b.branchName)) == want
      {
        var c :| c in found && SpecificAcc(req, MatchingBranches(want, c)).has
                 && x == Scored(c, SpecificAcc(req, MatchingBranches(want, c)).highest);
        var p := (b: Branch) => NormalizeBranchName(Some(b.branchName)) == want;
        SpecificHasIff(req, MatchingBranches(want, c));
        FilterMembers(p, c.branches);
        var b :| b in MatchingBranches(want, c) && SpecificQualifies(req, b);
        assert b in c.branches && p(b);
      }
    }
  }

  /** "Any" with no category, or in percentile mode with a falsy percentile,
      returns no college: every representative cutoff stays -1. */
  lemma {:induction false} AnyWithoutCutoffsIsEmpty(req: PredictRequest, catalog: seq<College>)
    requires req.branch == Some("Any")
    requires !TruthyStr(req.category) || (!ModeOf(req).RangeMode? && !Truthy(req.percentile))
    ensures RankedScored(req, catalog) == []
  {
    var found := Find(catalog, req);
    AnyScoredMembers(req, found);
    forall x | x in AnyScored(req, found)
      ensures !KeepFilter(ModeOf(req))(x)
    {
      var c :| c in found && x == Scored(c, AnyCutoff(req, c.branches));
      AnyCutoffIsMax(req, c.branches);
    }
    FilterNone(KeepFilter(ModeOf(req)), AnyScored(req, found));
  }

  /** A cutoff range whose lower bound exceeds its upper bound returns no
      college, and no error. */
  lemma {:induction false} InvertedRangeIsEmpty(req: PredictRequest, catalog: seq<College>)
    requires ModeOf(req).RangeMode? && ModeOf(req).min > ModeOf(req).max
    ensures RankedScored(req, catalog) == []
  {
    RankedIsSortedFilter(req, catalog);
    FilterNone(KeepFilter(ModeOf(req)), Candidates(req, catalog));
  }

  /** Raising the percentile never lowers a college's "Any" cutoff. */
  lemma {:induction false} AnyCutoffMonotone(req1: PredictRequest, req2: PredictRequest, bs: seq<Branch>)
    requires req2 == req1.(percentile := req2.percentile)
    requires Truthy(req1.percentile) ==> Truthy(req2.percentile) && ParseFloat(req1.percentile) <= ParseFloat(req2.percentile)
    ensures AnyCutoff(req1, bs) <= AnyCutoff(req2, bs)
  {
    if bs != [] {
      AnyCutoffMonotone(req1, req2, bs[..|bs| - 1]);
    }
  }

  /** Raising the percentile keeps every qualifying branch qualifying and
      never lowers the specific-branch cutoff. */
  lemma {:induction false} SpecificAccMonotone(req1: PredictRequest, req2: PredictRequest, bs: seq<Branch>)
    requires req2 == req1.(percentile := req2.percentile)
    requires Truthy(req1.percentile) ==> Truthy(req2.percentile) && ParseFloat(req1.percentile) <= ParseFloat(req2.percentile)
    ensures SpecificAcc(req1, bs).has ==> SpecificAcc(req2, bs).has
    ensures SpecificAcc(req1, bs).highest <= SpecificAcc(req2, bs).highest
  {
    if bs != [] {
      SpecificAccMonotone(req1, req2, bs[..|bs| - 1]);
    }
  }

  /** A college is in `Items(s)` exactly when some record of `s` holds it. */
  lemma {:induction false} ItemsMembers<T>(s: seq<Scored<T>>, c: T)
    ensures c in Items(s) <==> exists x :: x in s && x.item == c
  {
    if c in Items(s) {
      var i :| 0 <= i < |s| && Items(s)[i] == c;
      assert s[i] in s;
    }
    if exists x :: x in s && x.item == c {
      var x :| x in s && x.item == c;
      var i :| 0 <= i < |s| && s[i] == x;
      assert Items(s)[i] == c;
    }
  }

  /** The "Any" record of a kept college stays kept at a higher percentile. */
  lemma {:induction false} AnyCandidateMonotone(req1: PredictRequest, req2: PredictRequest, found: seq<College>, x: Scored<College>)
    requires req2 == req1.(percentile := req2.percentile)
    requires !ModeOf(req1).RangeMode?
    requires Truthy(req1.percentile) ==> Truthy(req2.percentile) && ParseFloat(req1.percentile) <= ParseFloat(req2.percentile)
    requires x in AnyScored(req1, found) && Keep(PercentileMode, x.cutoff)
    ensures Scored(x.item, AnyCutoff(req2, x.item.branches)) in AnyScored(req2, found)
    ensures Keep(PercentileMode, AnyCutoff(req2, x.item.branches))
  {
    AnyScoredMembers(req1, found);
    AnyScoredMembers(req2, found);
    var c :| c in found && x == Scored(c, AnyCutoff(req1, c.branches));
    AnyCutoffIsMax(req1, c.branches);
    AnyCutoffMonotone(req1, req2, c.branches);
  }

  /** The specific-branch record of a kept college stays kept at a higher
      percentile. */
  lemma {:induction false} SpecificCandidateMonotone(req1: PredictRequest, req2: PredictRequest, want: string, found: seq<College>, x: Scored<College>)
    requires req2 == req1.(percentile := req2.percentile)
    requires !ModeOf(req1).RangeMode?
    requires Truthy(req1.percentile) ==> Truthy(req2.percentile) && ParseFloat(req1.percentile) <= ParseFloat(req2.percentile)
    requires x in SpecificScored(req1, want, found) && Keep(PercentileMode, x.cutoff)
    ensures Scored(x.item, SpecificAcc(req2, MatchingBranches(want, x.item)).highest) in SpecificScored(req2, want, found)
    ensures Keep(PercentileMode, SpecificAcc(req2, MatchingBranches(want, x.item)).highest)
  {
    SpecificScoredMembers(req1, want, found);
    SpecificScoredMembers(req2, want, found);
    var c :| c in found && SpecificAcc(req1, MatchingBranches(want, c)).has
             && x == Scored(c, SpecificAcc(req1, MatchingBranches(want, c)).highest);
    SpecificHasIff(req1, MatchingBranches(want, c));
    SpecificAccMonotone(req1, req2, MatchingBranches(want, c));
  }

  /** In percentile mode, raising the percentile never removes a college from
      the unpaginated result, whatever the catalog, branch and category. */
  lemma {:induction false} PercentileMonotone(req1: PredictRequest, req2: PredictRequest, catalog: seq<College>)
    requires req2 == req1.(percentile := req2.percentile)
    requires !ModeOf(req1).RangeMode?
    requires Truthy(req1.percentile) ==> Truthy(req2.percentile) && ParseFloat(req1.percentile) <= ParseFloat(req2.percentile)
    ensures forall c :: c in Items(RankedScored(req1, catalog)) ==> c in Items(RankedScored(req2, catalog))
  {
    var r1, r2 := RankedScored(req1, catalog), RankedScored(req2, catalog);
    RankedMembers(req1, catalog);
    RankedMembers(req2, catalog);
    FilterAgree((c: College) => InQuery(req1, c), (c: College) => InQuery(req2, c), catalog);
    var found := Find(catalog, req1);
    assert Find(catalog, req2) == found;
    forall c | c in Items(r1)
      ensures c in Items(r2)
    {
      ItemsMembers(r1, c);
      var x :| x in r1 && x.item == c;
      var y: Scored<College>;
      if req1.branch == Some("Any") {
        AnyCandidateMonotone(req1, req2, found, x);
        y := Scored(c, AnyCutoff(req2, c.branches));
      } else {
        var want := NormalizeBranchName(req1.branch);
        SpecificCandidateMonotone(req1, req2, want, found, x);
        y := Scored(c, SpecificAcc(req2, MatchingBranches(want, c)).highest);
      }
      assert y in r2;
      ItemsMembers(r2, c);
    }
  }
}
