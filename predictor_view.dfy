/** The prediction page of college-predictor-frontend/src/pages/CollegePredictor.jsx:
    the form's validation and the request it posts, the branches and cutoffs
    it shows per college, and the set of "already added" keys that decides
    whether an add button sends anything. */
module PredictorView {
  import opened Wrappers
  import opened Js
  import opened Text
  import opened Cutoff
  import opened Catalog
  import opened Matching
  import opened MatchingLaws
  import opened Shortlist

  /** The categories the form offers (CollegePredictor.jsx:72-83). */
  const Categories: seq<string> := ["OPEN", "SC", "ST", "VJ", "NT1", "NT2", "NT3", "OBC", "EWS", "TFWS"]

  /** `getCollegeIdString` (CollegePredictor.jsx:94-111) on a college whose
      `code` and `_id` are `code` and `id` (`None` when undefined): the code
      when it is truthy, otherwise the id when it is truthy, otherwise null
      (`None`). */
  function IdString(code: Option<string>, id: Option<string>): (r: Option<string>)
    ensures r.Some? ==> r.value != ""
  {
    if TruthyStr(code) then code else if TruthyStr(id) then id else None
  }

  /** The id string of a college of the prediction results. */
  function CollegeIdOf(c: College): Option<string> {
    IdString(Some(c.code), Some(c.id))
  }

  /** The id string of a saved entry's college: a raw code is a string,
      whose `code` and `_id` are both undefined. */
  function RefId(ref: CollegeRef): Option<string> {
    match ref
    case Found(s) => IdString(Some(s.code), Some(s.id))
    case RawCode(_) => None
  }

  /** A college given by a non-empty code is named by that code, whatever
      its id; one without a code or id is named by nothing. */
  lemma {:induction false} IdStringPrefersCode(code: string, id: Option<string>)
    ensures code != "" ==> IdString(Some(code), id) == Some(code)
    ensures code == "" && TruthyStr(id) ==> IdString(Some(code), id) == id
    ensures IdString(Some(code), id).None? <==> code == "" && !TruthyStr(id)
  {
  }

  /** The template `${collegeIdStr}-${branch}`; a null id prints as "null". */
  function AddedKey(id: Option<string>, branch: string): string {
    (if id.Some? then id.value else "null") + "-" + branch
  }

  function ItemKey(item: PopulatedEntry): string {
    AddedKey(RefId(item.college), item.branch)
  }

  /** The keys of the saved entries. */
  function KeySet(items: seq<PopulatedEntry>): (r: set<string>)
    ensures forall key :: key in r <==> exists k :: 0 <= k < |items| && ItemKey(items[k]) == key
  {
    if items == [] then {}
    else
      var init := items[..|items| - 1];
      assert forall k :: 0 <= k < |init| ==> init[k] == items[k];
      KeySet(init) + {ItemKey(items[|items| - 1])}
  }

  /** `loadUserCollegeList` (CollegePredictor.jsx:118-130): one key per saved
      entry, gathered into a set. */
  method LoadUserCollegeList(items: seq<PopulatedEntry>) returns (added: set<string>)
    ensures added == KeySet(items)
  {
    added := {};
    for i := 0 to |items|
      invariant added == KeySet(items[..i])
    {
      assert items[..i + 1][..i] == items[..i];
      added := added + {ItemKey(items[i])};
    }
    assert items[..|items|] == items;
  }

  /** A pair the server's list holds, for a catalog college with a code, is
      marked as added once the page has loaded the populated list. */
  lemma {:induction false} StoredPairIsMarked(catalog: seq<College>, s: seq<Entry>, view: seq<PopulatedEntry>, c: College, branch: string)
    requires Shows(catalog, s, view) && c in catalog && c.code != ""
    requires FindIndex(s, c.code, branch) >= 0
    ensures AddedKey(CollegeIdOf(c), branch) in KeySet(view)
  {
    var k := FindIndex(s, c.code, branch);
    assert view[k] == PopulateOne(catalog, s[k]);
    assert ItemKey(view[k]) == AddedKey(CollegeIdOf(c), branch);
  }

  /** The key does not tell pairs apart when a code or a branch name holds
      a hyphen: two different (college, branch) pairs share a key. */
  lemma {:induction false} KeyIsAmbiguous()
    ensures AddedKey(Some("01-2"), "Civil") == AddedKey(Some("01"), "2-Civil")
  {
  }

  /** The body of the add request. */
  datatype AddRequest = AddRequest(collegeId: Option<string>, branch: string, category: string,
                                   cutoffPercentile: Option<Num>)

  /** What a click on "Add to List" does: the request sent, if any, and the
      new set of added keys. */
  datatype AddClick = AddClick(request: Option<AddRequest>, added: set<string>)

  /** `handleAddToList` (CollegePredictor.jsx:192-245): a key already in the
      set sends nothing; otherwise the request goes out, and the key joins
      the set once the server accepts it. */
  function HandleAddToList(added: set<string>, college: College, branchName: string, category: string,
                           cutoff: Option<Num>, accepted: bool): (r: AddClick)
    ensures r.request.None? <==> AddedKey(CollegeIdOf(college), branchName) in added
    ensures r.request.Some? ==> r.request.value.collegeId == CollegeIdOf(college) && r.request.value.branch == branchName
    ensures r.added == if accepted then added + {AddedKey(CollegeIdOf(college), branchName)} else added
  {
    var key := AddedKey(CollegeIdOf(college), branchName);
    if key in added then AddClick(None, added)
    else
      var request := AddRequest(CollegeIdOf(college), branchName, category, cutoff);
      AddClick(Some(request), if accepted then added + {key} else added)
  }

  /** After an accepted add, a second click on the same button sends
      nothing. */
  lemma {:induction false} SecondClickSendsNothing(added: set<string>, college: College, branchName: string, category: string,
                                cutoff: Option<Num>, cutoff': Option<Num>, accepted': bool)
    ensures HandleAddToList(HandleAddToList(added, college, branchName, category, cutoff, true).added,
                            college, branchName, category, cutoff', accepted').request.None?
  {
  }

  /** Starting from the loaded keys, a click the page lets through for a
      catalog college with a code names a college the server finds and a
      pair its list does not hold, so the server appends it; the key the
      page then adds is the key a reload would compute. */
  lemma {:induction false} AddAgreesWithServer(catalog: seq<College>, s: seq<Entry>, view: seq<PopulatedEntry>,
                            c: College, branch: string, category: string, cutoff: Option<Num>,
                            cutoffPercentile: Option<real>, storedCategory: Option<string>, now: int,
                            view': seq<PopulatedEntry>)
    requires Shows(catalog, s, view) && c in catalog && c.code != ""
    requires HandleAddToList(KeySet(view), c, branch, category, cutoff, true).request.Some?
    requires Shows(catalog, s + [NewEntry(s, c.code, branch, cutoffPercentile, storedCategory, now)], view')
    ensures HandleAddToList(KeySet(view), c, branch, category, cutoff, true).request.value.collegeId == Some(c.code)
    ensures FindByCode(catalog, c.code).Some? && FindIndex(s, c.code, branch) == -1
    ensures KeySet(view') == HandleAddToList(KeySet(view), c, branch, category, cutoff, true).added
  {
    IdStringPrefersCode(c.code, Some(c.id));
    if FindIndex(s, c.code, branch) >= 0 {
      StoredPairIsMarked(catalog, s, view, c, branch);
    }
    var n := |s|;
    assert view'[..n] == view by {
      forall k | 0 <= k < n ensures view'[k] == view[k] {
        assert (s + [NewEntry(s, c.code, branch, cutoffPercentile, storedCategory, now)])[k] == s[k];
      }
    }
    assert view' == view'[..n] + [view'[n]];
    assert ItemKey(view'[n]) == AddedKey(CollegeIdOf(c), branch);
  }

  /** The prediction form. The percentile holds what its number input
      holds; the others are the selected or typed strings. */
  datatype PredictorForm = PredictorForm(percentile: NumArg, branch: string, category: string,
                                         city: string, collegeType: string)

  datatype PredictRejection = MissingFields | OutOfRange

  datatype PredictOutcome = Refused(reason: PredictRejection) | Predicting(request: PredictRequest)

  /** The form holds a percentile, a branch and a category. */
  predicate Filled(form: PredictorForm) {
    Truthy(form.percentile) && form.branch != "" && form.category != ""
  }

  /** `handlePredict` (CollegePredictor.jsx:132-184): a missing percentile,
      branch or category is refused first, then a percentile outside
      [0, 100]; otherwise the page posts the parsed percentile, the branch
      and category, the trimmed city and the college type with "All Types"
      sent as "", with the page asked for and a limit of 15. */
  function HandlePredict(form: PredictorForm, page: int): (r: PredictOutcome)
    ensures r == Refused(MissingFields) <==> !Filled(form)
    ensures r == Refused(OutOfRange) <==> Filled(form) && !(0.0 <= ParseFloat(form.percentile) <= 100.0)
    ensures r.Predicting? ==> r.request.branch == Some(form.branch) && r.request.category == Some(form.category)
  {
    if !Filled(form) then Refused(MissingFields)
    else if ParseFloat(form.percentile) < 0.0 || ParseFloat(form.percentile) > 100.0 then Refused(OutOfRange)
    else
      Predicting(PredictRequest(Number(ParseFloat(form.percentile)), Some(form.branch), Some(form.category),
                                Some(Trim(form.city)),
                                Some(if form.collegeType == "All Types" then "" else form.collegeType),
                                Undefined, Undefined, Some(page), Some(15)))
  }

  /** What the server makes of a request the page sends: percentile mode
      with a percentile in [0, 100], the page asked for and 15 per page; a
      college passes the database query exactly when its city contains the
      trimmed city typed (ignoring case) and, unless "All Types" or no type
      is chosen, its type is the chosen one. */
  lemma {:induction false} PredictRequestOnServer(form: PredictorForm, page: int, c: College)
    requires HandlePredict(form, page).Predicting?
    ensures var req := HandlePredict(form, page).request;
      !ModeOf(req).RangeMode? && PageOf(req) == page && LimitOf(req) == 15 &&
      req.percentile.Number? && 0.0 <= req.percentile.num <= 100.0 &&
      (InQuery(req, c) <==>
        (Trim(form.city) != "" ==> Contains(Lower(c.location.city), Lower(Trim(form.city)))) &&
        (form.collegeType != "All Types" && form.collegeType != "" ==> c.collegeType == form.collegeType))
  {
  }

  /** A percentile typed as "0" passes the page's checks, but the number 0
      it posts is falsy on the server, which then treats the percentile as
      missing: for "Any" branch the result is empty. */
  lemma {:induction false} ZeroPercentileReadsAsMissing(form: PredictorForm, page: int, catalog: seq<College>)
    requires form.percentile == NumericText(0.0) && form.branch == "Any" && form.category != ""
    ensures HandlePredict(form, page).Predicting?
    ensures !Truthy(HandlePredict(form, page).request.percentile)
    ensures RankedScored(HandlePredict(form, page).request, catalog) == []
  {
    AnyWithoutCutoffsIsEmpty(HandlePredict(form, page).request, catalog);
  }

  /** `getCutoffForCategory` (CollegePredictor.jsx:247-256): the cutoff
      stored under the category as given (not upper-cased); `None` for an
      absent one, the `$numberDouble` then the `$numberInt` of a wrapper
      object, and `parseFloat` of anything else, which is NaN for an object
      with neither tag and for unparsable text. */
  function GetCutoffForCategory(b: Branch, category: string): (r: Option<Num>)
    ensures r.None? <==> category !in b.cutoffs || b.cutoffs[category].Missing?
  {
    if category !in b.cutoffs then None
    else match b.cutoffs[category]
      case Missing => None
      case Plain(v) => Some(Fin(v))
      case Unparsable => Some(NaN)
      case Tagged(dbl, intg) =>
        if dbl.Some? then Some(Fin(dbl.value))
        else if intg.Some? then Some(Fin(intg.value as real))
        else Some(NaN)
  }

  /** Every category the form offers is its own upper-case spelling. */
  lemma {:induction false} CategoriesAreUpper()
    ensures forall c :: c in Categories ==> Upper(c) == c
  {
    forall c | c in Categories ensures Upper(c) == c {
      assert forall i :: 0 <= i < |c| ==> !IsLower(c[i]);
    }
  }

  /** For an upper-case category the page shows the value the server
      resolves, except for a wrapper object with neither tag, which the page
      shows as NaN and the server counts as 0. */
  lemma {:induction false} CutoffAgreesWithServer(b: Branch, category: string)
    requires Upper(category) == category
    ensures category in b.cutoffs && b.cutoffs[category] == Tagged(None, None) ==>
      GetCutoffForCategory(b, category) == Some(NaN) && Resolve(CutoffFor(b.cutoffs, category)) == Some(Fin(0.0))
    ensures !(category in b.cutoffs && b.cutoffs[category] == Tagged(None, None)) ==>
      GetCutoffForCategory(b, category) == Resolve(CutoffFor(b.cutoffs, category))
  {
  }

  /** The page's branch test: after lower-casing and trimming, the names
      are equal or one includes the other. */
  predicate SelectionMatches(branchName: string, selection: string) {
    var n := Trim(Lower(branchName));
    var u := Trim(Lower(selection));
    n == u || Contains(n, u) || Contains(u, n)
  }

  /** `getMatchingBranches` (CollegePredictor.jsx:258-272). */
  function GetMatchingBranches(college: College, selection: string): (r: seq<Branch>)
    ensures |r| <= |college.branches|
    ensures selection == "Any" ==> r == college.branches
  {
    if selection == "Any" then college.branches
    else Filter((b: Branch) => SelectionMatches(b.branchName, selection), college.branches)
  }

  /** The page shows a college's branches that match the selection, and
      only those. */
  lemma {:induction false} MatchingBranchesMembers(college: College, selection: string)
    ensures forall b :: b in GetMatchingBranches(college, selection) <==>
      b in college.branches && (selection == "Any" || SelectionMatches(b.branchName, selection))
  {
    FilterMembers((b: Branch) => SelectionMatches(b.branchName, selection), college.branches);
  }

  /** A selection of white space only passes the page's "filled" check and
      shows every branch: its trimmed form is included in every name. */
  lemma {:induction false} BlankSelectionShowsAll(college: College, selection: string)
    requires selection != [] && forall i :: 0 <= i < |selection| ==> IsSpace(selection[i])
    ensures GetMatchingBranches(college, selection) == college.branches
  {
    var u := Lower(selection);
    assert forall i :: 0 <= i < |u| ==> IsSpace(u[i]);
    TrimEmptyIffBlank(u);
    forall b | b in college.branches ensures SelectionMatches(b.branchName, selection) {
      ContainsEmpty(Trim(Lower(b.branchName)));
    }
    FilterAll((b: Branch) => SelectionMatches(b.branchName, selection), college.branches);
  }
}
