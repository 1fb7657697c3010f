/** The results page of college-predictor-frontend/src/pages/Results.jsx: the
    client-side cutoff display and eligibility test, the "already added"
    lookup, the search form's validation, the branches shown per college and
    the pagination controls. */
module ResultsView {
  import opened Wrappers
  import opened Js
  import opened Text
  import opened Cutoff
  import opened Catalog
  import opened Matching
  import opened MatchingLaws
  import opened Shortlist

  /** What `getCutoffValue` shows: the "N/A" text, or a number (its
      two-decimal formatting is not modelled). */
  datatype Display = NotAvailable | Value(n: Num)

  /** `getCutoffValue` (Results.jsx:387-402). */
  function GetCutoffValue(cutoffs: map<string, RawCutoff>, category: Option<string>): (r: Display)
    ensures !TruthyStr(category) ==> r.NotAvailable?
  {
    if !TruthyStr(category) then NotAvailable
    else match CutoffFor(cutoffs, category.value)
      case Missing => NotAvailable
      case Plain(v) => Value(Fin(v))
      case Unparsable => Value(NaN)
      case Tagged(dbl, intg) =>
        if dbl.Some? then Value(Fin(dbl.value))
        else if intg.Some? then Value(Fin(intg.value as real))
        else NotAvailable
  }

  /** The page shows "N/A" exactly when no category is chosen, the cutoff is
      absent, or it is a wrapper object with neither tag; otherwise it shows
      the value the server resolves. The two disagree only on the untagged
      object, which the server counts as 0. */
  lemma {:induction false} CutoffValueAgreesWithServer(cutoffs: map<string, RawCutoff>, category: Option<string>)
    ensures GetCutoffValue(cutoffs, category).NotAvailable? <==>
      !TruthyStr(category) || CutoffFor(cutoffs, category.value) == Missing
      || CutoffFor(cutoffs, category.value) == Tagged(None, None)
    ensures GetCutoffValue(cutoffs, category).Value? ==>
      Resolve(CutoffFor(cutoffs, category.value)) == Some(GetCutoffValue(cutoffs, category).n)
  {
  }

  /** `isBranchMatching` (Results.jsx:405-423): without a percentile or a
      category every branch matches, and so does a branch without a cutoff;
      otherwise the percentile must reach the resolved cutoff, an untagged
      object counting as 0. */
  predicate IsBranchMatching(b: Branch, percentile: NumArg, category: Option<string>) {
    if !Truthy(percentile) || !TruthyStr(category) then true
    else match Resolve(CutoffFor(b.cutoffs, category.value))
      case None => true
      case Some(v) => AtLeast(ParseFloat(percentile), v)
  }

  /** With a percentile given, the page's test is the server's qualification
      test of the specific-branch scan in percentile mode. */
  lemma {:induction false} BranchMatchingAgreesWithServer(req: PredictRequest, b: Branch)
    requires !ModeOf(req).RangeMode? && Truthy(req.percentile)
    ensures IsBranchMatching(b, req.percentile, req.category) <==> SpecificQualifies(req, b)
  {
  }

  /** Without a percentile the page accepts a branch whose cutoff the server
      would reject. */
  lemma {:induction false} BranchMatchingLenientWithoutPercentile(req: PredictRequest, b: Branch)
    requires !ModeOf(req).RangeMode? && !Truthy(req.percentile) && TruthyStr(req.category)
    requires Resolve(CutoffFor(b.cutoffs, req.category.value)).Some?
    ensures IsBranchMatching(b, req.percentile, req.category) && !SpecificQualifies(req, b)
  {
  }

  /** The code `isAlreadyAdded` reads from a saved entry: the populated
      college's code when it is truthy, the raw code when it is a non-empty
      string, and undefined otherwise. */
  function SavedCode(e: PopulatedEntry): (r: Option<string>)
    ensures r.Some? ==> r.value != ""
  {
    match e.college
    case Found(c) => if c.code != "" then Some(c.code) else None
    case RawCode(c) => if c != "" then Some(c) else None
  }

  /** `isAlreadyAdded` (Results.jsx:297-327): some saved entry has the
      college's code and the branch. `code` is `college.code`, `None` when
      it is undefined (and then matches an entry whose code is undefined,
      as `===` does). */
  function IsAlreadyAdded(saved: seq<PopulatedEntry>, code: Option<string>, branchName: string): (r: bool)
    ensures saved == [] ==> !r
    ensures r <==> exists k :: 0 <= k < |saved| && SavedCode(saved[k]) == code && saved[k].branch == branchName
  {
    if saved == [] then false
    else
      var init := saved[..|saved| - 1];
      var last := saved[|saved| - 1];
      assert forall k :: 0 <= k < |init| ==> init[k] == saved[k];
      IsAlreadyAdded(init, code, branchName) || (SavedCode(last) == code && last.branch == branchName)
  }

  /** On the server's populated list, the page reports a college and branch
      as added exactly when the server's list holds that pair. */
  lemma {:induction false} AlreadyAddedIffStored(catalog: seq<College>, s: seq<Entry>, view: seq<PopulatedEntry>, code: string, branchName: string)
    requires Shows(catalog, s, view) && code != ""
    ensures IsAlreadyAdded(view, Some(code), branchName) <==> FindIndex(s, code, branchName) >= 0
  {
    forall k | 0 <= k < |view|
      ensures SavedCode(view[k]) == Some(code) <==> s[k].college == code
    {
      assert view[k] == PopulateOne(catalog, s[k]);
    }
    if FindIndex(s, code, branchName) >= 0 {
      var k := FindIndex(s, code, branchName);
      assert SavedCode(view[k]) == Some(code) && view[k].branch == branchName;
    }
  }

  /** The editable search form. Text fields are strings; the numeric ones
      hold what their inputs hold. */
  datatype SearchForm = SearchForm(percentile: NumArg, branch: string, category: string, city: string,
                                   collegeType: string, cutoffRangeMin: NumArg, cutoffRangeMax: NumArg)

  datatype FilterMode = PercentileFilter | RangeFilter

  /** `handleFilterModeChange` (Results.jsx:99-115): switching to percentile
      mode blanks the range, switching to range mode blanks the percentile. */
  function FilterModeChange(form: SearchForm, mode: FilterMode): SearchForm {
    if mode.PercentileFilter? then form.(cutoffRangeMin := Blank, cutoffRangeMax := Blank)
    else form.(percentile := Blank)
  }

  /** After a switch to percentile mode the form can only ask the server for
      percentile mode, and after a switch to range mode a percentile search
      is refused until a percentile is entered again. */
  lemma {:induction false} FilterModeChangeClears(form: SearchForm, page: int)
    ensures !ModeOf(RequestOf(FilterModeChange(form, PercentileFilter), page)).RangeMode?
    ensures HandleSearch(PercentileFilter, FilterModeChange(form, RangeFilter)) == Rejected(NeedPercentile)
    ensures FilterModeChange(form, RangeFilter).cutoffRangeMin == form.cutoffRangeMin
    ensures FilterModeChange(form, RangeFilter).cutoffRangeMax == form.cutoffRangeMax
    ensures FilterModeChange(form, PercentileFilter).percentile == form.percentile
  {
  }

  /** Why `handleSearch` refuses to search. */
  datatype SearchRejection = NeedPercentile | NeedBothBounds | MinAboveMax

  datatype SearchOutcome = Rejected(reason: SearchRejection) | Search(data: SearchForm)

  /** `handleSearch` (Results.jsx:209-244): percentile mode needs a
      percentile; range mode needs both bounds with the lower not above the
      upper. The data sent blanks the range in percentile mode and sets the
      percentile to the text "100" in range mode. */
  function HandleSearch(mode: FilterMode, form: SearchForm): (r: SearchOutcome)
    ensures r.Rejected? <==>
      (mode.PercentileFilter? && !Truthy(form.percentile)) ||
      (mode.RangeFilter? && (!Truthy(form.cutoffRangeMin) || !Truthy(form.cutoffRangeMax)
                             || ParseFloat(form.cutoffRangeMin) > ParseFloat(form.cutoffRangeMax)))
    ensures r.Search? && mode.PercentileFilter? ==> r.data == form.(cutoffRangeMin := Blank, cutoffRangeMax := Blank)
    ensures r.Search? && mode.RangeFilter? ==> r.data == form.(percentile := NumericText(100.0))
  {
    if mode.PercentileFilter? && !Truthy(form.percentile) then Rejected(NeedPercentile)
    else if mode.RangeFilter? && (!Truthy(form.cutoffRangeMin) || !Truthy(form.cutoffRangeMax)) then Rejected(NeedBothBounds)
    else if mode.RangeFilter? && ParseFloat(form.cutoffRangeMin) > ParseFloat(form.cutoffRangeMax) then Rejected(MinAboveMax)
    else if mode.PercentileFilter? then Search(form.(cutoffRangeMin := Blank, cutoffRangeMax := Blank))
    else Search(form.(percentile := NumericText(100.0)))
  }

  /** `{ ...searchData, page, limit: 15 }`, the body `predictColleges`
      posts. */
  function RequestOf(data: SearchForm, page: int): PredictRequest {
    PredictRequest(data.percentile, Some(data.branch), Some(data.category), Some(data.city),
                   Some(data.collegeType), data.cutoffRangeMin, data.cutoffRangeMax, Some(page), Some(15))
  }

  /** A search the page lets through puts the server in the mode the page
      is in, with a percentile in percentile mode and an ordered range in
      range mode, so the server's empty answer for an inverted range cannot
      come from this page. */
  lemma {:induction false} SearchSetsServerMode(mode: FilterMode, form: SearchForm, page: int)
    requires HandleSearch(mode, form).Search?
    ensures var req := RequestOf(HandleSearch(mode, form).data, page);
      (mode.PercentileFilter? ==> !ModeOf(req).RangeMode? && Truthy(req.percentile)) &&
      (mode.RangeFilter? ==> ModeOf(req).RangeMode? && ModeOf(req).min <= ModeOf(req).max)
  {
  }

  /** A branch the page shows for a specific selection: its name contains
      the selection, ignoring case, and it passes `isBranchMatching`. */
  predicate Shown(form: SearchForm, b: Branch) {
    Contains(Lower(b.branchName), Lower(form.branch)) &&
    IsBranchMatching(b, form.percentile, Some(form.category))
  }

  /** `branchesToShow` (Results.jsx:658-677). */
  function BranchesToShow(form: SearchForm, college: College): (r: seq<Branch>)
    ensures form.branch == "Any" ==> r == college.branches
    ensures form.branch != "Any" ==> |r| <= 1
    ensures form.branch != "Any" && r != [] ==> r[0] in college.branches && Shown(form, r[0])
    ensures form.branch != "Any" && r == [] ==> forall b :: b in college.branches ==> !Shown(form, b)
  {
    if form.branch == "Any" then college.branches
    else
      var i := FirstIndex((b: Branch) => Shown(form, b), college.branches);
      if i < 0 then [] else [college.branches[i]]
  }

  /** The branch shown for a specific selection is the first one that
      qualifies: no earlier branch does. */
  lemma {:induction false} BranchShownIsFirst(form: SearchForm, college: College)
    requires form.branch != "Any" && BranchesToShow(form, college) != []
    ensures exists k :: 0 <= k < |college.branches| && college.branches[k] == BranchesToShow(form, college)[0]
                        && forall m :: 0 <= m < k ==> !Shown(form, college.branches[m])
  {
    var i := FirstIndex((b: Branch) => Shown(form, b), college.branches);
    assert college.branches[i] == BranchesToShow(form, college)[0];
  }

  /** A college is listed only when it has a branch to show (Results.jsx:680-682). */
  predicate CollegeListed(form: SearchForm, college: College) {
    BranchesToShow(form, college) != []
  }

  /** With "Any" selected a college without branches is hidden; with a
      specific branch a college is listed exactly when one of its branches
      is shown. */
  lemma {:induction false} CollegeListedIff(form: SearchForm, college: College)
    ensures form.branch == "Any" ==> (CollegeListed(form, college) <==> college.branches != [])
    ensures form.branch != "Any" ==> (CollegeListed(form, college) <==> exists b :: b in college.branches && Shown(form, b))
  {
  }

  /** `paginate` (Results.jsx:329-332): the page number must lie in
      `1..(totalPages || 1)`; a missing, null or zero page count counts as
      one page. */
  predicate PaginateAccepts(pageNumber: int, totalPages: Option<int>) {
    var bound := if totalPages.Some? && totalPages.value != 0 then totalPages.value else 1;
    1 <= pageNumber <= bound
  }

  lemma {:induction false} PaginateAcceptsIff(pageNumber: int, totalPages: Option<int>)
    ensures totalPages.Some? && totalPages.value > 0 ==>
      (PaginateAccepts(pageNumber, totalPages) <==> 1 <= pageNumber <= totalPages.value)
    ensures totalPages.None? || totalPages.value == 0 ==> (PaginateAccepts(pageNumber, totalPages) <==> pageNumber == 1)
  {
  }

  /** One slot of the page-number row. */
  datatype Slot = PageButton(page: int, isCurrent: bool) | Ellipsis | Hidden

  /** The slot for page `pageNum` (Results.jsx:844-886). */
  function SlotFor(pageNum: int, current: int, total: int): Slot {
    if pageNum == 1 || pageNum == total || (current - 1 <= pageNum <= current + 1) then
      PageButton(pageNum, pageNum == current)
    else if pageNum == current - 2 || pageNum == current + 2 then Ellipsis
    else Hidden
  }

  /** The row of page slots for pages `1..total`. */
  function PageWindow(current: int, total: nat): (r: seq<Slot>)
    ensures |r| == total
  {
    seq(total, k requires 0 <= k < total => SlotFor(k + 1, current, total))
  }

  /** The row shows page 1, the last page and the pages next to the
      current one as buttons, marks only the current page as current, and
      shows an ellipsis only two pages away from the current one. */
  lemma {:induction false} PageWindowShape(current: int, total: nat)
    ensures forall k :: 0 <= k < total ==>
      (PageWindow(current, total)[k].PageButton? <==>
         k == 0 || k + 1 == total || current - 1 <= k + 1 <= current + 1)
    ensures forall k :: 0 <= k < total && PageWindow(current, total)[k].PageButton? ==>
      PageWindow(current, total)[k].page == k + 1 &&
      (PageWindow(current, total)[k].isCurrent <==> k + 1 == current)
    ensures forall k :: 0 <= k < total && PageWindow(current, total)[k].Ellipsis? ==>
      k + 1 == current - 2 || k + 1 == current + 2
  {
  }

  /** A page that gets no slot at all is neither the first nor the last
      page, and lies more than two pages from the current one. */
  lemma {:induction false} HiddenPagesAreFar(current: int, total: nat, k: nat)
    requires k < total
    requires PageWindow(current, total)[k].Hidden?
    ensures k + 1 < current - 2 || k + 1 > current + 2
    ensures 1 < k + 1 < total
  {
  }
}
