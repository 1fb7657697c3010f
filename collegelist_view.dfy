/** The shortlist page of college-predictor-frontend/src/pages/CollegeList.jsx:
    the local copy of the populated list, kept in step with the server after a
    drag, after a removal, and turned into export rows. */
module CollegeListView {
  import opened Wrappers
  import opened Js
  import opened Catalog
  import opened Sequences
  import opened Shortlist

  /** `item.college.code || item.college._id`: a populated college gives its
      code, or its id when the code is empty; a raw code is a string, whose
      `code` and `_id` are both undefined (`None`). */
  function ItemCollegeId(item: PopulatedEntry): (r: Option<string>)
    ensures item.college.RawCode? ==> r.None?
    ensures item.college.Found? && item.college.summary.code != "" ==> r == Some(item.college.summary.code)
  {
    match item.college
    case Found(c) => Some(if c.code != "" then c.code else c.id)
    case RawCode(_) => None
  }

  /** `list.map((item, index) => ({ ...item, rank: index + 1 }))`. */
  function RenumberedItems(s: seq<PopulatedEntry>): (r: seq<PopulatedEntry>)
    ensures |r| == |s|
    ensures forall k :: 0 <= k < |s| ==> r[k] == s[k].(rank := k + 1)
  {
    seq(|s|, k requires 0 <= k < |s| => s[k].(rank := k + 1))
  }

  /** The body of the rank update the page sends: the dragged entry's college
      id, its branch and its new rank. */
  datatype RankRequest = RankRequest(collegeId: Option<string>, branch: string, newRank: int)

  /** What a drag does: the request sent, if any, and the new local list. */
  datatype DragOutcome = DragOutcome(request: Option<RankRequest>, list: seq<PopulatedEntry>)

  /** `handleDragEnd` (CollegeList.jsx:79-147). A drop outside the list or on
      the same position does nothing; otherwise the new rank is the
      destination index plus one, and once the server accepts it the local
      list is the dragged item spliced out and back in at the destination,
      renumbered; when the server refuses, the page shows the list fetched
      again (`refetched`). `accepted` is the server's answer, which
      `RankAccepted` states for the list the server holds. */
  function DragEnd(list: seq<PopulatedEntry>, source: nat, destination: Option<nat>,
                   accepted: bool, refetched: seq<PopulatedEntry>): (r: DragOutcome)
    requires source < |list| && (destination.Some? ==> destination.value < |list|)
    ensures destination.None? || destination.value == source ==> r == DragOutcome(None, list)
    ensures destination.Some? && destination.value != source ==>
      r.request == Some(RankRequest(ItemCollegeId(list[source]), list[source].branch, destination.value + 1))
    ensures destination.Some? && destination.value != source && accepted ==>
      |r.list| == |list| && r.list[destination.value] == list[source].(rank := destination.value + 1)
    ensures destination.Some? && destination.value != source && !accepted ==> r.list == refetched
  {
    if destination.None? || destination.value == source then DragOutcome(None, list)
    else
      var j := destination.value;
      var request := RankRequest(ItemCollegeId(list[source]), list[source].branch, j + 1);
      if accepted then
        MoveLands(list, source, j);
        DragOutcome(Some(request), RenumberedItems(Move(list, source, j)))
      else DragOutcome(Some(request), refetched)
  }

  /** Renumbering commutes with populating: the rank lives outside the
      college reference. */
  lemma {:induction false} PopulateRenumbered(catalog: seq<College>, s: seq<Entry>, view: seq<PopulatedEntry>)
    requires Shows(catalog, s, view)
    ensures Shows(catalog, Renumbered(s), RenumberedItems(view))
  {
    RenumberedWellFormed(s);
  }

  /** Moving commutes with populating. */
  lemma {:induction false} PopulateMoved(catalog: seq<College>, s: seq<Entry>, view: seq<PopulatedEntry>, i: nat, j: nat)
    requires Shows(catalog, s, view) && i < |s| && j < |s|
    ensures Shows(catalog, Move(s, i, j), Move(view, i, j))
  {
    forall k | 0 <= k < |s| ensures Move(view, i, j)[k] == PopulateOne(catalog, Move(s, i, j)[k]) {
      MoveFrom(s, i, j, k);
      MoveFrom(view, i, j, k);
    }
  }

  /** A drag of a college the catalog knows, on a list that shows the
      server's well-formed list, sends a request that the server resolves to
      the same entry and the same position, and the local list it keeps is
      exactly the populated form of the server's reordered list. */
  lemma {:induction false} DragAgreesWithServer(catalog: seq<College>, s: seq<Entry>, view: seq<PopulatedEntry>, i: nat, j: nat)
    requires WellFormed(s) && Shows(catalog, s, view)
    requires i < |s| && j < |s| && i != j
    requires view[i].college.Found? && s[i].college != ""
    ensures DragEnd(view, i, Some(j), true, []).request == Some(RankRequest(Some(s[i].college), s[i].branch, j + 1))
    ensures FindIndex(s, s[i].college, s[i].branch) == i
    ensures Clamp(j + 1, 1, |s|) - 1 == j
    ensures Shows(catalog, Renumbered(Move(s, i, j)), DragEnd(view, i, Some(j), true, []).list)
    ensures RankAccepted(s, Some(s[i].college), s[i].branch)
  {
    FindIndexOfEntry(s, i);
    PopulateMoved(catalog, s, view, i, j);
    PopulateRenumbered(catalog, Move(s, i, j), Move(view, i, j));
  }

  /** A drag of an entry whose college the catalog does not know sends no
      id, which the rank route never accepts (it answers 500, or 404 on an
      empty list), so the page ends up showing the list fetched again. */
  lemma {:induction false} RawCodeDragRefetches(catalog: seq<College>, s: seq<Entry>, view: seq<PopulatedEntry>,
                                                i: nat, j: nat, refetched: seq<PopulatedEntry>)
    requires Shows(catalog, s, view)
    requires i < |s| && j < |s| && i != j
    requires view[i].college.RawCode?
    ensures var req := DragEnd(view, i, Some(j), true, refetched).request.value;
      req.collegeId.None? && !RankAccepted(s, req.collegeId, req.branch) &&
      DragEnd(view, i, Some(j), RankAccepted(s, req.collegeId, req.branch), refetched).list == refetched
  {
    assert ItemCollegeId(view[i]).None?;
  }

  /** `x` is an item of `list` that the removal of (`collegeId`, `branch`)
      does not match. */
  predicate Kept(list: seq<PopulatedEntry>, x: PopulatedEntry, collegeId: string, branch: string) {
    x in list && !(ItemCollegeId(x) == Some(collegeId) && x.branch == branch)
  }

  /** `handleRemoveCollege`'s filter (CollegeList.jsx:47-54): an item
      survives exactly when its college id and branch do not both match, and
      it survives unchanged (ranks are not renumbered). */
  function RemoveLocal(list: seq<PopulatedEntry>, collegeId: string, branch: string): (r: seq<PopulatedEntry>)
    ensures |r| <= |list|
    ensures forall x :: x in r <==> Kept(list, x, collegeId, branch)
  {
    if list == [] then []
    else
      var init, item := list[..|list| - 1], list[|list| - 1];
      assert list == init + [item];
      RemoveLocal(init, collegeId, branch) +
        (if ItemCollegeId(item) == Some(collegeId) && item.branch == branch then [] else [item])
  }

  /** Removing an entry that is not the last from a list with ranks 1..n
      leaves a gap: the item that moves up to the removed position keeps its
      old rank, while the server renumbers it. */
  lemma {:induction false} RemoveLocalLeavesGap(list: seq<PopulatedEntry>, i: nat)
    requires i + 1 < |list|
    requires forall k :: 0 <= k < |list| ==> list[k].rank == k + 1
    requires ItemCollegeId(list[i]).Some?
    requires forall k :: 0 <= k < |list| && k != i ==> Key'(list[k]) != Key'(list[i])
    ensures RemoveLocal(list, ItemCollegeId(list[i]).value, list[i].branch) == RemoveAt(list, i)
    ensures RemoveAt(list, i)[i].rank == i + 2
  {
    RemoveOnly(list, i, |list|);
    assert list[..|list|] == list;
  }

  /** The (college id, branch) pair the page matches on. */
  function Key'(item: PopulatedEntry): (Option<string>, string) { (ItemCollegeId(item), item.branch) }

  lemma {:induction false} RemoveOnly(list: seq<PopulatedEntry>, i: nat, n: nat)
    requires i < n <= |list|
    requires ItemCollegeId(list[i]).Some?
    requires forall k :: 0 <= k < |list| && k != i ==> Key'(list[k]) != Key'(list[i])
    ensures RemoveLocal(list[..n], ItemCollegeId(list[i]).value, list[i].branch) == list[..i] + list[i + 1..n]
  {
    var id, b := ItemCollegeId(list[i]).value, list[i].branch;
    var p := list[..n];
    assert p[..n - 1] == list[..n - 1];
    if n - 1 == i {
      KeepAll(list, i, id, b);
      RemoveLocalLast(p, id, b);
      assert list[i + 1..n] == [];
    } else {
      RemoveOnly(list, i, n - 1);
      assert Key'(list[n - 1]) != Key'(list[i]);
      RemoveLocalLast(p, id, b);
      assert list[..i] + list[i + 1..n] == (list[..i] + list[i + 1..n - 1]) + [list[n - 1]];
    }
  }

  /** One unfolding of the filter at its last item. */
  lemma {:induction false} RemoveLocalLast(list: seq<PopulatedEntry>, id: string, b: string)
    requires list != []
    ensures var last := list[|list| - 1];
      RemoveLocal(list, id, b) == RemoveLocal(list[..|list| - 1], id, b) +
        (if ItemCollegeId(last) == Some(id) && last.branch == b then [] else [last])
  {
  }

  lemma {:induction false} KeepAll(list: seq<PopulatedEntry>, n: nat, id: string, b: string)
    requires n <= |list|
    requires forall k :: 0 <= k < n ==> !(ItemCollegeId(list[k]) == Some(id) && list[k].branch == b)
    ensures RemoveLocal(list[..n], id, b) == list[..n]
  {
    if n > 0 {
      assert list[..n][..n - 1] == list[..n - 1];
      KeepAll(list, n - 1, id, b);
      assert list[..n] == list[..n - 1] + [list[n - 1]];
    }
  }

  /** One row of the export. `None` stands for the "N/A" text and, for the
      name and type, for a missing value; the cutoff is left as a number
      (its two-decimal formatting is not modelled). */
  datatype ExportRow = ExportRow(rank: int, collegeName: Option<string>, branch: string,
                                 city: string, state: string, collegeType: Option<string>,
                                 category: Option<string>, cutoffPercentile: Option<real>)

  function ExportRowOf(item: PopulatedEntry, index: nat): ExportRow {
    match item.college
    case Found(c) =>
      ExportRow(index + 1, Some(c.name), item.branch,
                if c.location.city != "" then c.location.city else "N/A",
                if c.location.state != "" then c.location.state else "N/A",
                Some(c.collegeType), item.category, item.cutoffPercentile)
    case RawCode(_) =>
      ExportRow(index + 1, None, item.branch, "N/A", "N/A", None, item.category, item.cutoffPercentile)
  }

  /** `prepareExportData` (CollegeList.jsx:150-161): one row per entry in
      list order, ranked by position. */
  function ExportRows(list: seq<PopulatedEntry>): (r: seq<ExportRow>)
    ensures |r| == |list|
    ensures forall k :: 0 <= k < |list| ==> r[k].rank == k + 1 && r[k].branch == list[k].branch
    ensures forall k :: 0 <= k < |list| ==> r[k].category == list[k].category && r[k].cutoffPercentile == list[k].cutoffPercentile
    ensures forall k :: 0 <= k < |list| && list[k].college.Found? ==>
      var c := list[k].college.summary;
      r[k].collegeName == Some(c.name) && r[k].collegeType == Some(c.collegeType) &&
      r[k].city == (if c.location.city != "" then c.location.city else "N/A") &&
      r[k].state == (if c.location.state != "" then c.location.state else "N/A")
    ensures forall k :: 0 <= k < |list| && list[k].college.RawCode? ==>
      r[k].collegeName.None? && r[k].collegeType.None? && r[k].city == "N/A" && r[k].state == "N/A"
  {
    seq(|list|, k requires 0 <= k < |list| => ExportRowOf(list[k], k))
  }

  /** On the server's well-formed list the exported rank is the stored
      rank. */
  lemma {:induction false} ExportRankIsStoredRank(catalog: seq<College>, s: seq<Entry>, view: seq<PopulatedEntry>)
    requires WellFormed(s) && Shows(catalog, s, view)
    ensures forall k :: 0 <= k < |view| ==> ExportRows(view)[k].rank == view[k].rank
  {
  }
}
