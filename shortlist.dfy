/** The per-user ranked shortlist of college-predictor-backend/routes/collegeList.js,
    entries shaped after college-predictor-backend/models/CollegeList.js:9-33.
    Each user owns one ordered list of (college code, branch) entries whose
    ranks are 1..n in list order. */
module Shortlist {
  import opened Wrappers
  import opened Js
  import opened Catalog
  import opened Sequences

  type UserId = string

  /** One saved entry; `college` is the college code and `addedAt` the
      creation time in milliseconds. */
  datatype Entry = Entry(college: string, branch: string, rank: int,
                         cutoffPercentile: Option<real>, category: Option<string>, addedAt: int)

  /** The (college, branch) pair that identifies an entry. */
  function Key(e: Entry): (string, string) { (e.college, e.branch) }

  /** Entry `e` is the one the handlers look for. */
  predicate Matches(e: Entry, college: string, branch: string) {
    e.college == college && e.branch == branch
  }

  /** `findIndex` of the entry with the given college and branch, or -1. */
  function FindIndex(s: seq<Entry>, college: string, branch: string): (r: int)
    ensures -1 <= r < |s|
    ensures r == -1 <==> forall k :: 0 <= k < |s| ==> !Matches(s[k], college, branch)
    ensures r >= 0 ==> Matches(s[r], college, branch) && forall k :: 0 <= k < r ==> !Matches(s[k], college, branch)
  {
    if s == [] then -1
    else if Matches(s[0], college, branch) then 0
    else
      var r := FindIndex(s[1..], college, branch);
      assert forall k :: 1 <= k < |s| ==> s[k] == s[1..][k - 1];
      if r == -1 then -1 else r + 1
  }

  /** In a list without repeated pairs, `findIndex` of an entry's own pair
      finds that entry. */
  lemma {:induction false} FindIndexOfEntry(s: seq<Entry>, i: nat)
    requires Distinct(Key, s) && i < |s|
    ensures FindIndex(s, s[i].college, s[i].branch) == i
  {
    var f := FindIndex(s, s[i].college, s[i].branch);
    assert Key(s[f]) == Key(s[i]);
  }

  /** Ranks run 1..n in list order. */
  ghost predicate RanksContiguous(s: seq<Entry>) {
    forall k :: 0 <= k < |s| ==> s[k].rank == k + 1
  }

  /** A list the handlers keep: contiguous ranks and no (college, branch)
      pair twice. */
  ghost predicate WellFormed(s: seq<Entry>) {
    RanksContiguous(s) && Distinct(Key, s)
  }

  /** `entry.rank = index + 1` for every entry, as a value. */
  function Renumbered(s: seq<Entry>): (r: seq<Entry>)
    ensures |r| == |s| && RanksContiguous(r)
    ensures forall k :: 0 <= k < |s| ==> Key(r[k]) == Key(s[k])
  {
    seq(|s|, k requires 0 <= k < |s| => s[k].(rank := k + 1))
  }

  /** Renumbering keeps every field but the rank, so a list without
      repeated pairs becomes well formed; a list whose ranks are already
      contiguous is left as it is. */
  lemma {:induction false} RenumberedWellFormed(s: seq<Entry>)
    ensures Distinct(Key, s) ==> WellFormed(Renumbered(s))
    ensures forall k :: 0 <= k < |s| ==> Renumbered(s)[k] == s[k].(rank := k + 1)
    ensures RanksContiguous(s) ==> Renumbered(s) == s
  {
    var r := Renumbered(s);
    if Distinct(Key, s) {
      forall a, b | 0 <= a < b < |r| ensures Key(r[a]) != Key(r[b]) {
        assert Key(s[a]) != Key(s[b]);
      }
    }
  }

  /** The entry an add appends: rank is the old length plus one. */
  function NewEntry(s: seq<Entry>, college: string, branch: string,
                    cutoffPercentile: Option<real>, category: Option<string>, now: int): Entry {
    Entry(college, branch, |s| + 1, cutoffPercentile, category, now)
  }

  /** Appending an entry whose pair is not yet present keeps a list well
      formed. */
  lemma {:induction false} AppendWellFormed(s: seq<Entry>, college: string, branch: string,
                         cutoffPercentile: Option<real>, category: Option<string>, now: int)
    requires WellFormed(s) && FindIndex(s, college, branch) == -1
    ensures WellFormed(s + [NewEntry(s, college, branch, cutoffPercentile, category, now)])
  {
    var t := s + [NewEntry(s, college, branch, cutoffPercentile, category, now)];
    forall a, b | 0 <= a < b < |t| ensures Key(t[a]) != Key(t[b]) {
      if b == |s| {
        assert !Matches(s[a], college, branch);
      }
    }
  }

  /** In a well-formed list the entry found by `findIndex` is the only one
      with its pair, so after removing it none is left. */
  lemma {:induction false} RemoveLeavesNone(s: seq<Entry>, college: string, branch: string)
    requires WellFormed(s) && FindIndex(s, college, branch) >= 0
    ensures FindIndex(Renumbered(RemoveAt(s, FindIndex(s, college, branch))), college, branch) == -1
  {
    var i := FindIndex(s, college, branch);
    var r := RemoveAt(s, i);
    forall k | 0 <= k < |r| ensures !Matches(r[k], college, branch) {
      if k >= i {
        assert Key(s[i]) != Key(s[k + 1]);
      }
    }
    var t := Renumbered(r);
    forall k | 0 <= k < |t| ensures !Matches(t[k], college, branch) {
      assert Key(t[k]) == Key(r[k]);
    }
  }

  /** The reorder of a well-formed list: the entry at `i` moves to position
      `j`, the others keep their relative order, and ranks are reset. The
      result is a permutation of the entries up to their ranks and stays
      well formed. */
  lemma {:induction false} ReorderFacts(s: seq<Entry>, i: nat, j: nat)
    requires WellFormed(s) && i < |s| && j < |s|
    ensures WellFormed(Renumbered(Move(s, i, j)))
    ensures Renumbered(Move(s, i, j))[j] == s[i].(rank := j + 1)
    ensures RemoveAt(Move(s, i, j), j) == RemoveAt(s, i)
    ensures multiset(Move(s, i, j)) == multiset(s)
  {
    MoveDistinct(Key, s, i, j);
    MoveLands(s, i, j);
    MovePermutes(s, i, j);
    RenumberedWellFormed(Move(s, i, j));
  }

  /** In a well-formed list the stored rank equals the position plus one,
      so the no-op branch of the reorder is taken exactly when the move
      would leave the list as it is. */
  lemma {:induction false} SameRankIsNoMove(s: seq<Entry>, i: nat, j: nat)
    requires WellFormed(s) && i < |s| && j < |s|
    ensures s[i].rank == j + 1 <==> i == j
    ensures i == j ==> Renumbered(Move(s, i, j)) == s
  {
    if i == j {
      MoveInPlace(s, i);
      RenumberedWellFormed(s);
    }
  }

  /** The college fields a populated entry carries. */
  datatype CollegeSummary = CollegeSummary(id: string, code: string, name: string,
                                           location: Location, collegeType: string)

  /** A populated entry names either the catalog college or, when no college
      has that code, the raw code. */
  datatype CollegeRef = Found(summary: CollegeSummary) | RawCode(code: string)

  datatype PopulatedEntry = PopulatedEntry(college: CollegeRef, branch: string, rank: int,
                                           cutoffPercentile: Option<real>, category: Option<string>,
                                           addedAt: int)

  /** `College.findOne({ code })`: the first catalog college with that code. */
  function FindByCode(catalog: seq<College>, code: string): (r: Option<College>)
    ensures r.Some? ==> r.value in catalog && r.value.code == code
    ensures r.None? <==> forall c :: c in catalog ==> c.code != code
  {
    if catalog == [] then None
    else if catalog[0].code == code then Some(catalog[0])
    else
      assert forall c :: c in catalog ==> c == catalog[0] || c in catalog[1..];
      FindByCode(catalog[1..], code)
  }

  /** One entry as `populateCollegeData` returns it. */
  function PopulateOne(catalog: seq<College>, e: Entry): (p: PopulatedEntry)
    ensures p.branch == e.branch && p.rank == e.rank && p.cutoffPercentile == e.cutoffPercentile
            && p.category == e.category && p.addedAt == e.addedAt
    ensures FindByCode(catalog, e.college).None? <==> p.college == RawCode(e.college)
    ensures p.college.Found? ==> p.college.summary.code == e.college
  {
    var c := FindByCode(catalog, e.college);
    var ref := if c.Some? then Found(CollegeSummary(c.value.id, c.value.code, c.value.name, c.value.location, c.value.collegeType))
               else RawCode(e.college);
    PopulatedEntry(ref, e.branch, e.rank, e.cutoffPercentile, e.category, e.addedAt)
  }

  /** `populateCollegeData` (collegeList.js:9-66): one populated entry per
      saved entry, in list order, each keeping its branch, rank, cutoff,
      category and time; an entry whose code is not in the catalog keeps the
      raw code. */
  method Populate(catalog: seq<College>, entries: seq<Entry>) returns (populated: seq<PopulatedEntry>)
    ensures |populated| == |entries|
    ensures forall k :: 0 <= k < |entries| ==> populated[k] == PopulateOne(catalog, entries[k])
  {
    populated := [];
    if |entries| == 0 {
      return;
    }
    for i := 0 to |entries|
      invariant |populated| == i
      invariant forall k :: 0 <= k < i ==> populated[k] == PopulateOne(catalog, entries[k])
    {
      var entry := entries[i];
      var college := FindByCode(catalog, entry.college);
      if college.Some? {
        var c := college.value;
        populated := populated + [PopulatedEntry(Found(CollegeSummary(c.id, c.code, c.name, c.location, c.collegeType)),
                                                 entry.branch, entry.rank, entry.cutoffPercentile, entry.category, entry.addedAt)];
      } else {
        populated := populated + [PopulatedEntry(RawCode(entry.college), entry.branch, entry.rank,
                                                 entry.cutoffPercentile, entry.category, entry.addedAt)];
      }
    }
  }

  /** `view` is the populated form of `entries`. */
  ghost predicate Shows(catalog: seq<College>, entries: seq<Entry>, view: seq<PopulatedEntry>) {
    |view| == |entries| && forall k :: 0 <= k < |view| ==> view[k] == PopulateOne(catalog, entries[k])
  }

  /** `collegeList.colleges.forEach((entry, index) => entry.rank = index + 1)`. */
  method RenumberRanks(s: seq<Entry>) returns (t: seq<Entry>)
    ensures t == Renumbered(s)
  {
    t := s;
    for i := 0 to |t|
      invariant |t| == |s|
      invariant forall k :: 0 <= k < i ==> t[k] == s[k].(rank := k + 1)
      invariant forall k :: i <= k < |t| ==> t[k] == s[k]
    {
      t := t[i := t[i].(rank := i + 1)];
    }
  }

  /** The list the handlers see for `user`, or `[]` if none is stored. */
  function ListOf(lists: map<UserId, seq<Entry>>, user: UserId): seq<Entry> {
    if user in lists then lists[user] else []
  }

  datatype AddStatus = Added | CollegeNotFound | AlreadyInList
  /** The move of the rank route (collegeList.js:262-290) on a well-formed
      list: the requested rank is clamped into 1..n; when the entry already
      holds it nothing moves, and otherwise the entry is spliced out, spliced
      in at position rank-1, and the ranks are reset. */
  method Reorder(colleges: seq<Entry>, entryIndex: nat, newRank: int) returns (moved: bool, newColleges: seq<Entry>)
    requires WellFormed(colleges) && entryIndex < |colleges|
    ensures var j := Clamp(newRank, 1, |colleges|) - 1;
      (moved <==> entryIndex != j) &&
      (moved ==> newColleges == Renumbered(Move(colleges, entryIndex, j)) && WellFormed(newColleges))
  {
    var oldRank := colleges[entryIndex].rank;
    var actualNewRank := Clamp(newRank, 1, |colleges|);
    SameRankIsNoMove(colleges, entryIndex, actualNewRank - 1);
    if oldRank == actualNewRank {
      return false, colleges;
    }
    ReorderFacts(colleges, entryIndex, actualNewRank - 1);
    newColleges := RemoveAt(colleges, entryIndex);
    newColleges := InsertAt(newColleges, actualNewRank - 1, colleges[entryIndex]);
    newColleges := RenumberRanks(newColleges);
    moved := true;
  }

  /** `ServerFailure` is the 500 of a handler whose body throws. */
  datatype EditStatus = Done | Unchanged | ListNotFound | NotInList | ServerFailure

  /** The rank route moves an entry of `s` (or finds it already in place):
      the id is present and the pair is in the list. */
  predicate RankAccepted(s: seq<Entry>, collegeId: Option<string>, branch: string) {
    collegeId.Some? && FindIndex(s, collegeId.value, branch) >= 0
  }

  /** The stored lists of all users over a fixed catalog. */
  class ShortlistStore {
    var lists: map<UserId, seq<Entry>>
    const catalog: seq<College>

    ghost predicate Valid()
      reads this
    {
      forall u :: u in lists ==> WellFormed(lists[u])
    }

    constructor(catalog: seq<College>)
      ensures this.catalog == catalog && lists == map[] && Valid()
    {
      this.catalog := catalog;
      lists := map[];
    }

    /** `GET /` (collegeList.js:69-102): a user without a list gets an empty
        one, stored; the response is the populated list. */
    method Get(user: UserId) returns (view: seq<PopulatedEntry>)
      requires Valid()
      modifies this
      ensures Valid()
      ensures lists == if user in old(lists) then old(lists) else old(lists)[user := []]
      ensures Shows(catalog, lists[user], view)
    {
      if user !in lists {
        lists := lists[user := []];
      }
      view := Populate(catalog, lists[user]);
    }

    /** `POST /add` (collegeList.js:105-171): an unknown code fails first with
        404, a pair already present then fails with 400, and otherwise the
        entry is appended with the next rank. A list created on the way is
        stored only when the add succeeds. */
    method Add(user: UserId, collegeId: string, branch: string,
               cutoffPercentile: Option<real>, category: Option<string>, now: int)
      returns (status: AddStatus, view: seq<PopulatedEntry>)
      requires Valid()
      modifies this
      ensures Valid()
      ensures FindByCode(catalog, collegeId).None? ==> status == CollegeNotFound && lists == old(lists)
      ensures FindByCode(catalog, collegeId).Some? && FindIndex(ListOf(old(lists), user), collegeId, branch) >= 0 ==>
                status == AlreadyInList && lists == old(lists)
      ensures FindByCode(catalog, collegeId).Some? && FindIndex(ListOf(old(lists), user), collegeId, branch) == -1 ==>
                status == Added &&
                lists == old(lists)[user := ListOf(old(lists), user) +
                                            [NewEntry(ListOf(old(lists), user), collegeId, branch, cutoffPercentile, category, now)]]
      ensures status == Added ==> Shows(catalog, lists[user], view)
    {
      view := [];
      var college := FindByCode(catalog, collegeId);
      if college.None? {
        return CollegeNotFound, view;
      }
      var colleges := ListOf(lists, user);
      if FindIndex(colleges, collegeId, branch) != -1 {
        return AlreadyInList, view;
      }
      var rank := |colleges| + 1;
      AppendWellFormed(colleges, collegeId, branch, cutoffPercentile, category, now);
      colleges := colleges + [Entry(collegeId, branch, rank, cutoffPercentile, category, now)];
      lists := lists[user := colleges];
      status := Added;
      view := Populate(catalog, colleges);
    }

    /** `DELETE /remove/:collegeId/:branch` (collegeList.js:174-216): 404 when
        the user has no list or the pair is not in it; otherwise the first
        matching entry is spliced out, the others keep their order and the
        ranks are reset to 1..n-1. */
    method Remove(user: UserId, collegeId: string, branch: string)
      returns (status: EditStatus, view: seq<PopulatedEntry>)
      requires Valid()
      modifies this
      ensures Valid()
      ensures user !in old(lists) ==> status == ListNotFound && lists == old(lists)
      ensures user in old(lists) && FindIndex(old(lists)[user], collegeId, branch) == -1 ==>
                status == NotInList && lists == old(lists)
      ensures user in old(lists) && FindIndex(old(lists)[user], collegeId, branch) >= 0 ==>
                status == Done &&
                lists == old(lists)[user := Renumbered(RemoveAt(old(lists)[user], FindIndex(old(lists)[user], collegeId, branch)))]
      ensures status == Done ==> Shows(catalog, lists[user], view)
    {
      view := [];
      if user !in lists {
        return ListNotFound, view;
      }
      var colleges := lists[user];
      var entryIndex := FindIndex(colleges, collegeId, branch);
      if entryIndex == -1 {
        return NotInList, view;
      }
      RemoveDistinct(Key, colleges, entryIndex);
      RenumberedWellFormed(RemoveAt(colleges, entryIndex));
      colleges := RemoveAt(colleges, entryIndex);
      colleges := RenumberRanks(colleges);
      lists := lists[user := colleges];
      status := Done;
      view := Populate(catalog, colleges);
    }

    /** `PUT /rank` (collegeList.js:219-308): 404 when the user has no list;
        a missing id (`undefined` in the body) makes `collegeId.toString()`
        throw inside the `findIndex` callback, a 500 as soon as the list has
        an entry to test; 404 when the pair is not in the list; the requested
        rank is clamped into 1..n; when the entry already holds that rank
        nothing changes, and otherwise the entry moves to position rank-1
        and the ranks are reset. */
    method Rank(user: UserId, collegeId: Option<string>, branch: string, newRank: int)
      returns (status: EditStatus, view: seq<PopulatedEntry>)
      requires Valid()
      modifies this
      ensures Valid()
      ensures user !in old(lists) ==> status == ListNotFound && lists == old(lists)
      ensures user in old(lists) && collegeId.None? ==>
                status == (if old(lists)[user] == [] then NotInList else ServerFailure) && lists == old(lists)
      ensures user in old(lists) && collegeId.Some? && FindIndex(old(lists)[user], collegeId.value, branch) == -1 ==>
                status == NotInList && lists == old(lists)
      ensures user in old(lists) && RankAccepted(old(lists)[user], collegeId, branch) ==>
                var s := old(lists)[user];
                var i := FindIndex(s, collegeId.value, branch);
                var j := Clamp(newRank, 1, |s|) - 1;
                (i == j ==> status == Unchanged && lists == old(lists)) &&
                (i != j ==> status == Done && lists == old(lists)[user := Renumbered(Move(s, i, j))])
      ensures status == Done || status == Unchanged ==> Shows(catalog, lists[user], view)
    {
      view := [];
      if user !in lists {
        return ListNotFound, view;
      }
      var colleges := lists[user];
      if collegeId.None? {
        return if colleges == [] then NotInList else ServerFailure, view;
      }
      var entryIndex := FindIndex(colleges, collegeId.value, branch);
      if entryIndex == -1 {
        return NotInList, view;
      }
      var moved, newColleges := Reorder(colleges, entryIndex, newRank);
      if !moved {
        view := Populate(catalog, colleges);
        return Unchanged, view;
      }
      lists := lists[user := newColleges];
      status := Done;
      view := Populate(catalog, newColleges);
    }

    /** `DELETE /clear` (collegeList.js:311-329): 404 when the user has no
        list, otherwise the list becomes empty. */
    method Clear(user: UserId) returns (status: EditStatus)
      requires Valid()
      modifies this
      ensures Valid()
      ensures user !in old(lists) ==> status == ListNotFound && lists == old(lists)
      ensures user in old(lists) ==> status == Done && lists == old(lists)[user := []]
    {
      if user !in lists {
        return ListNotFound;
      }
      lists := lists[user := []];
      status := Done;
    }
  }
}
