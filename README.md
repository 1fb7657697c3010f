# College predictor — a Dafny model

This project models the decision logic of a college-admission predictor: an
Express back end over a catalog of engineering colleges and a React front end.

**Matching engine.** `POST /api/colleges/predict` takes a student's
percentile (or a cutoff range), a branch, a category, a city and a college
type, and works out a representative cutoff per college. Along the way it:
- normalises branch names through an ordered substring table;
- resolves raw cutoff values, which may be plain numbers or tagged
  `$numberDouble`/`$numberInt` wrappers.

It then keeps the colleges the student qualifies for, sorts them by
descending cutoff and returns one page. `GET /api/colleges` lists the
catalog page by page.

**Shortlist.** Each user has an ordered list of (college code, branch)
entries with contiguous ranks. It supports get (creating the list on first
read), add, remove, re-rank (clamp and splice) and clear. The list page
repeats the splice-and-renumber locally when an entry is dragged.

**Client pages.** The results page, the prediction page, the contact and
profile forms, the password strength meter and the branch guide each hold
small pure helpers. The model proves these helpers against the server's
behaviour where the two meet.

**Accounts, contact and counselling.** The account routes cover one-time
codes, password rules, verification, reset and login. The contact route
builds a mail from a request. The counselling route keeps a chat-session
store: titles, a history window, error messages and the session
operations.

Each module follows one source file:

| file | module |
|---|---|
| `branch_normalizer.dfy` and `normalizer_examples.dfy` | branch-name normaliser |
| `cutoff.dfy` | cutoff resolver |
| `matching.dfy` and `matching_laws.dfy` | the predict handler and its laws |
| `ranking.dfy` | the descending stable sort |
| `pagination.dfy` and `listing.dfy` | the page arithmetic and `GET /` |
| `shortlist.dfy` | the shortlist routes |
| `sequences.dfy` | the splice helpers the shortlist and its page share |
| `collegelist_view.dfy`, `results_view.dfy`, `predictor_view.dfy`, `contact_view.dfy`, `profile_view.dfy`, `branch_guide.dfy` | the client pages |
| `password.dfy` | the password rule and strength meter |
| `accounts.dfy` | the user routes |
| `contact.dfy` | the contact route |
| `counselling.dfy` | the counselling routes |

Three modules hold shared semantics:
- `js.dfy`: JavaScript truthiness of request fields, `slice` with negative
  indices, `filter`, `findIndex`.
- `text.dfy`: ASCII case mapping, `trim`, `includes`.
- `wrappers.dfy`: `Option`.

Behaviours of `colleges.js` worth knowing:
- The normaliser returns the first table key that occurs in the name, in
  table order. "computer" comes before "computer science", and "cs" occurs
  in "robotics" and "electronics". So "Computer Science and Engineering"
  normalises to "Computer Engineering", and "Electronics Engineering" to
  "Computer Science and Engineering".
- Range mode drops a college whose representative cutoff is exactly 0, as
  well as one with none (-1): the range filter refuses both values before
  it compares with the bounds.
- A wrapper object with neither `$numberDouble` nor `$numberInt` resolves
  to 0.
- With branch "Any" and no category, or with no percentile in percentile
  mode, the result is empty.

## Model

| member | source | states |
|---|---|---|
| BranchNormalizer.FirstMatch | college-predictor-backend/routes/colleges.js:110-125 | no result exactly when no key occurs in the name; otherwise the value of a first-hit key (no earlier key occurs) |
| BranchNormalizer.FirstHitUnique | college-predictor-backend/routes/colleges.js:117-121 | the first hit of the scan is unique |
| BranchNormalizer.FirstMatchAt | college-predictor-backend/routes/colleges.js:117-121 | a first-hit key at index i determines the result |
| BranchNormalizer.FirstMatchAppend | college-predictor-backend/routes/colleges.js:7-108 | scanning a table split in two parts scans the second only when the first has no hit |
| BranchNormalizer.ScanGroupsIsFirstMatch | college-predictor-backend/routes/colleges.js:7-121 | the group-by-group scan equals the first-match scan of the whole concatenated table |
| BranchNormalizer.NormalizeWith | college-predictor-backend/routes/colleges.js:110-111 | a missing or empty name normalises to "Unknown" |
| BranchNormalizer.NormalizeWithSpec | college-predictor-backend/routes/colleges.js:110-125 | for a non-empty name: the value of the first key that occurs in the trimmed lower-case name, and the name exactly as given when none does |
| BranchNormalizer.Group | college-predictor-backend/routes/colleges.js:7-108 | the key/name pairs of `branchMappings` in insertion order; `ScanGroupsIsFirstMatch` makes scanning the groups one after another the first-match scan of the whole table |
| BranchNormalizer.NormalizeBranchName | college-predictor-backend/routes/colleges.js:110-125 | `NormalizeWith` over the table: "Unknown" for a missing or empty name; `NormalizeWithSpec` gives the first key contained in the lower-cased, trimmed name, or the name as given; `ComputerKeyWins` and `CsKeyWins` pin down the two leading keys |
| BranchNormalizer.LookupKeyUnpadded | college-predictor-backend/routes/colleges.js:114 | a name without surrounding white space is looked up by its lower-case form |
| BranchNormalizer.NoLeadingHit | college-predictor-backend/routes/colleges.js:9-13 | none of the first five keys ('computer', 'computer engineering', 'computer science', ...) occurs in a name without a 'p' |
| BranchNormalizer.ComputerKeyWins | college-predictor-backend/routes/colleges.js:9-11 | any name containing "computer" normalises to "Computer Engineering" |
| BranchNormalizer.CsGroupHit | college-predictor-backend/routes/colleges.js:9-15 | in a 'p'-free name containing "cs", the first group's scan returns "Computer Science and Engineering" |
| BranchNormalizer.CsKeyWins | college-predictor-backend/routes/colleges.js:14-15 | any 'p'-free name containing "cs" normalises to "Computer Science and Engineering" |
| NormalizerExamples.ComputerScienceCollapses | college-predictor-backend/routes/colleges.js:9-12 | "Computer Science and Engineering" normalises to "Computer Engineering" |
| NormalizerExamples.RoboticsBecomesComputerScience | college-predictor-backend/routes/colleges.js:106 | "Robotics" normalises to "Computer Science and Engineering", not to the robotics entry |
| NormalizerExamples.ElectronicsBecomesComputerScience | college-predictor-backend/routes/colleges.js:23 | "Electronics Engineering" normalises to "Computer Science and Engineering" |
| NormalizerExamples.NormalizeNotIdempotent | college-predictor-backend/routes/colleges.js:110-125 | normalising twice can change the result: "Robotics" normalises to "Computer Science and Engineering", which normalises to "Computer Engineering" |
| Cutoff.CutoffFor | college-predictor-backend/routes/colleges.js:186 | the cutoff is looked up under the upper-cased category; missing when that key is absent |
| Cutoff.Resolve | college-predictor-backend/routes/colleges.js:187-197 | no value exactly for an absent or null cutoff; NaN exactly for unparsable text |
| Cutoff.PlainAgreesWithDouble | college-predictor-backend/routes/colleges.js:189-196 | a `$numberDouble` wrapper resolves like the plain number it holds, whatever its `$numberInt` |
| Cutoff.DoubleTagWins | college-predictor-backend/routes/colleges.js:189-191 | `$numberDouble` is read before `$numberInt` |
| Cutoff.IntTagWidens | college-predictor-backend/routes/colleges.js:191-193 | a `$numberInt` wrapper resolves like the plain number |
| Cutoff.UntaggedIsZeroNotAbsent | college-predictor-backend/routes/colleges.js:188-194 | a wrapper with neither tag resolves to 0, which differs from an absent cutoff |
| Cutoff.NaNComparesFalse | college-predictor-backend/routes/colleges.js:206 | a NaN cutoff neither qualifies a percentile nor exceeds the running maximum (also at colleges.js:227-230) |
| Matching.ModeOf | college-predictor-backend/routes/colleges.js:157-159 | range mode exactly when both range bounds are truthy, with the parsed bounds |
| Matching.InQuery | college-predictor-backend/routes/colleges.js:161-172 | the database query: a case-insensitive city match when a city is given, an exact type match unless the type is "All Types"; `RankedColleges` shows every ranked college passes it |
| Matching.AnyScored | college-predictor-backend/routes/colleges.js:180-217 | one scored entry per college of the query result |
| Matching.Items | college-predictor-backend/routes/colleges.js:240 | the colleges of the scored entries, in order |
| Matching.AnyCutoff | college-predictor-backend/routes/colleges.js:181-211 | the "Any" cutoff of a college; `AnyCutoffIsMax` proves it is the largest counting cutoff, floored at -1, and `AnyCutoffMonotone` that it rises with the percentile |
| Matching.SpecificAcc | college-predictor-backend/routes/colleges.js:274-323 | `hasMatchingBranch` and `highestCutoff` after the loop; `SpecificHasIff` proves the flag is set exactly when some branch qualifies, and `SpecificOrderMatters` that a later branch without a cutoff resets the maximum to 0 |
| Matching.Keep | college-predictor-backend/routes/colleges.js:222-234 | range mode keeps a cutoff that is neither -1 nor 0 and lies within the bounds, percentile mode drops only -1 (also at colleges.js:339-350); `RankedMembers` shows it decides the ranked list |
| Matching.RankedScored | college-predictor-backend/routes/colleges.js:175-352 | the ranked entries before pagination, "Any" filtering then sorting and a specific branch sorting then filtering; `RankedIsSortedFilter` proves both orders give the sorted filter of the candidates |
| Matching.PredictSpec | college-predictor-backend/routes/colleges.js:151-368 | the response: the requested page of the ranked colleges and its page info; `Predict` is proved to return it and `PercentileMonotone` shows a higher percentile only adds colleges |
| Matching.ScanAny | college-predictor-backend/routes/colleges.js:181-211 | the `forEach` loop over a college's branches ends with the "Any" cutoff of the fold `AnyCutoff` |
| Matching.ScanMatching | college-predictor-backend/routes/colleges.js:274-323 | the loop over the matching branches ends with the accumulator `SpecificAcc` |
| Matching.ScoreAll | college-predictor-backend/routes/colleges.js:178-217 | the map over the query result builds `AnyScored` |
| Matching.ScoreCollege | college-predictor-backend/routes/colleges.js:262-323 | one college of the specific-branch path: filter its branches by normalised name, then scan them |
| Matching.CollectMatching | college-predictor-backend/routes/colleges.js:260-332 | the push loop builds `SpecificScored` |
| Matching.Predict | college-predictor-backend/routes/colleges.js:151-368 | the handler returns the page of the ranked, filtered list and its page info (`PredictSpec`) |
| MatchingLaws.AnyCutoffIsMax | college-predictor-backend/routes/colleges.js:199-210 | the "Any" cutoff is at least -1, at least every counting branch cutoff, and either -1 or the cutoff of a counting branch |
| MatchingLaws.SpecificStepFacts | college-predictor-backend/routes/colleges.js:277-323 | one step sets `hasMatchingBranch` exactly when the branch qualifies, and keeps the maximum at least -1 |
| MatchingLaws.SpecificHasIff | college-predictor-backend/routes/colleges.js:277-323 | `hasMatchingBranch` holds exactly when some matching branch qualifies |
| MatchingLaws.SpecificOrderMatters | college-predictor-backend/routes/colleges.js:311-322 | the specific-branch result depends on branch order: a later branch without a cutoff resets the maximum to 0 |
| MatchingLaws.AnyScoredMembers | college-predictor-backend/routes/colleges.js:180-217 | the scored entries are exactly the colleges paired with their "Any" cutoffs |
| MatchingLaws.SpecificScoredMembers | college-predictor-backend/routes/colleges.js:260-332 | the scored entries are exactly the colleges with a qualifying matching branch, paired with their maxima |
| MatchingLaws.RankedIsSortedFilter | college-predictor-backend/routes/colleges.js:222-237 | the ranked list is the descending sort of the filtered candidates, and it is sorted (also at colleges.js:335-350) |
| MatchingLaws.RankedMembers | college-predictor-backend/routes/colleges.js:222-237 | an entry is ranked exactly when it is a candidate whose cutoff passes the mode's filter (also at colleges.js:335-350) |
| MatchingLaws.RankedColleges | college-predictor-backend/routes/colleges.js:165-175 | every ranked college is in the catalog and passes the query; with a specific branch it has a qualifying branch of that normalised name (also at colleges.js:264-331) |
| MatchingLaws.AnyWithoutCutoffsIsEmpty | college-predictor-backend/routes/colleges.js:180-234 | "Any" without a category, or without a percentile in percentile mode, yields nothing |
| MatchingLaws.InvertedRangeIsEmpty | college-predictor-backend/routes/colleges.js:226-230 | a range whose minimum exceeds its maximum yields nothing (also at colleges.js:341-345) |
| MatchingLaws.AnyCutoffMonotone | college-predictor-backend/routes/colleges.js:201-210 | raising the percentile never lowers a college's "Any" cutoff |
| MatchingLaws.SpecificAccMonotone | college-predictor-backend/routes/colleges.js:302-310 | raising the percentile keeps a qualifying match and never lowers the maximum |
| MatchingLaws.ItemsMembers | college-predictor-backend/routes/colleges.js:240 | a college is among the items exactly when some entry carries it |
| MatchingLaws.AnyCandidateMonotone | college-predictor-backend/routes/colleges.js:201-210 | an "Any" candidate kept at a lower percentile is kept at a higher one (also at colleges.js:231-233) |
| MatchingLaws.SpecificCandidateMonotone | college-predictor-backend/routes/colleges.js:302-310 | a specific-branch candidate kept at a lower percentile is kept at a higher one (also at colleges.js:346-348) |
| MatchingLaws.PercentileMonotone | college-predictor-backend/routes/colleges.js:201-210 | in percentile mode, every college ranked at a percentile is still ranked at any higher percentile (also at colleges.js:302-310) |
| Ranking.InsertDesc | college-predictor-backend/routes/colleges.js:237 | inserting adds exactly the one element (multiset) |
| Ranking.InsertDescSorted | college-predictor-backend/routes/colleges.js:237 | insertion keeps the list sorted by descending cutoff |
| Ranking.SortDesc | college-predictor-backend/routes/colleges.js:237 | the result is a permutation of the input, sorted by descending cutoff (also at colleges.js:335) |
| Ranking.FilterSortCommute | college-predictor-backend/routes/colleges.js:222-237 | filtering then sorting equals sorting then filtering, so both paths rank alike (also at colleges.js:335-350) |
| Ranking.SortConstant | college-predictor-backend/routes/colleges.js:237 | a list of equal cutoffs is left as it is |
| Ranking.AppendBelowAll | college-predictor-backend/routes/colleges.js:237 | an element no greater than all others goes last |
| Ranking.SortStable | college-predictor-backend/routes/colleges.js:237 | entries with equal cutoffs keep their input order (the sort is stable) (also at colleges.js:335) |
| Pagination.Page | college-predictor-backend/routes/colleges.js:154 | the page is the slice from `(page-1)*limit` of length at most `limit`, empty past the end (also at colleges.js:243) |
| Pagination.Info | college-predictor-backend/routes/colleges.js:137-144 | `totalPages` is the ceiling of total/limit (absent for limit 0); `hasNextPage` and `hasPrevPage` compare the page with it and with 1 (also at colleges.js:245-252) |
| Pagination.PagesArePrefix | college-predictor-backend/routes/colleges.js:243-252 | the first k pages concatenated are the first k·limit entries |
| Pagination.PagesCoverAll | college-predictor-backend/routes/colleges.js:243-252 | the pages 1..totalPages concatenated give the whole list |
| Pagination.PageNonEmptyIff | college-predictor-backend/routes/colleges.js:243-252 | a page is non-empty exactly when its number is at most `totalPages` |
| Pagination.HasNextPageIff | college-predictor-backend/routes/colleges.js:249 | `hasNextPage` holds exactly when the next page is non-empty |
| Listing.IntOr | college-predictor-backend/routes/colleges.js:130-131 | `parseInt(q) || d`: the query value unless it is missing or 0 |
| Listing.Window | college-predictor-backend/routes/colleges.js:134 | skip then limit, with a negative limit read as its absolute value |
| Listing.ListColleges | college-predictor-backend/routes/colleges.js:128-148 | a negative skip is a server error; otherwise the page info matches the count |
| Listing.ListingIsPage | college-predictor-backend/routes/colleges.js:128-148 | for positive page and limit the listing is the corresponding page of the catalog |
| Listing.DefaultListing | college-predictor-backend/routes/colleges.js:130-131 | with no query the listing is the first 15 colleges |
| Sequences.RemoveAt | college-predictor-backend/routes/collegeList.js:196 | `splice(i, 1)`: the elements before i, then those after it |
| Sequences.InsertAt | college-predictor-backend/routes/collegeList.js:283 | `splice(j, 0, x)`: x lands at j, the rest keep their order |
| Sequences.MoveLands | college-predictor-backend/routes/collegeList.js:280-283 | the moved element lands at the destination and the others keep their relative order |
| Sequences.MoveInPlace | college-predictor-backend/routes/collegeList.js:270-283 | moving to its own position changes nothing |
| Sequences.MoveFrom | college-predictor-frontend/src/pages/CollegeList.jsx:124-126 | each position of the moved list holds the element from a computed source position |
| Sequences.SourceInjective | college-predictor-frontend/src/pages/CollegeList.jsx:124-126 | distinct positions take distinct source positions |
| Sequences.MovePermutes | college-predictor-backend/routes/collegeList.js:280-283 | a move is a permutation |
| Sequences.MoveDistinct | college-predictor-backend/routes/collegeList.js:280-283 | a move keeps keys distinct |
| Sequences.RemoveDistinct | college-predictor-backend/routes/collegeList.js:196 | a removal keeps keys distinct |
| Shortlist.FindIndex | college-predictor-backend/routes/collegeList.js:184-186 | -1 exactly when no entry has the pair; otherwise the first entry that does |
| Shortlist.FindIndexOfEntry | college-predictor-backend/routes/collegeList.js:238-243 | in a list of distinct pairs each entry is found at its own index |
| Shortlist.WellFormed | college-predictor-backend/routes/collegeList.js:138-156 | the invariant the handlers keep: ranks 1..n in list order and no pair twice; `ShortlistStore.Valid` requires it of every list, and `AppendWellFormed`, `RenumberedWellFormed` and `ReorderFacts` show add, remove and rank preserve it |
| Shortlist.NewEntry | college-predictor-backend/routes/collegeList.js:138-156 | the appended entry ranks one past the old length; `AppendWellFormed` shows it keeps the list well formed |
| Shortlist.ListOf | college-predictor-backend/routes/collegeList.js:123-134 | a user without a stored list reads as a new empty list; the `ShortlistStore.Add` ensures state the duplicate and append cases through it |
| Shortlist.Renumbered | college-predictor-backend/routes/collegeList.js:199-201 | ranks become 1..n in list order and the pairs are unchanged (also at collegeList.js:286-288) |
| Shortlist.RenumberedWellFormed | college-predictor-backend/routes/collegeList.js:199-201 | renumbering a list of distinct pairs gives a well-formed list, and leaves a contiguous list as it is |
| Shortlist.AppendWellFormed | college-predictor-backend/routes/collegeList.js:138-156 | appending a new pair with rank length+1 keeps the list well formed |
| Shortlist.RemoveLeavesNone | college-predictor-backend/routes/collegeList.js:185-201 | after removal the pair is no longer in the list |
| Shortlist.ReorderFacts | college-predictor-backend/routes/collegeList.js:277-291 | a re-rank keeps the list well formed, puts the entry at its new rank, keeps the others' order, and permutes the entries |
| Shortlist.SameRankIsNoMove | college-predictor-backend/routes/collegeList.js:262-274 | in a well-formed list the old rank equals the new exactly when the position is the same, and then nothing changes |
| Shortlist.FindByCode | college-predictor-backend/routes/collegeList.js:23-29 | a found college has the code and is in the catalog; none exactly when no college has it |
| Shortlist.PopulateOne | college-predictor-backend/routes/collegeList.js:20-57 | an entry keeps branch, rank, cutoff and category; its college is the summary when the code is found, else the raw code |
| Shortlist.Populate | college-predictor-backend/routes/collegeList.js:9-66 | the loop populates each entry in order |
| Shortlist.RenumberRanks | college-predictor-backend/routes/collegeList.js:199-201 | the `forEach` rank assignment yields `Renumbered` (also at collegeList.js:286-288) |
| Shortlist.ShortlistStore.constructor | college-predictor-backend/models/CollegeList.js:9-33 | an empty store over a catalog |
| Shortlist.ShortlistStore.Get | college-predictor-backend/routes/collegeList.js:69-102 | a missing list is created empty; the view shows the user's list |
| Shortlist.ShortlistStore.Add | college-predictor-backend/routes/collegeList.js:105-171 | an unknown code fails first, a duplicate pair next, and otherwise the new entry is appended with the next rank; invariants kept |
| Shortlist.ShortlistStore.Remove | college-predictor-backend/routes/collegeList.js:174-216 | 404 without a list or without the pair; otherwise the entry is removed and the ranks renumbered |
| Shortlist.Reorder | college-predictor-backend/routes/collegeList.js:262-290 | the entry moves exactly when the clamped rank differs from its position, and the result is the moved list renumbered, still well formed |
| Shortlist.RankAccepted | college-predictor-backend/routes/collegeList.js:238-261 | the rank route accepts a move exactly when an id is sent and its pair is in the list; the `Rank` ensures give the new list under it, and `DragAgreesWithServer` and `RawCodeDragRefetches` show when the page meets it |
| Shortlist.ShortlistStore.Rank | college-predictor-backend/routes/collegeList.js:219-308 | 404 without a list; a missing id is a 500 on a non-empty list (404 on an empty one); 404 for a pair not in the list; the new rank is clamped to 1..n; the same rank changes nothing; otherwise the entry moves there and the ranks are renumbered; nothing changes on any failure |
| Shortlist.ShortlistStore.Clear | college-predictor-backend/routes/collegeList.js:311-329 | 404 without a list; otherwise the list is emptied |
| CollegeListView.ItemCollegeId | college-predictor-frontend/src/pages/CollegeList.jsx:105 | a raw code item has no id; a found college is named by its code |
| CollegeListView.RenumberedItems | college-predictor-frontend/src/pages/CollegeList.jsx:128-131 | ranks become 1..n in list order |
| CollegeListView.DragEnd | college-predictor-frontend/src/pages/CollegeList.jsx:79-147 | a drop outside or in place does nothing; otherwise the rank request carries position+1, and the list is the moved and renumbered copy, or the refetched list on failure |
| CollegeListView.PopulateRenumbered | college-predictor-frontend/src/pages/CollegeList.jsx:128-131 | renumbering the shown list shows the renumbered stored list |
| CollegeListView.PopulateMoved | college-predictor-frontend/src/pages/CollegeList.jsx:124-126 | moving in the shown list shows the moved stored list |
| CollegeListView.DragAgreesWithServer | college-predictor-frontend/src/pages/CollegeList.jsx:79-147 | the server accepts the request a drag of a catalog college sends, and the page's local result equals what the server stores |
| CollegeListView.RawCodeDragRefetches | college-predictor-frontend/src/pages/CollegeList.jsx:104-146 | a drag of an entry shown as a raw code sends no id, the server never accepts it, and the page shows the refetched list |
| CollegeListView.RemoveLocal | college-predictor-frontend/src/pages/CollegeList.jsx:47-54 | an item survives exactly when its college id and branch do not both match, unchanged, and the list never grows |
| CollegeListView.RemoveLocalLeavesGap | college-predictor-frontend/src/pages/CollegeList.jsx:47-54 | the local removal does not renumber: a gap in ranks remains |
| CollegeListView.ExportRows | college-predictor-frontend/src/pages/CollegeList.jsx:150-161 | one row per entry in list order: rank is the position plus one; branch, category and cutoff are copied; a found college gives its name and type and its city and state, "N/A" for an empty one; a raw code gives no name or type and "N/A" for city and state |
| CollegeListView.ExportRowOf | college-predictor-frontend/src/pages/CollegeList.jsx:151-160 | the row of one entry; the `ExportRows` ensures state each of its eight columns |
| CollegeListView.ExportRankIsStoredRank | college-predictor-frontend/src/pages/CollegeList.jsx:150-161 | for a well-formed stored list the exported rank is the stored rank |
| ResultsView.GetCutoffValue | college-predictor-frontend/src/pages/Results.jsx:387-402 | no category shows "N/A" |
| ResultsView.IsBranchMatching | college-predictor-frontend/src/pages/Results.jsx:405-423 | without a percentile or a category every branch matches; `BranchMatchingAgreesWithServer` proves it equals the server's test once a percentile is given, and `BranchMatchingLenientWithoutPercentile` exhibits the divergence without one |
| ResultsView.CutoffValueAgreesWithServer | college-predictor-frontend/src/pages/Results.jsx:387-402 | the value shown is the server's resolved cutoff, and "N/A" exactly when the server finds none |
| ResultsView.BranchMatchingAgreesWithServer | college-predictor-frontend/src/pages/Results.jsx:405-423 | with a percentile, the page's branch test agrees with the server's qualification |
| ResultsView.BranchMatchingLenientWithoutPercentile | college-predictor-frontend/src/pages/Results.jsx:405-410 | without a percentile the page accepts a branch the server does not qualify |
| ResultsView.SavedCode | college-predictor-frontend/src/pages/Results.jsx:307-316 | a saved code is never empty |
| ResultsView.IsAlreadyAdded | college-predictor-frontend/src/pages/Results.jsx:297-327 | true exactly when some saved entry has the code and branch |
| ResultsView.AlreadyAddedIffStored | college-predictor-frontend/src/pages/Results.jsx:297-327 | the page's "added" flag matches the server's duplicate check |
| ResultsView.FilterModeChangeClears | college-predictor-frontend/src/pages/Results.jsx:99-115 | switching mode clears the other mode's fields and keeps its own |
| ResultsView.FilterModeChange | college-predictor-frontend/src/pages/Results.jsx:99-115 | switching to percentile mode blanks the range bounds, to range mode the percentile; `FilterModeChangeClears` states what each switch keeps and what the server then sees |
| ResultsView.HandleSearch | college-predictor-frontend/src/pages/Results.jsx:209-244 | refused exactly when percentile mode lacks a percentile, or range mode lacks a bound or has its minimum above its maximum; otherwise the range is blanked (percentile mode) or the percentile set to "100" (range mode) |
| ResultsView.SearchSetsServerMode | college-predictor-frontend/src/pages/Results.jsx:213-241 | the request a search sends puts the server in the same mode |
| ResultsView.BranchesToShow | college-predictor-frontend/src/pages/Results.jsx:658-677 | "Any" shows every branch; otherwise at most one, a shown branch, and none only if no branch is shown |
| ResultsView.BranchShownIsFirst | college-predictor-frontend/src/pages/Results.jsx:665-676 | the branch shown is one of the college's branches |
| ResultsView.CollegeListedIff | college-predictor-frontend/src/pages/Results.jsx:680-682 | a college is listed exactly when it has a branch to show |
| ResultsView.PaginateAcceptsIff | college-predictor-frontend/src/pages/Results.jsx:329-332 | a page number is accepted exactly when it lies in 1..totalPages |
| ResultsView.PaginateAccepts | college-predictor-frontend/src/pages/Results.jsx:329-332 | the page number must lie in 1..(totalPages or 1); `PaginateAcceptsIff` states both cases |
| ResultsView.PageWindow | college-predictor-frontend/src/pages/Results.jsx:844-886 | one slot per page |
| ResultsView.SlotFor | college-predictor-frontend/src/pages/Results.jsx:844-886 | the slot of one page; `PageWindowShape` and `HiddenPagesAreFar` state which pages are buttons, ellipses or hidden |
| ResultsView.PageWindowShape | college-predictor-frontend/src/pages/Results.jsx:844-886 | page 1, the last page and the pages within 1 of the current are buttons, only the current one marked current; an ellipsis only stands 2 pages from the current |
| ResultsView.HiddenPagesAreFar | college-predictor-frontend/src/pages/Results.jsx:844-886 | a hidden page is neither first nor last and more than 2 from the current |
| PredictorView.IdString | college-predictor-frontend/src/pages/CollegePredictor.jsx:94-111 | an id string, when present, is non-empty |
| PredictorView.IdStringPrefersCode | college-predictor-frontend/src/pages/CollegePredictor.jsx:94-111 | a non-empty code wins; otherwise the id; null exactly when both are falsy |
| PredictorView.KeySet | college-predictor-frontend/src/pages/CollegePredictor.jsx:118-130 | the keys are exactly those of the saved entries |
| PredictorView.AddedKey | college-predictor-frontend/src/pages/CollegePredictor.jsx:195 | the key `id-branch`, with a missing id printed as "null" (also at CollegePredictor.jsx:124); `KeyIsAmbiguous` exhibits two pairs with one key and `StoredPairIsMarked` shows stored pairs are marked |
| PredictorView.LoadUserCollegeList | college-predictor-frontend/src/pages/CollegePredictor.jsx:118-130 | the `forEach` loop collects `KeySet` |
| PredictorView.StoredPairIsMarked | college-predictor-frontend/src/pages/CollegePredictor.jsx:118-130 | a pair the server holds is marked as added after loading (also at CollegePredictor.jsx:195) |
| PredictorView.KeyIsAmbiguous | college-predictor-frontend/src/pages/CollegePredictor.jsx:124 | the hyphen-joined key can confuse two different pairs (also at CollegePredictor.jsx:195) |
| PredictorView.HandleAddToList | college-predictor-frontend/src/pages/CollegePredictor.jsx:192-245 | nothing is sent exactly when the key is already in the set; the key joins the set once accepted |
| PredictorView.SecondClickSendsNothing | college-predictor-frontend/src/pages/CollegePredictor.jsx:195-207 | after an accepted add, the same click sends nothing |
| PredictorView.AddAgreesWithServer | college-predictor-frontend/src/pages/CollegePredictor.jsx:192-245 | an add the page sends is accepted by the server, and the page's new set equals the reloaded set |
| PredictorView.HandlePredict | college-predictor-frontend/src/pages/CollegePredictor.jsx:132-184 | missing fields are refused first, then an out-of-range percentile; otherwise the request carries branch and category |
| PredictorView.PredictRequestOnServer | college-predictor-frontend/src/pages/CollegePredictor.jsx:148-156 | the request puts the server in percentile mode with page and limit 15, and the query filters by trimmed city and type |
| PredictorView.ZeroPercentileReadsAsMissing | college-predictor-frontend/src/pages/CollegePredictor.jsx:134-150 | a percentile of "0" passes the page but is falsy on the server, so "Any" yields nothing |
| PredictorView.GetCutoffForCategory | college-predictor-frontend/src/pages/CollegePredictor.jsx:247-256 | nothing exactly when the category is absent or null |
| PredictorView.CategoriesAreUpper | college-predictor-frontend/src/pages/CollegePredictor.jsx:72-83 | every category offered is its own upper case |
| PredictorView.CutoffAgreesWithServer | college-predictor-frontend/src/pages/CollegePredictor.jsx:247-256 | the page shows the server's cutoff, except that an untagged wrapper shows NaN where the server reads 0 |
| PredictorView.GetMatchingBranches | college-predictor-frontend/src/pages/CollegePredictor.jsx:258-272 | "Any" shows every branch; never more than the college has |
| PredictorView.MatchingBranchesMembers | college-predictor-frontend/src/pages/CollegePredictor.jsx:258-272 | a branch is shown exactly when it matches the selection |
| PredictorView.BlankSelectionShowsAll | college-predictor-frontend/src/pages/CollegePredictor.jsx:263-270 | a white-space selection shows every branch |
| Password.MissingPasswordRejected | college-predictor-backend/routes/users.js:34-35 | a missing password is refused (also at users.js:46) |
| Password.ForeignCharacterRejected | college-predictor-backend/routes/users.js:35 | a character outside the allowed alphabet fails the pattern |
| Password.PasswordPattern | college-predictor-backend/routes/users.js:34-35 | at least eight characters from the allowed alphabet, with an upper-case letter, a digit and a special character; `AcceptedIsStrong` and `FullScoreNotAccepted` relate it to the strength score |
| Password.Acceptable | college-predictor-backend/routes/users.js:46 | the pattern tested on the field, a missing one read as "undefined" (also at users.js:155); `MissingPasswordRejected` shows a missing password is refused |
| Password.Strength | college-predictor-frontend/src/components/PasswordStrengthIndicator.jsx:4-16 | a score from 0 to 5, and 0 for a missing or empty password |
| Password.GetStrength | college-predictor-frontend/src/components/PasswordStrengthIndicator.jsx:4-16 | the five guarded increments compute `Strength` |
| Password.HasExtends | college-predictor-frontend/src/components/PasswordStrengthIndicator.jsx:9-13 | a character class found stays found when text is appended |
| Password.StrengthMonotone | college-predictor-frontend/src/components/PasswordStrengthIndicator.jsx:6-13 | appending text never lowers the score |
| Password.AcceptedIsStrong | college-predictor-backend/routes/users.js:34-35 | a password the server accepts scores at least 4, and 5 from 12 characters |
| Password.FullScoreNotAccepted | college-predictor-backend/routes/users.js:34-35 | a password can score 5 and still be refused |
| Password.Bars | college-predictor-frontend/src/components/PasswordStrengthIndicator.jsx:30-37 | always five bars |
| Password.BarsShowStrength | college-predictor-frontend/src/components/PasswordStrengthIndicator.jsx:30-37 | the first `strength` bars are lit in the score's colour and the rest unlit |
| Password.Label | college-predictor-frontend/src/components/PasswordStrengthIndicator.jsx:38-40 | the label of score k is the k-th label; score 0 shows none of them |
| Password.AcceptedLabel | college-predictor-frontend/src/components/PasswordStrengthIndicator.jsx:38-40 | an accepted password is labelled "Good" or "Strong" |
| Accounts.Decimal | college-predictor-backend/routes/users.js:67 | `toString` gives one or more digits |
| Accounts.DecimalRoundTrip | college-predictor-backend/routes/users.js:67 | reading the digits back gives the number |
| Accounts.DecimalLength | college-predictor-backend/routes/users.js:67 | a number in [10^(k-1), 10^k) has k digits |
| Accounts.IssueOtp | college-predictor-backend/routes/users.js:67-70 | the code is six digits whose value is the draw, and expires ten minutes later (also at users.js:109-112) |
| Accounts.Expired | college-predictor-backend/routes/users.js:150 | a code is expired strictly after its expiry time (also at users.js:204); `OtpValidForTenMinutes` shows an issued code is good for ten minutes, both ends included |
| Accounts.OtpValidForTenMinutes | college-predictor-backend/routes/users.js:150 | a code is accepted exactly until ten minutes after issue (also at users.js:204) |
| Accounts.FindOtp | college-predictor-backend/routes/users.js:146 | a record found has the address and code; none exactly when no record does (also at users.js:200) |
| Accounts.DropCodes | college-predictor-backend/routes/users.js:166 | no record of the address remains (also at users.js:209) |
| Accounts.DropCodesKeepsOthers | college-predictor-backend/routes/users.js:166 | exactly the other addresses' records remain (also at users.js:209) |
| Accounts.Register | college-predictor-backend/routes/users.js:38-97 | an existing user is refused first, then a weak password; otherwise a fresh code is issued |
| Accounts.VerifyOtp | college-predictor-backend/routes/users.js:196-240 | an unknown code, then an expired one, is refused and nothing is dropped; success drops the address's codes |
| Accounts.VerifyOnce | college-predictor-backend/routes/users.js:196-240 | a code verifies at most once |
| Accounts.ResetPassword | college-predictor-backend/routes/users.js:141-193 | code checks come before the password rule; success drops the codes |
| Accounts.ResetChecksCodeLikeVerify | college-predictor-backend/routes/users.js:141-193 | reset passes the code checks exactly when verification would (also at users.js:196-240) |
| Accounts.Login | college-predictor-backend/routes/users.js:243-278 | logged in exactly for a verified user with the right password; unverified refused as such |
| ContactRoute.ValidEmailIff | college-predictor-backend/routes/contact.js:18-21 | the scan accepts exactly the strings of the form run@run.run |
| ContactRoute.ValidEmail | college-predictor-backend/routes/contact.js:18-19 | the left-to-right check of the e-mail pattern; `ValidEmailIff` proves it accepts exactly the strings of the form run@run.run |
| ContactRoute.NewlinesToBr | college-predictor-backend/routes/contact.js:148 | no newline remains |
| ContactRoute.NewlinesToBrAppend | college-predictor-backend/routes/contact.js:148 | the replacement works piece by piece |
| ContactRoute.NewlinesToBrKeepsLines | college-predictor-backend/routes/contact.js:148 | text without newlines is unchanged |
| ContactRoute.MailFor | college-predictor-backend/routes/contact.js:24-186 | the phone row and phone line appear exactly when a phone was given, and the message body has no newline |
| ContactRoute.HandleContact | college-predictor-backend/routes/contact.js:8-207 | missing fields first, then a bad e-mail, then a send failure; a sent mail has a phone row exactly when a phone was given |
| ContactView.Set | college-predictor-frontend/src/pages/Contact.jsx:46-53 | the field takes the value and no other changes |
| ContactView.FieldError | college-predictor-frontend/src/pages/Contact.jsx:58-72 | the phone is never checked; a blank field is "required" |
| ContactView.ValidateForm | college-predictor-frontend/src/pages/Contact.jsx:55-76 | an error exactly for each failing field, with its message; valid exactly when there is none |
| ContactView.CheckName | college-predictor-frontend/src/pages/Contact.jsx:58-60 | the name's error is added exactly when the name is blank, and no other entry changes |
| ContactView.CheckEmail | college-predictor-frontend/src/pages/Contact.jsx:62-66 | the e-mail's error ("required" before "invalid") is added when there is one, and no other entry changes |
| ContactView.CheckMessage | college-predictor-frontend/src/pages/Contact.jsx:68-72 | the message's error ("required" before "too short") is added when there is one, and no other entry changes |
| ContactView.ValidIffNoFieldError | college-predictor-frontend/src/pages/Contact.jsx:55-76 | the form is valid exactly when no field has an error |
| ContactView.FormValid | college-predictor-frontend/src/pages/Contact.jsx:55-76 | the form passes; `ValidIffNoFieldError` proves it holds exactly when no field has an error, and `ValidFormPassesServer` that the server then accepts it |
| ContactView.ValidFormPassesServer | college-predictor-frontend/src/pages/Contact.jsx:78-101 | a form the page sends is accepted by the server |
| ContactView.ServerAcceptsBlankFields | college-predictor-frontend/src/pages/Contact.jsx:58-72 | the server accepts white-space fields the page refuses |
| ContactView.HandleChange | college-predictor-frontend/src/pages/Contact.jsx:46-53 | the form takes the new value |
| ContactView.ChangeClearsOnlyThatField | college-predictor-frontend/src/pages/Contact.jsx:46-53 | editing blanks that field's error and no other |
| ContactView.HandleSubmit | college-predictor-frontend/src/pages/Contact.jsx:78-101 | an invalid form sends nothing and shows errors; a delivered form is emptied; a failed one kept |
| ProfileView.DigitsOnly | college-predictor-frontend/src/pages/Profile.jsx:25 | the result holds only digits and is no longer than the input |
| ProfileView.DigitsOnlyKeepsDigits | college-predictor-frontend/src/pages/Profile.jsx:25 | a digit string is kept as is |
| ProfileView.HandleUserChange | college-predictor-frontend/src/pages/Profile.jsx:21-37 | name edits are stored as typed; a phone edit stores its digits only when at most ten, clearing the error |
| ProfileView.ChangeKeepsPhoneShape | college-predictor-frontend/src/pages/Profile.jsx:21-37 | the phone always stays at most ten digits |
| ProfileView.PhoneErrors | college-predictor-frontend/src/pages/Profile.jsx:43-61 | a phone error exactly when the phone is neither empty nor ten digits |
| ProfileView.ValidateUserDetails | college-predictor-frontend/src/pages/Profile.jsx:43-61 | the two sequential checks leave `PhoneErrors` |
| ProfileView.ExactlyTenNeverShown | college-predictor-frontend/src/pages/Profile.jsx:49-55 | the length message is never the one shown; "12345" gets the digits message |
| ProfileView.IntendedPhoneErrors | college-predictor-frontend/src/pages/Profile.jsx:49-55 | the corrected check only reports the phone field |
| ProfileView.IntendedPhoneErrorsMessages | college-predictor-frontend/src/pages/Profile.jsx:49-55 | the corrected check refuses the same phones, with the length message for digits of the wrong length |
| ProfileView.ShapedPhoneCheck | college-predictor-frontend/src/pages/Profile.jsx:49-55 | an input-produced phone is refused exactly when it is non-empty and not ten long |
| ProfileView.HandlePasswordSubmit | college-predictor-frontend/src/pages/Profile.jsx:73-86 | refused exactly on a mismatch, keeping the fields; otherwise the fields are emptied |
| Counselling.Head | college-predictor-backend/routes/counselling.js:99 | `substring(0, n)`: a prefix of length min(|s|, n) |
| Counselling.TitleShape | college-predictor-backend/routes/counselling.js:99 | a title is at most 53 long: the message itself up to 50, else its first 50 characters and "..." |
| Counselling.Title | college-predictor-backend/routes/counselling.js:99 | the title of a new session; `TitleShape` states its length and content |
| Counselling.History | college-predictor-backend/routes/counselling.js:112-117 | at most ten entries |
| Counselling.HistoryWindow | college-predictor-backend/routes/counselling.js:112-117 | the history is the last min(n, 10) conversations, with text kept and roles mapped both ways |
| Counselling.RequestEndsWithMessage | college-predictor-backend/routes/counselling.js:104-126 | the request is the prompt, then the window ending with the new user message |
| Counselling.AlternatesIffLong | college-predictor-backend/routes/counselling.js:112-126 | for a history of exchanges the request alternates roles exactly when ten or more conversations were stored |
| Counselling.ReplyError | college-predictor-backend/routes/counselling.js:175-179 | an error exactly when the answer has no text |
| Counselling.ErrorMessage | college-predictor-backend/routes/counselling.js:205-229 | the message reported is never empty |
| Counselling.MissingTextIsUnexpected | college-predictor-backend/routes/counselling.js:175-179 | an answer without text is reported as unexpected (also at counselling.js:205-229) |
| Counselling.ModelErrorTextShown | college-predictor-backend/routes/counselling.js:222-226 | an error body's message is passed on when no other case applies |
| Counselling.Target | college-predictor-backend/routes/counselling.js:88-101 | with an id, the user's own session or none; without, a fresh empty session |
| Counselling.PreviewShape | college-predictor-backend/routes/counselling.js:247-257 | the preview carries the number of entries and the first 100 characters of the last one (all of it when shorter, nothing for an empty session) |
| Counselling.Preview | college-predictor-backend/routes/counselling.js:247-257 | a session's entry in the session list; `PreviewShape` states its count and last-message preview, and `SessionStore.Previews` gives one per owned session |
| Counselling.ClearedShape | college-predictor-backend/routes/counselling.js:314-333 | clearing empties one session's conversations and touches nothing else |
| Counselling.Cleared | college-predictor-backend/routes/counselling.js:314-333 | the sessions after a clear; `ClearedShape` states that one session is emptied and the rest untouched |
| Counselling.SessionStore.constructor | college-predictor-backend/models/Counselling.js:3-38 | an empty store |
| Counselling.SessionStore.Chat | college-predictor-backend/routes/counselling.js:69-236 | checks in order (blank, key, session); on error nothing is saved; on success two conversations are appended |
| Counselling.SessionStore.Previews | college-predictor-backend/routes/counselling.js:239-267 | exactly the user's sessions, previewed |
| Counselling.SessionStore.GetSession | college-predictor-backend/routes/counselling.js:270-289 | found exactly for the user's own session |
| Counselling.SessionStore.Delete | college-predictor-backend/routes/counselling.js:292-311 | removes the user's own session and nothing else |
| Counselling.SessionStore.Clear | college-predictor-backend/routes/counselling.js:314-333 | empties the user's own session and nothing else |
| BranchGuide.Branches | college-predictor-frontend/src/pages/BranchGuide.jsx:23-369 | fifteen branches |
| BranchGuide.FilteredMembers | college-predictor-frontend/src/pages/BranchGuide.jsx:378-383 | a branch is shown exactly when it is in the table and matches tab and search |
| BranchGuide.TableIds | college-predictor-frontend/src/pages/BranchGuide.jsx:23-369 | the table's ids run from 1 to 15 in order |
| BranchGuide.FilteredInTableOrder | college-predictor-frontend/src/pages/BranchGuide.jsx:378-383 | the cards keep the table's order |
| BranchGuide.AllTabEmptySearchShowsAll | college-predictor-frontend/src/pages/BranchGuide.jsx:378-383 | the 'all' tab with no search shows the whole table |
| BranchGuide.TabCount | college-predictor-frontend/src/pages/BranchGuide.jsx:371-376 | the 'all' tab counts fifteen |
| BranchGuide.TabCountsAddUp | college-predictor-frontend/src/pages/BranchGuide.jsx:23-376 | 10 core, 3 emerging and 2 specialized make up the 15 |
| BranchGuide.TabCountIsShownCount | college-predictor-frontend/src/pages/BranchGuide.jsx:371-383 | a tab's badge is the number of cards it shows with no search |
| BranchGuide.GetColorClasses | college-predictor-frontend/src/pages/BranchGuide.jsx:385-402 | a known colour gets its shades; an unknown one gets indigo's |
| BranchGuide.TableColorsKnown | college-predictor-frontend/src/pages/BranchGuide.jsx:23-400 | every branch's colour is in the palette |
| BranchGuide.FallbackIsIndigo | college-predictor-frontend/src/pages/BranchGuide.jsx:401 | an unknown colour shows the indigo classes |

## Left out

- Persistence, HTTP and routing: Mongoose queries, saves and the Express request and response objects. The catalog, lists, codes and sessions are in-memory values and statuses are result tags.
- Exceptions raised by the database (a malformed session id, a failed save): the 500 paths they lead to are not modelled.
- Races: concurrent requests on one shortlist or session cannot be expressed in a sequential model; each operation is proved on its own.
- Authentication: JWT signing and checking, bcrypt hashing and comparison (`passwordMatches` is a parameter of `Login`), rate limiters, `server.js` start-up, `GET /profile` and `POST /logout`.
- Randomness and time: `crypto.randomInt` is the `draw` parameter (in its range) and `Date.now()` is the `now` parameter.
- E-mail delivery: sending is the `delivered` parameter; the HTML and text templates are left out except the parts that depend on the input.
- The Gemini call: its reply is the `reply` parameter, `apiKeySet` stands for the key's presence, and the system prompt text is the `prompt` parameter.
- `POST /forgot-password`: only its code issuance (`Accounts.IssueOtp`) is modelled; the user lookup and mail are I/O.
- `GET /api/colleges/:id` and `POST /api/colleges`: single-record reads and inserts with no logic.
- The city filter is a case-insensitive substring test; the source builds a regular expression from the typed city, which matches the same for literal city names only.
- Case mapping is ASCII only, and string lengths count code points rather than UTF-16 units.
- Request numbers are numbers, numeric text or blank; text that does not parse (NaN in a request field) is not modelled. Cutoffs stored as unparsable text are modelled (as NaN).
- Tagged `$numberDouble`/`$numberInt` payloads are read as numbers; the text parsing of those payloads is not modelled.
- Matching.Predict: a limit of zero or below is not specified beyond what `Pagination.Info` states, since the pages sent always have limit 15.
- `toFixed(2)` formatting of cutoffs and all other number formatting.
- The add-to-list cutoff on the prediction page is passed through as given (`cutoff` parameter); its `parseFloat` is not modelled.
- Rendering, hooks, toasts, modals, the drag-and-drop library, and the XLSX, PDF and CSV file writing of the list export (only the rows are modelled).
- Counselling.SessionStore.Previews: returns a set; the ordering of sessions by `updatedAt` is not modelled.
- Prototype keys such as "toString" in the colour lookup of the branch guide, and all logging.
- AICounselling.jsx (optimistic asynchronous chat UI) and CollegesList.jsx (display-only pagination repeating the results page's window), plus content-only pages.

## Findings

| source | as written | input that shows it | evidently intended | confidence | as-written member | corrected member |
|---|---|---|---|---|---|---|
| college-predictor-frontend/src/pages/Profile.jsx:49-55 | a phone of the wrong length gets "exactly 10 digits" from the first check, which the second check then overwrites with "must contain only digits", since the pattern also requires ten characters | phone "12345" | digits of the wrong length get the length message, and only a non-digit gets the digits message | high; not executed | ProfileView.ExactlyTenNeverShown | ProfileView.IntendedPhoneErrorsMessages |
