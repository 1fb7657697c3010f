/** The branch guide page of
    college-predictor-frontend/src/pages/BranchGuide.jsx: its fixed table of
    fifteen branches, the category tabs with their counts, the filter by tab
    and search text, and the colour classes of a card. */
module BranchGuide {
  import opened Js
  import opened Text

  /** The parts of a branch the filter and the card colours read; the
      descriptions, subjects, careers and salaries are display text only. */
  datatype GuideBranch = GuideBranch(id: nat, name: string, shortName: string, category: string, color: string)

  /** `branches` (BranchGuide.jsx:23-369), written as its four runs of one
      category each. */
  function Branches(): (r: seq<GuideBranch>)
    ensures |r| == 15
  {
    FirstCore() + Emerging() + SecondCore() + Specialized()
  }

  /** Entries 1-7 of the table. */
  function FirstCore(): seq<GuideBranch> {
    [ GuideBranch(1, "Computer Science and Engineering", "CSE", "core", "indigo"),
      GuideBranch(2, "Information Technology", "IT", "core", "blue"),
      GuideBranch(3, "Electronics and Telecommunication", "ENTC", "core", "purple"),
      GuideBranch(4, "Mechanical Engineering", "MECH", "core", "gray"),
      GuideBranch(5, "Electrical Engineering", "EE", "core", "yellow"),
      GuideBranch(6, "Civil Engineering", "CIVIL", "core", "orange"),
      GuideBranch(7, "Chemical Engineering", "CHEM", "core", "green") ]
  }

  /** Entries 8-10 of the table. */
  function Emerging(): seq<GuideBranch> {
    [ GuideBranch(8, "AI and Data Science", "AIDS", "emerging", "pink"),
      GuideBranch(9, "AI and Machine Learning", "AIML", "emerging", "cyan"),
      GuideBranch(10, "Cyber Security", "CS", "emerging", "red") ]
  }

  /** Entries 11-13 of the table. */
  function SecondCore(): seq<GuideBranch> {
    [ GuideBranch(11, "Electronics & Computer", "ECE", "core", "indigo"),
      GuideBranch(12, "Instrumentation Engineering", "INST", "core", "teal"),
      GuideBranch(13, "Production Engineering", "PROD", "core", "amber") ]
  }

  /** Entries 14-15 of the table. */
  function Specialized(): seq<GuideBranch> {
    [ GuideBranch(14, "Automobile Engineering", "AUTO", "specialized", "red"),
      GuideBranch(15, "Biotechnology Engineering", "BIOTECH", "specialized", "lime") ]
  }

  /** A tab and a search text keep a branch: the tab is 'all' or the
      branch's category, and the search text, lower-cased, occurs in the
      lower-cased name or short name. */
  predicate Matches(b: GuideBranch, category: string, search: string) {
    (category == "all" || b.category == category) &&
    (Contains(Lower(b.name), Lower(search)) || Contains(Lower(b.shortName), Lower(search)))
  }

  /** `filteredBranches` (BranchGuide.jsx:378-383). */
  function FilteredBranches(category: string, search: string): seq<GuideBranch> {
    Filter((b: GuideBranch) => Matches(b, category, search), Branches())
  }

  /** A branch is shown exactly when it is in the table and matches. */
  lemma {:induction false} FilteredMembers(category: string, search: string)
    ensures forall b :: b in FilteredBranches(category, search) <==> b in Branches() && Matches(b, category, search)
  {
    FilterMembers((b: GuideBranch) => Matches(b, category, search), Branches());
  }

  /** Ids strictly increase along `s`. */
  predicate IdsIncrease(s: seq<GuideBranch>) {
    forall i, j :: 0 <= i < j < |s| ==> s[i].id < s[j].id
  }

  lemma {:induction false} FilterKeepsIdOrder(p: GuideBranch -> bool, s: seq<GuideBranch>)
    requires IdsIncrease(s)
    ensures IdsIncrease(Filter(p, s))
  {
    if s != [] {
      var init, last := s[..|s| - 1], s[|s| - 1];
      assert IdsIncrease(init) by {
        forall i, j | 0 <= i < j < |init| ensures init[i].id < init[j].id {
          assert init[i] == s[i] && init[j] == s[j];
        }
      }
      FilterKeepsIdOrder(p, init);
      var f := Filter(p, init);
      if p(last) {
        FilterMembers(p, init);
        var g := f + [last];
        forall i, j | 0 <= i < j < |g| ensures g[i].id < g[j].id {
          if j == |f| {
            assert f[i] in f;
            var k :| 0 <= k < |init| && init[k] == f[i];
            assert s[k] == g[i];
          } else {
            assert g[i] == f[i] && g[j] == f[j];
          }
        }
      }
    }
  }

  /** The cards keep the table's order: the ids shown increase, so the
      result is the table with some branches left out. */
  lemma {:induction false} FilteredInTableOrder(category: string, search: string)
    ensures IdsIncrease(FilteredBranches(category, search))
  {
    TableIds();
    FilterKeepsIdOrder((b: GuideBranch) => Matches(b, category, search), Branches());
  }

  /** The table's ids are 1 to 15 in order. */
  lemma {:induction false} TableIds()
    ensures IdsIncrease(Branches())
  {
    var a, b, c, d := FirstCore(), Emerging(), SecondCore(), Specialized();
    var t := a + b + c + d;
    assert forall k :: 0 <= k < |a| ==> a[k].id == k + 1;
    assert forall k :: 0 <= k < |b| ==> b[k].id == k + 8;
    assert forall k :: 0 <= k < |c| ==> c[k].id == k + 11;
    assert forall k :: 0 <= k < |d| ==> d[k].id == k + 14;
    assert forall k :: 0 <= k < 15 ==> t[k].id == k + 1;
  }

  /** With the 'all' tab and an empty search every branch is shown, in the
      table's order. */
  lemma {:induction false} AllTabEmptySearchShowsAll()
    ensures FilteredBranches("all", "") == Branches()
  {
    forall b | b in Branches() ensures Matches(b, "all", "") {
      ContainsEmpty(Lower(b.name));
    }
    FilterAll((b: GuideBranch) => Matches(b, "all", ""), Branches());
  }

  /** `branches.filter(b => b.category === category).length`. */
  function CategoryCount(s: seq<GuideBranch>, category: string): (r: nat)
    ensures r <= |s|
  {
    |Filter((b: GuideBranch) => b.category == category, s)|
  }

  /** The tab counts (BranchGuide.jsx:371-376): 'all' counts the table. */
  function TabCount(tab: string): (r: nat)
    ensures tab == "all" ==> r == 15
  {
    if tab == "all" then |Branches()| else CategoryCount(Branches(), tab)
  }

  lemma {:induction false} CountSplit(a: seq<GuideBranch>, b: seq<GuideBranch>, category: string)
    ensures CategoryCount(a + b, category) == CategoryCount(a, category) + CategoryCount(b, category)
  {
    FilterAppend((x: GuideBranch) => x.category == category, a, b);
  }

  lemma {:induction false} BlockCount(s: seq<GuideBranch>, category: string, other: string)
    requires forall b :: b in s ==> b.category == category
    ensures CategoryCount(s, category) == |s|
    ensures other != category ==> CategoryCount(s, other) == 0
  {
    FilterAll((x: GuideBranch) => x.category == category, s);
    if other != category {
      FilterNone((x: GuideBranch) => x.category == other, s);
    }
  }

  /** Every branch is in one of the three categories, so the three counts
      make up the 'all' count: 10 core, 3 emerging and 2 specialized. */
  lemma {:induction false} TabCountsAddUp()
    ensures TabCount("core") + TabCount("emerging") + TabCount("specialized") == TabCount("all")
    ensures TabCount("core") == 10 && TabCount("emerging") == 3 && TabCount("specialized") == 2
  {
    var a, b, c, d := FirstCore(), Emerging(), SecondCore(), Specialized();
    CountsAddUp(a, b, c, d, "core");
    CountsAddUp(a, b, c, d, "emerging");
    CountsAddUp(a, b, c, d, "specialized");
    RunCounts(a, "core", 7);
    RunCounts(b, "emerging", 3);
    RunCounts(c, "core", 3);
    RunCounts(d, "specialized", 2);
  }

  /** A run of `n` branches of one category among the three counts `n` for
      its own tab and nothing for the other two. */
  lemma {:induction false} RunCounts(s: seq<GuideBranch>, category: string, n: nat)
    requires || (s == FirstCore() && category == "core" && n == 7)
             || (s == Emerging() && category == "emerging" && n == 3)
             || (s == SecondCore() && category == "core" && n == 3)
             || (s == Specialized() && category == "specialized" && n == 2)
    ensures CategoryCount(s, category) == n
    ensures forall other :: other in {"core", "emerging", "specialized"} && other != category ==> CategoryCount(s, other) == 0
  {
    assert forall x :: x in s ==> x.category == category;
    forall other | other in {"core", "emerging", "specialized"} && other != category
      ensures CategoryCount(s, other) == 0
    {
      BlockCount(s, category, other);
    }
    BlockCount(s, category, category);
  }

  /** A count over the four runs is the sum of the counts over each. */
  lemma {:induction false} CountsAddUp(a: seq<GuideBranch>, b: seq<GuideBranch>, c: seq<GuideBranch>, d: seq<GuideBranch>, category: string)
    ensures CategoryCount(a + b + c + d, category)
            == CategoryCount(a, category) + CategoryCount(b, category) + CategoryCount(c, category) + CategoryCount(d, category)
  {
    CountSplit(a + b + c, d, category);
    CountSplit(a + b, c, category);
    CountSplit(a, b, category);
  }

  /** A tab's badge is the number of cards it shows with an empty search. */
  lemma {:induction false} TabCountIsShownCount(tab: string)
    ensures |FilteredBranches(tab, "")| == TabCount(tab)
  {
    var t := Branches();
    forall b | b in t ensures Contains(Lower(b.name), Lower("")) {
      ContainsEmpty(Lower(b.name));
    }
    if tab == "all" {
      AllTabEmptySearchShowsAll();
    } else {
      FilterAgree((b: GuideBranch) => Matches(b, tab, ""), (b: GuideBranch) => b.category == tab, t);
    }
  }

  /** The four Tailwind classes of a card. */
  datatype ColorClasses = ColorClasses(bg: string, text: string, border: string, hover: string)

  /** The colours `getColorClasses` knows (BranchGuide.jsx:386-400). */
  const Palette: set<string> := {"indigo", "blue", "purple", "gray", "yellow", "orange", "green",
                                 "pink", "cyan", "teal", "amber", "red", "lime"}

  /** The classes of a known colour: shade 100 background, shade 600 text,
      shade 200 border and shade 400 border on hover. */
  function Shades(color: string): ColorClasses {
    ColorClasses("bg-" + color + "-100", "text-" + color + "-600", "border-" + color + "-200",
                 "hover:border-" + color + "-400")
  }

  /** `getColorClasses` (BranchGuide.jsx:385-402): an unknown colour gets
      the indigo classes. */
  function GetColorClasses(color: string): (r: ColorClasses)
    ensures color in Palette ==> r == Shades(color)
    ensures color !in Palette ==> r == Shades("indigo")
  {
    if color in Palette then Shades(color) else Shades("indigo")
  }

  /** Every branch of the table has a colour of its own in the palette, so
      no card falls back to indigo unless it is indigo. */
  lemma {:induction false} TableColorsKnown()
    ensures forall b :: b in Branches() ==> b.color in Palette && GetColorClasses(b.color) == Shades(b.color)
  {
    var a, b, c, d := FirstCore(), Emerging(), SecondCore(), Specialized();
    assert forall x :: x in a ==> x.color in Palette;
    assert forall x :: x in b ==> x.color in Palette;
    assert forall x :: x in c ==> x.color in Palette;
    assert forall x :: x in d ==> x.color in Palette;
    assert forall x :: x in Branches() ==> x in a || x in b || x in c || x in d;
  }

  /** The fallback is the indigo entry itself. */
  lemma {:induction false} FallbackIsIndigo(color: string)
    requires color !in Palette
    ensures GetColorClasses(color) == GetColorClasses("indigo")
    ensures GetColorClasses(color).bg == "bg-indigo-100"
  {
  }
}
