/** The branch-name normaliser of the prediction route
    (college-predictor-backend/routes/colleges.js:7-125): an ordered table of
    (substring key, canonical name) pairs and a first-match lookup over it. */
module BranchNormalizer {
  import opened Wrappers
  import opened Text

  /** The number of commented groups the table is written in. */
  const GroupCount := 20

  /** Group `g` of `branchMappings` (colleges.js:7-108), in the object's
      insertion order. */
  function Group(g: nat): seq<(string, string)> {
    match g
    // Computer Science related branches.
    case 0 => [
      ("computer", "Computer Engineering"),
      ("computer engineering", "Computer Engineering"),
      ("computer science", "Computer Science and Engineering"),
      ("computer science and engineering", "Computer Science and Engineering"),
      ("computer science & engineering", "Computer Science and Engineering"),
      ("cse", "Computer Science and Engineering"),
      ("cs", "Computer Science and Engineering"),
      ("comp", "Computer Engineering")
    ]
    // Information Technology.
    case 1 => [
      ("information technology", "Information Technology"),
      ("it", "Information Technology")
    ]
    // Electronics related branches.
    case 2 => [
      ("electronics", "Electronics Engineering"),
      ("electronics engineering", "Electronics Engineering"),
      ("electronics and telecommunication", "Electronics and Telecommunication Engineering"),
      ("electronics and telecommunication engineering", "Electronics and Telecommunication Engineering"),
      ("ece", "Electronics and Communication Engineering"),
      ("electronics and communication", "Electronics and Communication Engineering"),
      ("electronics and communication engineering", "Electronics and Communication Engineering"),
      ("extc", "Electronics and Telecommunication Engineering")
    ]
    // Electrical.
    case 3 => [
      ("electrical", "Electrical Engineering"),
      ("electrical engineering", "Electrical Engineering")
    ]
    // Mechanical.
    case 4 => [
      ("mechanical", "Mechanical Engineering"),
      ("mechanical engineering", "Mechanical Engineering")
    ]
    // Civil.
    case 5 => [
      ("civil", "Civil Engineering"),
      ("civil engineering", "Civil Engineering")
    ]
    // Chemical.
    case 6 => [
      ("chemical", "Chemical Engineering"),
      ("chemical engineering", "Chemical Engineering")
    ]
    // Artificial Intelligence and related.
    case 7 => [
      ("artificial intelligence", "Artificial Intelligence and Data Science"),
      ("ai", "Artificial Intelligence and Data Science"),
      ("artificial intelligence and data science", "Artificial Intelligence and Data Science"),
      ("ai and data science", "Artificial Intelligence and Data Science"),
      ("ai & data science", "Artificial Intelligence and Data Science"),
      ("data science", "Data Science")
    ]
    // Biotechnology.
    case 8 => [
      ("bio technology", "Bio Technology"),
      ("biotechnology", "Bio Technology")
    ]
    // Instrumentation.
    case 9 => [
      ("instrumentation", "Instrumentation Engineering"),
      ("instrumentation engineering", "Instrumentation Engineering"),
      ("instrumentation and control", "Instrumentation and Control Engineering"),
      ("instrumentation and control engineering", "Instrumentation and Control Engineering")
    ]
    // Automobile.
    case 10 => [
      ("automobile", "Automobile Engineering"),
      ("automobile engineering", "Automobile Engineering")
    ]
    // Aeronautical.
    case 11 => [
      ("aeronautical", "Aeronautical Engineering"),
      ("aeronautical engineering", "Aeronautical Engineering")
    ]
    // Production.
    case 12 => [
      ("production", "Production Engineering"),
      ("production engineering", "Production Engineering")
    ]
    // Industrial.
    case 13 => [
      ("industrial", "Industrial Engineering"),
      ("industrial engineering", "Industrial Engineering")
    ]
    // Textile.
    case 14 => [
      ("textile", "Textile Engineering"),
      ("textile engineering", "Textile Engineering")
    ]
    // Mining.
    case 15 => [
      ("mining", "Mining Engineering"),
      ("mining engineering", "Mining Engineering")
    ]
    // Metallurgy.
    case 16 => [
      ("metallurgy", "Metallurgical Engineering"),
      ("metallurgical", "Metallurgical Engineering"),
      ("metallurgical engineering", "Metallurgical Engineering")
    ]
    // Biomedical.
    case 17 => [
      ("biomedical", "Bio Medical Engineering"),
      ("bio medical", "Bio Medical Engineering"),
      ("bio medical engineering", "Bio Medical Engineering"),
      ("biomedical engineering", "Bio Medical Engineering")
    ]
    // Chemical related.
    case 18 => [
      ("petro chemical", "Petro Chemical Engineering"),
      ("petro chemical engineering", "Petro Chemical Engineering")
    ]
    // Robotics.
    case 19 => [
      ("robotics", "Robotics Engineering"),
      ("automation and robotics", "Automation and Robotics")
    ]
    case _ => []
  }

  /** The groups from `g` on, concatenated. */
  function Concat(groups: nat -> seq<(string, string)>, g: nat): seq<(string, string)>
    decreases GroupCount - g
  {
    if g >= GroupCount then [] else groups(g) + Concat(groups, g + 1)
  }

  /** `branchMappings` as one sequence, in the order the lookup scans it. */
  function BranchMappings(): seq<(string, string)> {
    Concat(Group, 0)
  }

  /** Entry `i` is the first entry of `table` whose key `lower` includes. */
  ghost predicate FirstHit(lower: string, table: seq<(string, string)>, i: int) {
    0 <= i < |table| && Contains(lower, table[i].0)
    && forall j :: 0 <= j < i ==> !Contains(lower, table[j].0)
  }

  /** The early-exit scan of the `for ... of Object.entries(branchMappings)` loop. */
  function FirstMatch(lower: string, table: seq<(string, string)>): (r: Option<string>)
    ensures r.None? <==> forall i :: 0 <= i < |table| ==> !Contains(lower, table[i].0)
    ensures r.Some? ==> exists i :: FirstHit(lower, table, i) && r.value == table[i].1
  {
    if table == [] then None
    else if Contains(lower, table[0].0) then
      assert FirstHit(lower, table, 0);
      Some(table[0].1)
    else
      var r := FirstMatch(lower, table[1..]);
      assert forall i :: 1 <= i < |table| ==> table[i] == table[1..][i - 1];
      assert r.Some? ==> exists i :: FirstHit(lower, table, i) && r.value == table[i].1 by {
        if r.Some? {
          var i :| FirstHit(lower, table[1..], i) && r.value == table[1..][i].1;
          assert FirstHit(lower, table, i + 1);
        }
      }
      r
  }

  /** There is at most one first hit. */
  lemma {:induction false} FirstHitUnique(lower: string, table: seq<(string, string)>, i: int, j: int)
    requires FirstHit(lower, table, i) && FirstHit(lower, table, j)
    ensures i == j
  {
  }

  /** The scan returns the canonical name of the first hit. */
  lemma {:induction false} FirstMatchAt(lower: string, table: seq<(string, string)>, i: int)
    requires FirstHit(lower, table, i)
    ensures FirstMatch(lower, table) == Some(table[i].1)
  {
    var r := FirstMatch(lower, table);
    var j :| FirstHit(lower, table, j) && r.value == table[j].1;
    FirstHitUnique(lower, table, i, j);
  }

  /** Scanning a concatenation scans the second part only when the first has
      no hit. */
  lemma {:induction false} FirstMatchAppend(lower: string, a: seq<(string, string)>, b: seq<(string, string)>)
    ensures FirstMatch(lower, a + b) == if FirstMatch(lower, a).Some? then FirstMatch(lower, a) else FirstMatch(lower, b)
  {
    if a == [] {
      assert a + b == b;
    } else {
      assert (a + b)[0] == a[0];
      assert (a + b)[1..] == a[1..] + b;
      FirstMatchAppend(lower, a[1..], b);
    }
  }

  /** The lookup loop, group by group from group `g`: the first group with a
      hit decides. */
  function ScanGroups(groups: nat -> seq<(string, string)>, lower: string, g: nat): Option<string>
    decreases GroupCount - g
  {
    if g >= GroupCount then None
    else match FirstMatch(lower, groups(g))
      case Some(v) => Some(v)
      case None => ScanGroups(groups, lower, g + 1)
  }

  /** Scanning group by group is scanning the concatenated table in order. */
  lemma {:induction false} ScanGroupsIsFirstMatch(groups: nat -> seq<(string, string)>, lower: string, g: nat)
    ensures ScanGroups(groups, lower, g) == FirstMatch(lower, Concat(groups, g))
    decreases GroupCount - g
  {
    if g < GroupCount {
      FirstMatchAppend(lower, groups(g), Concat(groups, g + 1));
      ScanGroupsIsFirstMatch(groups, lower, g + 1);
    }
  }

  /** The key the table is matched against: `branchName.toLowerCase().trim()`. */
  function LookupKey(name: string): string {
    Trim(Lower(name))
  }

  /** `normalizeBranchName` over a table given by its groups: "Unknown" for
      a missing or empty name, the canonical name of the first key the
      lookup key includes, and otherwise the name exactly as given. */
  function NormalizeWith(groups: nat -> seq<(string, string)>, name: Option<string>): (r: string)
    ensures name.None? || name.value == "" ==> r == "Unknown"
  {
    if name.None? || name.value == "" then "Unknown"
    else
      match ScanGroups(groups, LookupKey(name.value), 0)
      case Some(v) => v
      case None => name.value
  }

  /** `normalizeBranchName` (colleges.js:110-125), over `branchMappings`. */
  function NormalizeBranchName(name: Option<string>): string {
    NormalizeWith(Group, name)
  }

  /** What the normaliser returns for a non-empty name, stated over the whole
      concatenated table: the canonical name of its first hit, and the name
      itself when no key is included in the lookup key. */
  lemma {:induction false} NormalizeWithSpec(groups: nat -> seq<(string, string)>, name: string)
    requires name != ""
    ensures (forall i :: 0 <= i < |Concat(groups, 0)| ==> !Contains(LookupKey(name), Concat(groups, 0)[i].0))
              ==> NormalizeWith(groups, Some(name)) == name
    ensures forall i :: FirstHit(LookupKey(name), Concat(groups, 0), i)
              ==> NormalizeWith(groups, Some(name)) == Concat(groups, 0)[i].1
  {
    var key := LookupKey(name);
    ScanGroupsIsFirstMatch(groups, key, 0);
    forall i | FirstHit(key, Concat(groups, 0), i)
      ensures NormalizeWith(groups, Some(name)) == Concat(groups, 0)[i].1
    {
      FirstMatchAt(key, Concat(groups, 0), i);
    }
  }

  /** A name whose lower-cased form has no surrounding white space is looked
      up by its lower-cased form. */
  lemma {:induction false} LookupKeyUnpadded(name: string)
    requires name != [] && !IsSpace(Lower(name)[0]) && !IsSpace(Lower(name)[|name| - 1])
    ensures LookupKey(name) == Lower(name)
  {
    TrimUnpadded(Lower(name));
  }

  /** The first five keys all begin with 'comp'. */
  lemma {:induction false} LeadingKeysHaveP()
    ensures forall i :: 0 <= i < 5 ==> 'p' in Group(0)[i].0
  {
    assert Group(0)[0].0[3] == 'p';
    assert Group(0)[1].0[3] == 'p';
    assert Group(0)[2].0[3] == 'p';
    assert Group(0)[3].0[3] == 'p';
    assert Group(0)[4].0[3] == 'p';
  }

  /** A lookup key without the letter 'p' includes none of the first five
      keys. */
  lemma {:induction false} NoLeadingHit(key: string)
    requires 'p' !in key
    ensures forall j :: 0 <= j < 5 ==> !Contains(key, Group(0)[j].0)
  {
    LeadingKeysHaveP();
    forall j | 0 <= j < 5 ensures !Contains(key, Group(0)[j].0) {
      if Contains(key, Group(0)[j].0) {
        ContainsChars(key, Group(0)[j].0, 'p');
      }
    }
  }

  /** A name whose lookup key includes 'computer' is normalised to "Computer
      Engineering", whatever else it says: 'computer' (colleges.js:9) is the
      first key scanned, ahead of 'computer science' (colleges.js:11). */
  lemma {:induction false} ComputerKeyWins(name: string)
    requires name != "" && Contains(LookupKey(name), "computer")
    ensures NormalizeBranchName(Some(name)) == "Computer Engineering"
  {
    var key := LookupKey(name);
    assert FirstHit(key, Group(0), 0);
    FirstMatchAt(key, Group(0), 0);
  }

  /** The scan of the first group for a key without 'p' that includes 'cs':
      'cse' (colleges.js:14) or else 'cs' (colleges.js:15) is the first
      hit. */
  lemma {:induction false} CsGroupHit(key: string)
    requires Contains(key, "cs") && 'p' !in key
    ensures FirstMatch(key, Group(0)) == Some("Computer Science and Engineering")
  {
    NoLeadingHit(key);
    if Contains(key, "cse") {
      assert FirstHit(key, Group(0), 5);
      FirstMatchAt(key, Group(0), 5);
    } else {
      assert FirstHit(key, Group(0), 6);
      FirstMatchAt(key, Group(0), 6);
    }
  }

  /** A name whose lookup key includes 'cs' but no letter 'p' is normalised
      to "Computer Science and Engineering": 'cse' and 'cs'
      (colleges.js:14-15) are scanned before every key that is not a 'comp...'
      key, however well that later key fits. */
  lemma {:induction false} CsKeyWins(name: string)
    requires name != "" && Contains(LookupKey(name), "cs") && 'p' !in LookupKey(name)
    ensures NormalizeBranchName(Some(name)) == "Computer Science and Engineering"
  {
    CsGroupHit(LookupKey(name));
  }
}
