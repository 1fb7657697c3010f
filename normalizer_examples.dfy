/** Concrete branch names run through the normaliser of
    college-predictor-backend/routes/colleges.js, showing that its scan in
    table order, not the most specific key, decides the canonical name. */
module NormalizerExamples {
  import opened Wrappers
  import opened Text
  import opened BranchNormalizer

  lemma {:induction false} ComputerScienceUnpadded(name: string)
    requires name == "Computer Science and Engineering"
    ensures !IsSpace(Lower(name)[0]) && !IsSpace(Lower(name)[|name| - 1])
  {
  }

  lemma {:induction false} ComputerSciencePrefix(name: string)
    requires name == "Computer Science and Engineering"
    ensures Lower(name)[..8] == "computer"
  {
    assert name[..8] == "Computer";
    assert Lower("Computer") == "computer";
    assert Lower(name)[..8] == Lower(name[..8]);
  }

  /** "Computer Science and Engineering" is normalised to "Computer
      Engineering", although the table maps the very same text to "Computer
      Science and Engineering" (colleges.js:12). */
  lemma {:induction false} ComputerScienceCollapses(name: string)
    requires name == "Computer Science and Engineering"
    ensures NormalizeBranchName(Some(name)) == "Computer Engineering"
  {
    ComputerScienceUnpadded(name);
    ComputerSciencePrefix(name);
    ContainsSlice(Lower(name), "computer", 0);
    LookupKeyUnpadded(name);
    ComputerKeyWins(name);
  }

  lemma {:induction false} RoboticsLetters(name: string)
    requires name == "Robotics"
    ensures !IsSpace(Lower(name)[0]) && !IsSpace(Lower(name)[|name| - 1])
    ensures Lower(name)[6..8] == "cs" && 'p' !in Lower(name)
  {
    assert name[6..8] == "cs";
    assert 'p' !in name && 'P' !in name;
  }

  /** "Robotics" is normalised to "Computer Science and Engineering", not to
      "Robotics Engineering" (colleges.js:106): "robotics" ends in 'cs'. */
  lemma {:induction false} RoboticsBecomesComputerScience(name: string)
    requires name == "Robotics"
    ensures NormalizeBranchName(Some(name)) == "Computer Science and Engineering"
  {
    RoboticsLetters(name);
    ContainsSlice(Lower(name), "cs", 6);
    LookupKeyUnpadded(name);
    CsKeyWins(name);
  }

  lemma {:induction false} ElectronicsLetters(name: string)
    requires name == "Electronics Engineering"
    ensures !IsSpace(Lower(name)[0]) && !IsSpace(Lower(name)[|name| - 1])
    ensures Lower(name)[9..11] == "cs" && 'p' !in Lower(name)
  {
    assert name[9..11] == "cs";
    assert 'p' !in name && 'P' !in name;
  }

  /** "Electronics Engineering" is normalised to "Computer Science and
      Engineering", not to itself (colleges.js:23): "electronics" ends in
      'cs'. */
  lemma {:induction false} ElectronicsBecomesComputerScience(name: string)
    requires name == "Electronics Engineering"
    ensures NormalizeBranchName(Some(name)) == "Computer Science and Engineering"
  {
    ElectronicsLetters(name);
    ContainsSlice(Lower(name), "cs", 9);
    LookupKeyUnpadded(name);
    CsKeyWins(name);
  }

  /** Normalisation is not idempotent: the canonical name produced for
      "Robotics" is itself rewritten by a second pass. */
  lemma {:induction false} NormalizeNotIdempotent(name: string)
    requires name == "Robotics"
    ensures NormalizeBranchName(Some(NormalizeBranchName(Some(name)))) != NormalizeBranchName(Some(name))
  {
    RoboticsBecomesComputerScience(name);
    ComputerScienceCollapses(NormalizeBranchName(Some(name)));
  }
}
