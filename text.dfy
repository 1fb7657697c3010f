/** The string operations the handlers call: ASCII case mapping
    (`toLowerCase`/`toUpperCase` restricted to ASCII), `trim` with JavaScript's
    white-space set, and `includes` (substring search). */
module Text {

  predicate IsUpper(c: char) { 'A' <= c <= 'Z' }
  predicate IsLower(c: char) { 'a' <= c <= 'z' }
  predicate IsDigit(c: char) { '0' <= c <= '9' }
  predicate IsAlnum(c: char) { IsUpper(c) || IsLower(c) || IsDigit(c) }

  /** JavaScript's `\s`: WhiteSpace and LineTerminator code points. */
  predicate IsSpace(c: char) {
    var n := c as int;
    (9 <= n <= 13) || n == 32 || n == 0xA0 || n == 0x1680 || (0x2000 <= n <= 0x200A)
    || n == 0x2028 || n == 0x2029 || n == 0x202F || n == 0x205F || n == 0x3000 || n == 0xFEFF
  }

  function LowerChar(c: char): (r: char)
    ensures !IsUpper(r)
  {
    if IsUpper(c) then (c as int + 32) as char else c
  }

  function UpperChar(c: char): (r: char)
    ensures !IsLower(r)
  {
    if IsLower(c) then (c as int - 32) as char else c
  }

  function Lower(s: string): (r: string)
    ensures |r| == |s|
    ensures forall i :: 0 <= i < |s| ==> r[i] == LowerChar(s[i])
  {
    seq(|s|, i requires 0 <= i < |s| => LowerChar(s[i]))
  }

  function Upper(s: string): (r: string)
    ensures |r| == |s|
    ensures forall i :: 0 <= i < |s| ==> r[i] == UpperChar(s[i])
  {
    seq(|s|, i requires 0 <= i < |s| => UpperChar(s[i]))
  }

  /** `s` without its leading white space. */
  function TrimStart(s: string): string {
    if |s| > 0 && IsSpace(s[0]) then TrimStart(s[1..]) else s
  }

  /** `s` without its trailing white space. */
  function TrimEnd(s: string): string {
    if |s| > 0 && IsSpace(s[|s| - 1]) then TrimEnd(s[..|s| - 1]) else s
  }

  /** `String.prototype.trim`. */
  function Trim(s: string): string {
    TrimEnd(TrimStart(s))
  }

  /** What `TrimStart` removes is a prefix of white space, and what it
      keeps does not start with white space. */
  lemma {:induction false} TrimStartShape(s: string)
    ensures var r := TrimStart(s);
      |r| <= |s| && r == s[|s| - |r|..] && (r == [] || !IsSpace(r[0])) &&
      forall i :: 0 <= i < |s| - |r| ==> IsSpace(s[i])
  {
    if |s| > 0 && IsSpace(s[0]) {
      TrimStartShape(s[1..]);
    }
  }

  /** What `TrimEnd` removes is a suffix of white space, and what it keeps
      does not end with white space. */
  lemma {:induction false} TrimEndShape(s: string)
    ensures var r := TrimEnd(s);
      |r| <= |s| && r == s[..|r|] && (r == [] || !IsSpace(r[|r| - 1])) &&
      forall i :: |r| <= i < |s| ==> IsSpace(s[i])
  {
    if |s| > 0 && IsSpace(s[|s| - 1]) {
      TrimEndShape(s[..|s| - 1]);
    }
  }

  /** A string that neither starts nor ends with white space trims to itself. */
  lemma {:induction false} TrimUnpadded(s: string)
    requires s == [] || (!IsSpace(s[0]) && !IsSpace(s[|s| - 1]))
    ensures Trim(s) == s
  {
  }

  /** A string trims to "" exactly when every character is white space. */
  lemma {:induction false} TrimEmptyIffBlank(s: string)
    ensures Trim(s) == [] <==> forall i :: 0 <= i < |s| ==> IsSpace(s[i])
  {
    var t := TrimStart(s);
    TrimStartShape(s);
    TrimEndShape(t);
    assert |t| > 0 ==> t[0] == s[|s| - |t|];
  }

  /** Trimming keeps a contiguous run of the input. */
  lemma {:induction false} TrimIsInfix(s: string)
    ensures exists a, b :: 0 <= a <= b <= |s| && Trim(s) == s[a..b]
  {
    var t := TrimStart(s);
    var a := |s| - |t|;
    var u := TrimEnd(t);
    TrimStartShape(s);
    TrimEndShape(t);
    var b := a + |u|;
    assert t == s[a..];
    assert u == t[..|u|];
    assert s[a..][..|u|] == s[a..b];
  }

  predicate MatchesAt(s: string, k: string, i: nat, j: nat)
    requires i + |k| <= |s| && j <= |k|
    decreases |k| - j
  {
    j == |k| || (s[i + j] == k[j] && MatchesAt(s, k, i, j + 1))
  }

  predicate ContainsFrom(s: string, k: string, i: nat)
    decreases |s| - i
  {
    i + |k| <= |s| && (MatchesAt(s, k, i, 0) || ContainsFrom(s, k, i + 1))
  }

  /** `s.includes(k)`, written as a left-to-right scan. */
  predicate Contains(s: string, k: string) {
    ContainsFrom(s, k, 0)
  }

  /** `k` occurs in `s` starting at position `p`. */
  ghost predicate OccursAt(k: string, s: string, p: int) {
    0 <= p && p + |k| <= |s| && s[p..p + |k|] == k
  }

  /** The reference meaning of `includes`: `k` occurs at some position of `s`. */
  ghost predicate OccursIn(k: string, s: string) {
    exists p :: OccursAt(k, s, p)
  }

  lemma {:induction false} MatchesAtSpec(s: string, k: string, i: nat, j: nat)
    requires i + |k| <= |s| && j <= |k|
    ensures MatchesAt(s, k, i, j) <==> s[i + j..i + |k|] == k[j..]
    decreases |k| - j
  {
    if j < |k| {
      MatchesAtSpec(s, k, i, j + 1);
      assert s[i + j..i + |k|] == [s[i + j]] + s[i + j + 1..i + |k|];
      assert k[j..] == [k[j]] + k[j + 1..];
    }
  }

  lemma {:induction false} ContainsFromSpec(s: string, k: string, i: nat)
    ensures ContainsFrom(s, k, i) <==> exists p :: i <= p && OccursAt(k, s, p)
    decreases |s| - i
  {
    if i + |k| <= |s| {
      MatchesAtSpec(s, k, i, 0);
      ContainsFromSpec(s, k, i + 1);
      assert k[0..] == k;
      if MatchesAt(s, k, i, 0) {
        assert OccursAt(k, s, i);
      }
      if exists p :: i <= p && OccursAt(k, s, p) {
        var p :| i <= p && OccursAt(k, s, p);
        if p > i {
          assert i + 1 <= p;
        }
      }
    } else {
      forall p | i <= p ensures !OccursAt(k, s, p) {}
    }
  }

  /** The scan agrees with the reference meaning. */
  lemma {:induction false} ContainsIffOccurs(s: string, k: string)
    ensures Contains(s, k) <==> OccursIn(k, s)
  {
    ContainsFromSpec(s, k, 0);
  }

  /** Every string includes the empty string. */
  lemma {:induction false} ContainsEmpty(s: string)
    ensures Contains(s, "")
  {
    assert MatchesAt(s, "", 0, 0);
  }

  /** A string includes each of its slices. */
  lemma {:induction false} ContainsSlice(s: string, k: string, p: nat)
    requires p + |k| <= |s| && s[p..p + |k|] == k
    ensures Contains(s, k)
  {
    assert OccursAt(k, s, p);
    ContainsIffOccurs(s, k);
  }

  /** If `s` includes `k`, every character of `k` occurs in `s`. */
  lemma {:induction false} ContainsChars(s: string, k: string, c: char)
    requires Contains(s, k) && c in k
    ensures c in s
  {
    ContainsIffOccurs(s, k);
    var p :| OccursAt(k, s, p);
    var j :| 0 <= j < |k| && k[j] == c;
    assert s[p + j] == c;
  }
}
