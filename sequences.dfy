/** The in-place array edits the shortlist code performs with
    `Array.prototype.splice`: removing one element, inserting one, and moving
    one element to another position (college-predictor-backend/routes/collegeList.js:277-283
    and college-predictor-frontend/src/pages/CollegeList.jsx:124-126). */
module Sequences {

  /** `s.splice(i, 1)`: the sequence without its element at `i`. */
  function RemoveAt<T>(s: seq<T>, i: nat): (r: seq<T>)
    requires i < |s|
    ensures |r| == |s| - 1
    ensures forall k :: 0 <= k < i ==> r[k] == s[k]
    ensures forall k :: i <= k < |r| ==> r[k] == s[k + 1]
  {
    s[..i] + s[i + 1..]
  }

  /** `s.splice(j, 0, x)`: `x` inserted before position `j`. */
  function InsertAt<T>(s: seq<T>, j: nat, x: T): (r: seq<T>)
    requires j <= |s|
    ensures |r| == |s| + 1 && r[j] == x
    ensures forall k :: 0 <= k < j ==> r[k] == s[k]
    ensures forall k :: j < k < |r| ==> r[k] == s[k - 1]
  {
    s[..j] + [x] + s[j..]
  }

  /** Taking the element at `i` out and putting it back at `j`. */
  function Move<T>(s: seq<T>, i: nat, j: nat): (r: seq<T>)
    requires i < |s| && j < |s|
    ensures |r| == |s|
  {
    InsertAt(RemoveAt(s, i), j, s[i])
  }

  /** The moved element lands at `j`, and with it taken out again the rest is
      the original sequence without it: every other element keeps its
      relative order. */
  lemma {:induction false} MoveLands<T>(s: seq<T>, i: nat, j: nat)
    requires i < |s| && j < |s|
    ensures Move(s, i, j)[j] == s[i]
    ensures RemoveAt(Move(s, i, j), j) == RemoveAt(s, i)
  {
    var r, t := Move(s, i, j), RemoveAt(s, i);
    assert forall k :: 0 <= k < |t| ==> RemoveAt(r, j)[k] == t[k] by {
      forall k | 0 <= k < |t| ensures RemoveAt(r, j)[k] == t[k] {
        if k >= j {
          assert RemoveAt(r, j)[k] == r[k + 1];
        }
      }
    }
  }

  /** Moving an element to where it already is changes nothing. */
  lemma {:induction false} MoveInPlace<T>(s: seq<T>, i: nat)
    requires i < |s|
    ensures Move(s, i, i) == s
  {
    var r := Move(s, i, i);
    forall k | 0 <= k < |s| ensures r[k] == s[k] {
      if k > i {
        assert r[k] == RemoveAt(s, i)[k - 1];
      }
    }
  }

  /** The position in `s` that position `k` of `Move(s, i, j)` came from. */
  function Source(i: nat, j: nat, k: nat): nat {
    if k == j then i
    else
      var m := if k < j then k else k - 1;
      if m < i then m else m + 1
  }

  lemma {:induction false} MoveFrom<T>(s: seq<T>, i: nat, j: nat, k: nat)
    requires i < |s| && j < |s| && k < |s|
    ensures Source(i, j, k) < |s|
    ensures Move(s, i, j)[k] == s[Source(i, j, k)]
  {
    if k > j {
      assert Move(s, i, j)[k] == RemoveAt(s, i)[k - 1];
    }
  }

  /** `Source` is one-to-one, so a move is a permutation. */
  lemma {:induction false} SourceInjective(i: nat, j: nat, k1: nat, k2: nat)
    requires k1 != k2
    ensures Source(i, j, k1) != Source(i, j, k2)
  {
  }

  /** No two positions of `s` hold the same value under `key`. */
  ghost predicate Distinct<T, K>(key: T -> K, s: seq<T>) {
    forall a, b :: 0 <= a < b < |s| ==> key(s[a]) != key(s[b])
  }

  lemma {:induction false} RemoveAtMultiset<T>(s: seq<T>, i: nat)
    requires i < |s|
    ensures multiset(RemoveAt(s, i)) + multiset{s[i]} == multiset(s)
  {
    assert s == s[..i] + [s[i]] + s[i + 1..];
  }

  lemma {:induction false} InsertAtMultiset<T>(s: seq<T>, j: nat, x: T)
    requires j <= |s|
    ensures multiset(InsertAt(s, j, x)) == multiset(s) + multiset{x}
  {
    assert s == s[..j] + s[j..];
  }

  /** A move keeps the elements and their multiplicities. */
  lemma {:induction false} MovePermutes<T>(s: seq<T>, i: nat, j: nat)
    requires i < |s| && j < |s|
    ensures multiset(Move(s, i, j)) == multiset(s)
  {
    RemoveAtMultiset(s, i);
    InsertAtMultiset(RemoveAt(s, i), j, s[i]);
  }

  /** A move keeps keys distinct. */
  lemma {:induction false} MoveDistinct<T, K>(key: T -> K, s: seq<T>, i: nat, j: nat)
    requires i < |s| && j < |s| && Distinct(key, s)
    ensures Distinct(key, Move(s, i, j))
  {
    var r := Move(s, i, j);
    forall a, b | 0 <= a < b < |r|
      ensures key(r[a]) != key(r[b])
    {
      MoveFrom(s, i, j, a);
      MoveFrom(s, i, j, b);
      SourceInjective(i, j, a, b);
      var x, y := Source(i, j, a), Source(i, j, b);
      if x < y {
        assert key(s[x]) != key(s[y]);
      } else {
        assert key(s[y]) != key(s[x]);
      }
    }
  }

  /** Removing an element keeps keys distinct. */
  lemma {:induction false} RemoveDistinct<T, K>(key: T -> K, s: seq<T>, i: nat)
    requires i < |s| && Distinct(key, s)
    ensures Distinct(key, RemoveAt(s, i))
  {
    var r := RemoveAt(s, i);
    forall a, b | 0 <= a < b < |r|
      ensures key(r[a]) != key(r[b])
    {
      var x := if a < i then a else a + 1;
      var y := if b < i then b else b + 1;
      assert r[a] == s[x] && r[b] == s[y] && x < y;
    }
  }
}
