/** The ordering step of the prediction route
    (college-predictor-backend/routes/colleges.js:237 and 335):
    `sort((a, b) => b.cutoffValue - a.cutoffValue)` on records that pair a
    college with its representative cutoff. `Array.prototype.sort` is stable,
    so the result is the unique stable descending order; it is written here
    as an insertion sort. */
module Ranking {
  import opened Js

  /** A college (or any item) paired with its representative cutoff. */
  datatype Scored<T> = Scored(item: T, cutoff: real)

  ghost predicate SortedDesc<T>(s: seq<Scored<T>>) {
    forall i, j :: 0 <= i < j < |s| ==> s[i].cutoff >= s[j].cutoff
  }

  /** Places `x` after every element whose cutoff is at least its own, so that
      among equal cutoffs the later input stays later. */
  function InsertDesc<T>(s: seq<Scored<T>>, x: Scored<T>): (r: seq<Scored<T>>)
    ensures multiset(r) == multiset(s) + multiset{x}
  {
    if s == [] then [x]
    else if s[0].cutoff >= x.cutoff then
      assert s == [s[0]] + s[1..];
      [s[0]] + InsertDesc(s[1..], x)
    else [x] + s
  }

  /** Inserting into a descending sequence keeps it descending. */
  lemma {:induction false} InsertDescSorted<T>(s: seq<Scored<T>>, x: Scored<T>)
    requires SortedDesc(s)
    ensures SortedDesc(InsertDesc(s, x))
  {
    if s != [] && s[0].cutoff >= x.cutoff {
      var t := InsertDesc(s[1..], x);
      InsertDescSorted(s[1..], x);
      forall k | 0 <= k < |t|
        ensures s[0].cutoff >= t[k].cutoff
      {
        assert t[k] in multiset(t);
        if t[k] != x {
          assert t[k] in multiset(s[1..]);
          var m :| 0 <= m < |s[1..]| && s[1..][m] == t[k];
          assert s[m + 1] == t[k];
        }
      }
      assert InsertDesc(s, x) == [s[0]] + t;
    }
  }

  /** The stable descending sort of `s`. */
  function SortDesc<T>(s: seq<Scored<T>>): (r: seq<Scored<T>>)
    ensures multiset(r) == multiset(s)
    ensures SortedDesc(r)
  {
    if s == [] then []
    else
      assert s == s[..|s| - 1] + [s[|s| - 1]];
      InsertDescSorted(SortDesc(s[..|s| - 1]), s[|s| - 1]);
      InsertDesc(SortDesc(s[..|s| - 1]), s[|s| - 1])
  }

  /** Filtering a one-element sequence. */
  lemma {:induction false} FilterSingleton<T(!new)>(p: T -> bool, x: T)
    ensures Filter(p, [x]) == if p(x) then [x] else []
  {
    assert [x][..0] == [];
  }

  /** An element above the head of a sorted sequence is inserted in front of
      any filtering of it. */
  lemma {:induction false} InsertAboveFiltered<T(!new)>(p: Scored<T> -> bool, s: seq<Scored<T>>, x: Scored<T>)
    requires SortedDesc(s) && s != [] && s[0].cutoff < x.cutoff
    ensures InsertDesc(Filter(p, s), x) == [x] + Filter(p, s)
  {
    var f := Filter(p, s);
    if f != [] {
      FilterMembers(p, s);
      assert f[0] in s;
    }
  }

  /** Inserting below the head keeps the head. */
  lemma {:induction false} InsertBelowHead<T>(y: Scored<T>, f: seq<Scored<T>>, x: Scored<T>)
    requires y.cutoff >= x.cutoff
    ensures InsertDesc([y] + f, x) == [y] + InsertDesc(f, x)
  {
    var u := [y] + f;
    assert u[0] == y && u[1..] == f;
  }

  /** The step of `FilterInsert` where `x` goes below the head `y`. */
  lemma {:induction false} FilterInsertBelowHead<T(!new)>(p: Scored<T> -> bool, y: Scored<T>, t: seq<Scored<T>>, x: Scored<T>)
    requires y.cutoff >= x.cutoff
    requires Filter(p, InsertDesc(t, x)) == if p(x) then InsertDesc(Filter(p, t), x) else Filter(p, t)
    ensures Filter(p, [y] + InsertDesc(t, x)) == if p(x) then InsertDesc(Filter(p, [y] + t), x) else Filter(p, [y] + t)
  {
    var fy := Filter(p, [y]);
    FilterAppend(p, [y], InsertDesc(t, x));
    FilterAppend(p, [y], t);
    FilterSingleton(p, y);
    if p(x) {
      calc {
        Filter(p, [y] + InsertDesc(t, x));
        fy + Filter(p, InsertDesc(t, x));
        fy + InsertDesc(Filter(p, t), x);
        { if p(y) { InsertBelowHead(y, Filter(p, t), x); } else { assert fy == []; assert fy + Filter(p, t) == Filter(p, t); } }
        InsertDesc(fy + Filter(p, t), x);
        InsertDesc(Filter(p, [y] + t), x);
      }
    }
  }

  /** Filtering after an insertion is inserting into the filtered sequence. */
  lemma {:induction false} FilterInsert<T(!new)>(p: Scored<T> -> bool, s: seq<Scored<T>>, x: Scored<T>)
    requires SortedDesc(s)
    ensures Filter(p, InsertDesc(s, x)) == if p(x) then InsertDesc(Filter(p, s), x) else Filter(p, s)
    decreases |s|
  {
    if s == [] {
      FilterSingleton(p, x);
    } else if s[0].cutoff >= x.cutoff {
      var t := s[1..];
      assert s == [s[0]] + t;
      FilterInsert(p, t, x);
      FilterInsertBelowHead(p, s[0], t, x);
    } else {
      FilterAppend(p, [x], s);
      FilterSingleton(p, x);
      if p(x) {
        InsertAboveFiltered(p, s, x);
      }
    }
  }

  /** Sorting and filtering commute: filtering the sorted records gives the
      sorted filtered records. The "Any"-branch path filters before sorting
      (colleges.js:222-237) and the specific-branch path sorts before
      filtering (colleges.js:335-350); this shows the order does not
      matter. */
  lemma {:induction false} FilterSortCommute<T(!new)>(p: Scored<T> -> bool, s: seq<Scored<T>>)
    ensures Filter(p, SortDesc(s)) == SortDesc(Filter(p, s))
    decreases |s|
  {
    if s != [] {
      var init, last := s[..|s| - 1], s[|s| - 1];
      var sorted := SortDesc(init);
      assert SortDesc(s) == InsertDesc(sorted, last);
      FilterSortCommute(p, init);
      FilterInsert(p, sorted, last);
      var f := Filter(p, s);
      if p(last) {
        assert f == Filter(p, init) + [last];
        assert f[..|f| - 1] == Filter(p, init) && f[|f| - 1] == last;
        assert SortDesc(f) == InsertDesc(SortDesc(Filter(p, init)), last);
      } else {
        assert f == Filter(p, init);
      }
    }
  }

  /** One step of the sort: the last record is inserted into the sorted rest. */
  lemma {:induction false} SortDescStep<T>(s: seq<Scored<T>>)
    requires s != []
    ensures SortDesc(s) == InsertDesc(SortDesc(s[..|s| - 1]), s[|s| - 1])
  {
  }

  /** Every record of `s` has cutoff `k`. */
  ghost predicate AllAt<T>(s: seq<Scored<T>>, k: real) {
    forall i :: 0 <= i < |s| ==> s[i].cutoff == k
  }

  /** Records that all share one cutoff are left in input order. */
  lemma {:induction false} SortConstant<T>(s: seq<Scored<T>>, k: real)
    requires AllAt(s, k)
    ensures SortDesc(s) == s
    decreases |s|
  {
    if s != [] {
      var init, last := s[..|s| - 1], s[|s| - 1];
      assert s == init + [last];
      SortDescStep(s);
      assert AllAt(init, k);
      SortConstant(init, k);
      AppendBelowAll(init, last);
    }
  }

  /** Inserting a record no higher than any other appends it. */
  lemma {:induction false} AppendBelowAll<T>(s: seq<Scored<T>>, x: Scored<T>)
    requires forall i :: 0 <= i < |s| ==> s[i].cutoff >= x.cutoff
    ensures InsertDesc(s, x) == s + [x]
    decreases |s|
  {
    if s != [] {
      AppendBelowAll(s[1..], x);
      assert s == [s[0]] + s[1..];
    }
  }

  /** The sort is stable: the records sharing any one cutoff appear in the
      output in the order they had in the input. */
  lemma {:induction false} SortStable<T(!new)>(s: seq<Scored<T>>, k: real)
    ensures Filter((r: Scored<T>) => r.cutoff == k, SortDesc(s)) == Filter((r: Scored<T>) => r.cutoff == k, s)
  {
    var p := (r: Scored<T>) => r.cutoff == k;
    FilterSortCommute(p, s);
    var f := Filter(p, s);
    FilterMembers(p, s);
    assert AllAt(f, k) by {
      forall i | 0 <= i < |f| ensures f[i].cutoff == k {
        assert f[i] in f;
      }
    }
    SortConstant(f, k);
  }
}
