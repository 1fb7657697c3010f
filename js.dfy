/** The JavaScript value conventions the handlers rely on: truthiness of the
    numbers and strings that arrive in a request body, and `parseFloat` of the
    numeric ones. */
module Js {
  import opened Wrappers

  /** A numeric request field as it reaches a handler: missing, a JSON number,
      a non-empty numeric string (as an HTML input sends it), or the empty
      string. */
  datatype NumArg = Undefined | Number(num: real) | NumericText(text: real) | Blank

  /** `if (x)` on such a field: the number 0 and the empty string are falsy,
      the string "0" is truthy. */
  predicate Truthy(a: NumArg) {
    a.NumericText? || (a.Number? && a.num != 0.0)
  }

  /** `parseFloat(x)` of a field that holds a number or numeric text. */
  function ParseFloat(a: NumArg): real
    requires a.Number? || a.NumericText?
  {
    if a.Number? then a.num else a.text
  }

  /** `if (s)` on an optional string: missing and "" are falsy. */
  predicate TruthyStr(s: Option<string>) {
    s.Some? && s.value != ""
  }

  /** `Math.max(lo, Math.min(x, hi))`. */
  function Clamp(x: int, lo: int, hi: int): (r: int)
    requires lo <= hi
    ensures lo <= r <= hi
    ensures lo <= x <= hi ==> r == x
    ensures x < lo ==> r == lo
    ensures x > hi ==> r == hi
  {
    if x < lo then lo else if x > hi then hi else x
  }

  /** `Math.ceil(n / d)` for a count and a positive divisor. */
  function CeilDiv(n: nat, d: nat): (r: nat)
    requires d > 0
    ensures (r - 1) * d < n <= r * d || (n == 0 && r == 0)
  {
    (n + d - 1) / d
  }

  /** `Math.ceil(n / d)` for a count and any non-zero integer divisor; a
      negative divisor gives a quotient at or below zero. */
  function CeilDivInt(n: nat, d: int): (r: int)
    requires d != 0
    ensures d > 0 ==> r == CeilDiv(n, d)
    ensures d < 0 ==> r <= 0 && (r * d <= n < (r - 1) * d || (n == 0 && r == 0))
  {
    if d > 0 then CeilDiv(n, d) else -(n / -d)
  }

  /** `Array.prototype.slice(start, end)`: negative positions count from the
      end, and both ends are clipped into the sequence. */
  function Slice<T>(s: seq<T>, start: int, end: int): (r: seq<T>)
    ensures |r| <= |s|
  {
    var a := if start < 0 then (if |s| + start < 0 then 0 else |s| + start)
             else (if start > |s| then |s| else start);
    var b := if end < 0 then (if |s| + end < 0 then 0 else |s| + end)
             else (if end > |s| then |s| else end);
    if a < b then s[a..b] else []
  }

  /** `Array.prototype.filter(p)`: the elements that pass `p`, in order. */
  function Filter<T(!new)>(p: T -> bool, s: seq<T>): (r: seq<T>)
    ensures |r| <= |s|
  {
    if s == [] then []
    else Filter(p, s[..|s| - 1]) + (if p(s[|s| - 1]) then [s[|s| - 1]] else [])
  }

  /** `Array.prototype.findIndex(p)`: the position of the first element that
      passes `p`, or -1; `find` is the element at that position. */
  function FirstIndex<T>(p: T -> bool, s: seq<T>): (r: int)
    ensures -1 <= r < |s|
    ensures r == -1 <==> forall k :: 0 <= k < |s| ==> !p(s[k])
    ensures r >= 0 ==> p(s[r]) && forall k :: 0 <= k < r ==> !p(s[k])
  {
    if s == [] then -1
    else if p(s[0]) then 0
    else
      var r := FirstIndex(p, s[1..]);
      assert forall k :: 1 <= k < |s| ==> s[k] == s[1..][k - 1];
      if r == -1 then -1 else r + 1
  }

  /** What `filter` keeps: exactly the elements that pass. */
  lemma {:induction false} FilterMembers<T(!new)>(p: T -> bool, s: seq<T>)
    ensures forall x :: x in Filter(p, s) <==> x in s && p(x)
  {
    if s != [] {
      FilterMembers(p, s[..|s| - 1]);
      assert s == s[..|s| - 1] + [s[|s| - 1]];
    }
  }

  /** Filtering distributes over concatenation. */
  lemma {:induction false} FilterAppend<T(!new)>(p: T -> bool, a: seq<T>, b: seq<T>)
    ensures Filter(p, a + b) == Filter(p, a) + Filter(p, b)
    decreases |b|
  {
    if b != [] {
      var b' := b[..|b| - 1];
      assert a + b == (a + b') + [b[|b| - 1]];
      assert (a + b)[..|a + b| - 1] == a + b';
      FilterAppend(p, a, b');
    } else {
      assert a + b == a;
    }
  }

  /** Two tests that agree on every element filter alike. */
  lemma {:induction false} FilterAgree<T(!new)>(p: T -> bool, q: T -> bool, s: seq<T>)
    requires forall x :: x in s ==> p(x) == q(x)
    ensures Filter(p, s) == Filter(q, s)
  {
    if s != [] {
      assert forall x :: x in s[..|s| - 1] ==> x in s;
      FilterAgree(p, q, s[..|s| - 1]);
    }
  }

  /** A test that every element passes keeps the whole sequence. */
  lemma {:induction false} FilterAll<T(!new)>(p: T -> bool, s: seq<T>)
    requires forall x :: x in s ==> p(x)
    ensures Filter(p, s) == s
  {
    if s != [] {
      var init, last := s[..|s| - 1], s[|s| - 1];
      assert s == init + [last];
      assert p(last);
      FilterAll(p, init);
    }
  }

  /** A test that no element passes filters everything out. */
  lemma {:induction false} FilterNone<T(!new)>(p: T -> bool, s: seq<T>)
    requires forall x :: x in s ==> !p(x)
    ensures Filter(p, s) == []
  {
    if s != [] {
      var init, last := s[..|s| - 1], s[|s| - 1];
      assert s == init + [last];
      assert !p(last);
      FilterNone(p, init);
    }
  }
}
