/** The cutoff resolver of the prediction route
    (college-predictor-backend/routes/colleges.js:186-197 and 283-290): a
    stored cutoff is absent, a plain number, an unparsable text, or an
    Extended-JSON wrapper object carrying `$numberDouble` and/or
    `$numberInt`. */
module Cutoff {
  import opened Wrappers
  import opened Text

  /** A value read from `branch.cutoffs[CATEGORY]`. `Missing` stands for both
      `undefined` and `null`; `Tagged(None, None)` is a wrapper object with
      neither tag. */
  datatype RawCutoff =
    | Missing
    | Plain(v: real)
    | Unparsable
    | Tagged(dbl: Option<real>, intg: Option<int>)

  /** A JavaScript number as the handler computes with it: finite, or NaN. */
  datatype Num = Fin(r: real) | NaN

  /** The cutoff stored for `category`, looked up under its upper-cased
      spelling (`b.cutoffs[category.toUpperCase()]`). */
  function CutoffFor(cutoffs: map<string, RawCutoff>, category: string): (c: RawCutoff)
    ensures Upper(category) !in cutoffs ==> c.Missing?
    ensures Upper(category) in cutoffs ==> c == cutoffs[Upper(category)]
  {
    if Upper(category) in cutoffs then cutoffs[Upper(category)] else Missing
  }

  /** The numeric value the handler gives a stored cutoff, or `None` when it
      skips the cutoff as absent. */
  function Resolve(c: RawCutoff): (r: Option<Num>)
    ensures r.None? <==> c.Missing?
    ensures r == Some(NaN) <==> c.Unparsable?
  {
    match c
    case Missing => None
    case Plain(v) => Some(Fin(v))
    case Unparsable => Some(NaN)
    case Tagged(dbl, intg) =>
      if dbl.Some? then Some(Fin(dbl.value))
      else if intg.Some? then Some(Fin(intg.value as real))
      else Some(Fin(0.0))
  }

  /** `p >= v`: false whenever `v` is NaN. */
  predicate AtLeast(p: real, v: Num) {
    v.Fin? && p >= v.r
  }

  /** `v > h`: false whenever `v` is NaN. */
  predicate Exceeds(v: Num, h: real) {
    v.Fin? && v.r > h
  }

  /** A plain number and a `$numberDouble` wrapper of the same value resolve
      alike, whatever `$numberInt` the wrapper also carries. */
  lemma {:induction false} PlainAgreesWithDouble(x: real, i: Option<int>)
    ensures Resolve(Plain(x)) == Resolve(Tagged(Some(x), i))
  {
  }

  /** `$numberDouble` takes priority over `$numberInt`. */
  lemma {:induction false} DoubleTagWins(d: real, i: int)
    ensures Resolve(Tagged(Some(d), Some(i))) == Some(Fin(d))
  {
  }

  /** A `$numberInt` wrapper resolves to the integer, widened. */
  lemma {:induction false} IntTagWidens(i: int)
    ensures Resolve(Tagged(None, Some(i))) == Resolve(Plain(i as real))
  {
  }

  /** A wrapper object with neither tag resolves to 0, which is not the same
      as an absent cutoff. */
  lemma {:induction false} UntaggedIsZeroNotAbsent()
    ensures Resolve(Tagged(None, None)) == Some(Fin(0.0))
    ensures Resolve(Tagged(None, None)) != Resolve(Missing)
  {
  }

  /** NaN fails every comparison. */
  lemma {:induction false} NaNComparesFalse(p: real, h: real)
    ensures !AtLeast(p, NaN) && !Exceeds(NaN, h)
  {
  }
}
