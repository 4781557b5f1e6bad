/** Floating-point cells as the backtest sees them.

    A pandas/NumPy float64 cell is modelled by `Float`: `Fin(v)` is a finite value,
    held exactly as a Dafny `real`; `NaN` stands for NaN and also for the infinities
    that a division by zero yields. Arithmetic propagates `NaN`, and comparisons with
    `NaN` are false, as in IEEE 754. Booleans stored in a table are 1.0 and 0.0. */
module Numerics {

  datatype Float = NaN | Fin(v: real) {
    /** The value of a finite cell (0 for NaN, where it is never used). */
    function Real(): real {
      if Fin? then v else 0.0
    }
  }

  function Add(a: Float, b: Float): (r: Float)
    ensures r.Fin? <==> a.Fin? && b.Fin?
    ensures r.Fin? ==> r.v == a.v + b.v
  {
    if a.Fin? && b.Fin? then Fin(a.v + b.v) else NaN
  }

  function Sub(a: Float, b: Float): (r: Float)
    ensures r.Fin? <==> a.Fin? && b.Fin?
    ensures r.Fin? ==> r.v == a.v - b.v
  {
    if a.Fin? && b.Fin? then Fin(a.v - b.v) else NaN
  }

  function Mul(a: Float, b: Float): (r: Float)
    ensures r.Fin? <==> a.Fin? && b.Fin?
    ensures r.Fin? ==> r.v == a.v * b.v
  {
    if a.Fin? && b.Fin? then Fin(a.v * b.v) else NaN
  }

  /** Division; a zero divisor gives NaN (IEEE gives NaN or an infinity). */
  function Div(a: Float, b: Float): (r: Float)
    ensures r.Fin? <==> a.Fin? && b.Fin? && b.v != 0.0
    ensures r.Fin? ==> r.v == a.v / b.v
  {
    if a.Fin? && b.Fin? && b.v != 0.0 then Fin(a.v / b.v) else NaN
  }

  function Abs(a: Float): (r: Float)
    ensures r.Fin? <==> a.Fin?
    ensures r.Fin? ==> r.v >= 0.0 && (r.v == a.v || r.v == -a.v)
  {
    if a.Fin? then Fin(if a.v < 0.0 then -a.v else a.v) else NaN
  }

  /** `a > b`; false when either side is NaN. */
  predicate Gt(a: Float, b: Float) {
    a.Fin? && b.Fin? && a.v > b.v
  }

  /** `a < b`; false when either side is NaN. */
  predicate Lt(a: Float, b: Float) {
    a.Fin? && b.Fin? && a.v < b.v
  }

  /** `a != b`; true when either side is NaN, since NaN equals nothing. */
  predicate Ne(a: Float, b: Float) {
    a.NaN? || b.NaN? || a.v != b.v
  }

  /** Python truth value of a cell: NaN is truthy, a number when it is nonzero. */
  predicate Truthy(a: Float) {
    a.NaN? || a.v != 0.0
  }

  /** A boolean stored in a table cell. */
  function FromBool(b: bool): (r: Float)
    ensures r.Fin? && Truthy(r) == b
  {
    if b then Fin(1.0) else Fin(0.0)
  }

  /** Left-to-right accumulation `acc = 0; for x in s: acc += x`. */
  function SumF(s: seq<Float>): Float
  {
    if |s| == 0 then Fin(0.0) else Add(SumF(s[..|s| - 1]), s[|s| - 1])
  }

  function Sum(s: seq<real>): real
  {
    if |s| == 0 then 0.0 else Sum(s[..|s| - 1]) + s[|s| - 1]
  }

  function Mean(s: seq<real>): real
    requires |s| > 0
  {
    Sum(s) / (|s| as real)
  }

  predicate AllFin(s: seq<Float>) {
    forall i :: 0 <= i < |s| ==> s[i].Fin?
  }

  function Values(s: seq<Float>): (r: seq<real>)
    requires AllFin(s)
    ensures |r| == |s| && forall i :: 0 <= i < |s| ==> r[i] == s[i].v
  {
    if |s| == 0 then [] else Values(s[..|s| - 1]) + [s[|s| - 1].v]
  }

  /** The float sum is finite exactly when every term is, and then it is the real sum. */
  lemma {:induction false} SumFFinite(s: seq<Float>)
    ensures SumF(s).Fin? <==> AllFin(s)
    ensures AllFin(s) ==> SumF(s).v == Sum(Values(s))
  {
    if |s| > 0 {
      var t := s[..|s| - 1];
      SumFFinite(t);
      assert AllFin(s) ==> AllFin(t);
      assert AllFin(t) && s[|s| - 1].Fin? ==> AllFin(s) by {
        if AllFin(t) && s[|s| - 1].Fin? {
          forall i | 0 <= i < |s| ensures s[i].Fin? {
            if i < |s| - 1 { assert s[i] == t[i]; }
          }
        }
      }
      if AllFin(s) {
        assert Values(s) == Values(t) + [s[|s| - 1].v];
        assert Values(s)[..|s| - 1] == Values(t);
      }
    }
  }

  lemma {:induction false} SumNonNegative(s: seq<real>)
    requires forall i :: 0 <= i < |s| ==> s[i] >= 0.0
    ensures Sum(s) >= 0.0
  {
    if |s| > 0 {
      SumNonNegative(s[..|s| - 1]);
    }
  }

  /** Dividing every term by the same nonzero total divides the sum. */
  lemma {:induction false} SumScaled(s: seq<real>, t: seq<real>, d: real)
    requires d != 0.0 && |t| == |s|
    requires forall i :: 0 <= i < |s| ==> t[i] == s[i] / d
    ensures Sum(t) == Sum(s) / d
  {
    if |s| > 0 {
      SumScaled(s[..|s| - 1], t[..|t| - 1], d);
    }
  }
  /** Nonnegative terms over their positive float sum are finite, nonnegative shares
      that add up to 1. */
  lemma SharesSumToOne(s: seq<Float>, w: seq<Float>, total: Float)
    requires |w| == |s| && total == SumF(s) && total.Fin? && total.v > 0.0
    requires forall k :: 0 <= k < |s| ==> (s[k].Fin? ==> s[k].v >= 0.0) && w[k] == Div(s[k], total)
    ensures AllFin(w) && (forall k :: 0 <= k < |w| ==> w[k].v >= 0.0) && Sum(Values(w)) == 1.0
  {
    SumFFinite(s);
    forall k | 0 <= k < |s| ensures w[k].Fin? && w[k].v == s[k].v / total.v && w[k].v >= 0.0 {
      assert s[k].Fin?;
      QuotientNonnegative(s[k].v, total.v);
    }
    SumScaled(Values(s), Values(w), total.v);
    QuotientOfSelf(Sum(Values(s)));
  }

  lemma QuotientNonnegative(x: real, d: real)
    requires x >= 0.0 && d > 0.0
    ensures x / d >= 0.0
  {
    assert x / d * d == x;
  }

  lemma QuotientOfSelf(d: real)
    requires d != 0.0
    ensures d / d == 1.0
  {
  }

  /** One more term of a running total that skips the terms not taken. */
  lemma SumFStep(acc: Float, s: seq<Float>, x: Float, taken: bool)
    requires acc == SumF(s)
    ensures (if taken then Add(acc, x) else acc) == SumF(s + [if taken then x else Fin(0.0)])
  {
    var y := if taken then x else Fin(0.0);
    assert (s + [y])[..|s|] == s;
  }

  lemma SumFNext(s: seq<Float>, j: nat)
    requires j < |s|
    ensures SumF(s[..j + 1]) == Add(SumF(s[..j]), s[j])
  {
    assert s[..j + 1][..j] == s[..j];
  }
}
