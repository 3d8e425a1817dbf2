/** `Vector` from math-vector.kt: an immutable list of components that is
    never empty, with scalar and component-wise arithmetic, dot and cross
    products and linear interpolation. Components are real numbers; the
    Float rounding of the source is not modelled. */
module Vectors {
  import opened Outcomes
  import opened Lists

  datatype VectorData = Vector(values: seq<real>)

  /** The data class's `init` block: a vector has at least one component. */
  type Vector = v: VectorData | |v.values| > 0 witness Vector([0.0])

  /** Constructing a `Vector`: the `require` fails on an empty list. */
  function NewVector(values: seq<real>): (r: Result<Vector>)
    ensures r.Success? <==> values != []
    ensures r.Success? ==> r.value.values == values
    ensures r.Failure? ==> r.error == IllegalArgument
  {
    if values == [] then Failure(IllegalArgument) else Success(Vector(values))
  }

  /** `emptyVector(size)`: `size` zeros, which fails unless `size > 0`. */
  function EmptyVector(size: int): (r: Result<Vector>)
    ensures r.Success? <==> size > 0
    ensures r.Failure? ==> r.error == IllegalArgument
    ensures r.Success? ==> |r.value.values| == size
    ensures r.Success? ==> forall i :: 0 <= i < size ==> r.value.values[i] == 0.0
  {
    NewVector(seq(if size > 0 then size else 0, _ => 0.0))
  }

  /** `vectorOf(vararg items)` */
  function VectorOf(items: seq<real>): (r: Result<Vector>)
    ensures r.Success? <==> |items| > 0
    ensures r.Failure? ==> r.error == IllegalArgument
    ensures r.Success? ==> r.value.values == items
  {
    NewVector(items)
  }

  /** The `x`, `y` and `z` accessors read `values[0]`, `values[1]` and
      `values[2]`; a vector without that component is an index error, so
      only `x` always succeeds, by the non-empty invariant. */
  function X(v: Vector): (r: Result<real>)
    ensures r.Success? <==> |v.values| > 0
    ensures r.Success? ==> r.value == v.values[0]
  {
    Success(v.values[0])
  }

  function Y(v: Vector): (r: Result<real>)
    ensures r.Success? <==> |v.values| > 1
    ensures r.Success? ==> r.value == v.values[1]
    ensures r.Failure? ==> r.error == IndexOutOfBounds
  {
    if |v.values| > 1 then Success(v.values[1]) else Failure(IndexOutOfBounds)
  }

  function Z(v: Vector): (r: Result<real>)
    ensures r.Success? <==> |v.values| > 2
    ensures r.Success? ==> r.value == v.values[2]
    ensures r.Failure? ==> r.error == IndexOutOfBounds
  {
    if |v.values| > 2 then Success(v.values[2]) else Failure(IndexOutOfBounds)
  }

  /** Unary minus; `negate` is the same operation. */
  function Negate(v: Vector): (r: Vector)
    ensures |r.values| == |v.values|
    ensures forall i :: 0 <= i < |v.values| ==> r.values[i] == -v.values[i]
  {
    Vector(MapReals(v.values, x => -x))
  }

  function PlusScalar(v: Vector, s: real): (r: Vector)
    ensures |r.values| == |v.values|
    ensures forall i :: 0 <= i < |v.values| ==> r.values[i] == v.values[i] + s
  {
    Vector(MapReals(v.values, x => x + s))
  }

  function MinusScalar(v: Vector, s: real): (r: Vector)
    ensures |r.values| == |v.values|
    ensures forall i :: 0 <= i < |v.values| ==> r.values[i] == v.values[i] - s
  {
    Vector(MapReals(v.values, x => x - s))
  }

  function TimesScalar(v: Vector, s: real): (r: Vector)
    ensures |r.values| == |v.values|
    ensures forall i :: 0 <= i < |v.values| ==> r.values[i] == v.values[i] * s
  {
    Vector(MapReals(v.values, x => x * s))
  }

  function DivideScalar(v: Vector, s: real): (r: Vector)
    ensures |r.values| == |v.values|
    ensures s != 0.0 ==> forall i :: 0 <= i < |v.values| ==> r.values[i] * s == v.values[i]
  {
    Vector(MapReals(v.values, x => Quotient(x, s)))
  }

  function Plus(v: Vector, w: Vector): (r: Vector)
    ensures |r.values| == Min(|v.values|, |w.values|)
    ensures forall i :: 0 <= i < |r.values| ==> r.values[i] == v.values[i] + w.values[i]
  {
    Vector(Merge(v.values, w.values, (a, b) => a + b))
  }

  function Minus(v: Vector, w: Vector): (r: Vector)
    ensures |r.values| == Min(|v.values|, |w.values|)
    ensures forall i :: 0 <= i < |r.values| ==> r.values[i] == v.values[i] - w.values[i]
  {
    Vector(Merge(v.values, w.values, (a, b) => a - b))
  }

  function Times(v: Vector, w: Vector): (r: Vector)
    ensures |r.values| == Min(|v.values|, |w.values|)
    ensures forall i :: 0 <= i < |r.values| ==> r.values[i] == v.values[i] * w.values[i]
  {
    Vector(Merge(v.values, w.values, (a, b) => a * b))
  }

  function Divide(v: Vector, w: Vector): (r: Vector)
    ensures |r.values| == Min(|v.values|, |w.values|)
    ensures forall i :: 0 <= i < |r.values| && w.values[i] != 0.0 ==> r.values[i] * w.values[i] == v.values[i]
  {
    Vector(Merge(v.values, w.values, Quotient))
  }

  /** `dot(v: Float)`: the fold `acc + e * v` over the components */
  function DotScalar(v: Vector, s: real): real {
    FoldScaled(v.values, s)
  }

  function FoldScaled(values: seq<real>, s: real): real {
    if values == [] then 0.0 else FoldScaled(values[..|values| - 1], s) + values[|values| - 1] * s
  }

  /** The scalar dot product scales the sum of the components. */
  lemma {:induction false} DotScalarIsScaledSum(v: Vector, s: real)
    ensures DotScalar(v, s) == Sum(v.values) * s
  {
    ScaledSum(v.values, s);
  }

  lemma {:induction false} ScaledSum(values: seq<real>, s: real)
    ensures FoldScaled(values, s) == Sum(values) * s
  {
    if values != [] {
      ScaledSum(values[..|values| - 1], s);
    }
  }

  /** `dot(v: Vector)`: sum of the component-wise product */
  function Dot(v: Vector, w: Vector): real {
    Sum(Times(v, w).values)
  }

  /** The dot product is symmetric. */
  lemma DotSymmetric(v: Vector, w: Vector)
    ensures Dot(v, w) == Dot(w, v)
  {
    assert Times(v, w).values == Times(w, v).values;
  }

  /** `cross`: the 3-component cross product for a 3-vector receiver, the
      same followed by 1.0 for a 4-vector receiver, and
      UnsupportedOperationException otherwise. Reading `x`, `y` and `z` of
      an argument shorter than 3 is an index error. */
  function Cross(v: Vector, w: Vector): (r: Result<Vector>)
    ensures |v.values| != 3 && |v.values| != 4 ==> r == Failure(UnsupportedOperation)
    ensures (|v.values| == 3 || |v.values| == 4) && |w.values| < 3 ==> r == Failure(IndexOutOfBounds)
    ensures r.Success? <==> (|v.values| == 3 || |v.values| == 4) && |w.values| >= 3
    ensures r.Success? ==>
              && |r.value.values| == |v.values|
              && r.value.values[0] == v.values[1] * w.values[2] - v.values[2] * w.values[1]
              && r.value.values[1] == v.values[2] * w.values[0] - v.values[0] * w.values[2]
              && r.value.values[2] == v.values[0] * w.values[1] - v.values[1] * w.values[0]
    ensures r.Success? && |v.values| == 4 ==> r.value.values[3] == 1.0
  {
    if |v.values| != 3 && |v.values| != 4 then Failure(UnsupportedOperation)
    else if |w.values| < 3 then Failure(IndexOutOfBounds)
    else
      var x, y, z := X(v).value, Y(v).value, Z(v).value;
      var wx, wy, wz := X(w).value, Y(w).value, Z(w).value;
      var c := [y * wz - z * wy, z * wx - x * wz, x * wy - y * wx];
      Success(Vector(if |v.values| == 3 then c else c + [1.0]))
  }

  /** The cross product of two 3-vectors is anti-commutative. */
  lemma CrossAntiCommutative(v: Vector, w: Vector)
    requires |v.values| == 3 && |w.values| == 3
    ensures Cross(v, w).Success? && Cross(w, v).Success?
    ensures Cross(v, w).value == Negate(Cross(w, v).value)
  {
    var a, b := Cross(v, w).value, Negate(Cross(w, v).value);
    assert a.values == b.values;
  }

  /** The cross product of two 3-vectors is orthogonal to both of them. */
  lemma CrossOrthogonal(v: Vector, w: Vector)
    requires |v.values| == 3 && |w.values| == 3
    ensures Cross(v, w).Success?
    ensures Dot(Cross(v, w).value, v) == 0.0 && Dot(Cross(v, w).value, w) == 0.0
  {
    OrthogonalToFactors(Cross(v, w).value, v, w);
  }

  /** A vector whose components are those of `a x b` is orthogonal to `a` and `b`. */
  lemma OrthogonalToFactors(c: Vector, a: Vector, b: Vector)
    requires |c.values| == 3 && |a.values| == 3 && |b.values| == 3
    requires c.values[0] == a.values[1] * b.values[2] - a.values[2] * b.values[1]
    requires c.values[1] == a.values[2] * b.values[0] - a.values[0] * b.values[2]
    requires c.values[2] == a.values[0] * b.values[1] - a.values[1] * b.values[0]
    ensures Dot(c, a) == 0.0 && Dot(c, b) == 0.0
  {
    DotOfThree(c, a);
    DotOfThree(c, b);
    CrossComponentsOrthogonal(c.values[0], c.values[1], c.values[2],
                              a.values[0], a.values[1], a.values[2],
                              b.values[0], b.values[1], b.values[2]);
  }

  lemma DotOfThree(a: Vector, b: Vector)
    requires |a.values| == 3 && |b.values| == 3
    ensures Dot(a, b) == a.values[0] * b.values[0] + a.values[1] * b.values[1] + a.values[2] * b.values[2]
  {
    SumOfThree(Times(a, b).values);
  }

  /** (a x b) . a == 0 and (a x b) . b == 0, written out on components */
  lemma CrossComponentsOrthogonal(c0: real, c1: real, c2: real,
                                  a0: real, a1: real, a2: real,
                                  b0: real, b1: real, b2: real)
    requires c0 == a1 * b2 - a2 * b1 && c1 == a2 * b0 - a0 * b2 && c2 == a0 * b1 - a1 * b0
    ensures c0 * a0 + c1 * a1 + c2 * a2 == 0.0
    ensures c0 * b0 + c1 * b1 + c2 * b2 == 0.0
  {
    assert c0 * a0 == a0 * a1 * b2 - a0 * a2 * b1;
    assert c1 * a1 == a1 * a2 * b0 - a0 * a1 * b2;
    assert c2 * a2 == a0 * a2 * b1 - a1 * a2 * b0;
    assert c0 * b0 == a1 * b0 * b2 - a2 * b0 * b1;
    assert c1 * b1 == a2 * b0 * b1 - a0 * b1 * b2;
    assert c2 * b2 == a0 * b1 * b2 - a1 * b0 * b2;
  }

  lemma SumOfThree(s: seq<real>)
    requires |s| == 3
    ensures Sum(s) == s[0] + s[1] + s[2]
  {
    assert s[..2][..1] == [s[0]];
    assert [s[0]][..0] == [];
    assert Sum([s[0]]) == s[0];
    assert Sum(s[..2]) == s[0] + s[1];
  }

  /** `min()`: the smallest component (never null, as a vector is never empty) */
  function MinComponent(v: Vector): (r: real)
    ensures r in v.values
    ensures forall i :: 0 <= i < |v.values| ==> r <= v.values[i]
  {
    SmallestOf(v.values)
  }

  function SmallestOf(s: seq<real>): (r: real)
    requires s != []
    ensures r in s
    ensures forall i :: 0 <= i < |s| ==> r <= s[i]
  {
    if |s| == 1 then s[0]
    else
      var m := SmallestOf(s[1..]);
      assert forall i :: 1 <= i < |s| ==> s[i] == s[1..][i - 1];
      if s[0] <= m then s[0] else m
  }

  /** `max()`: the largest component */
  function MaxComponent(v: Vector): (r: real)
    ensures r in v.values
    ensures forall i :: 0 <= i < |v.values| ==> v.values[i] <= r
  {
    LargestOf(v.values)
  }

  function LargestOf(s: seq<real>): (r: real)
    requires s != []
    ensures r in s
    ensures forall i :: 0 <= i < |s| ==> s[i] <= r
  {
    if |s| == 1 then s[0]
    else
      var m := LargestOf(s[1..]);
      assert forall i :: 1 <= i < |s| ==> s[i] == s[1..][i - 1];
      if s[0] >= m then s[0] else m
  }

  /** `interpolateTo(other, fraction) = (other - this) * fraction + this` */
  function InterpolateTo(v: Vector, other: Vector, fraction: real): (r: Vector)
    ensures |r.values| == Min(|v.values|, |other.values|)
    ensures forall i :: 0 <= i < |r.values| ==>
              r.values[i] == v.values[i] + (other.values[i] - v.values[i]) * fraction
  {
    var difference := Minus(other, v);
    var scaled := TimesScalar(difference, fraction);
    assert |scaled.values| == |difference.values| == Min(|v.values|, |other.values|);
    Plus(scaled, v)
  }

  /** Negating twice gives back the vector. */
  lemma NegateInvolutive(v: Vector)
    ensures Negate(Negate(v)) == v
  {
    assert Negate(Negate(v)).values == v.values;
  }

  /** Interpolation between vectors of one length starts at the receiver
      (fraction 0) and ends at the target (fraction 1). */
  lemma InterpolateEnds(v: Vector, other: Vector)
    requires |v.values| == |other.values|
    ensures InterpolateTo(v, other, 0.0) == v
    ensures InterpolateTo(v, other, 1.0) == other
  {
    assert InterpolateTo(v, other, 0.0).values == v.values;
    assert InterpolateTo(v, other, 1.0).values == other.values;
  }
}
