/** The Kotlin standard-library list operations that the vector and matrix
    code is written with (`map`, `merge`, `sum`, `flatMap`), on lists of
    real numbers, and Float division. */
module Lists {

  function Min(a: int, b: int): int { if a <= b then a else b }

  /** `List.map` */
  function MapReals(s: seq<real>, f: real -> real): (r: seq<real>)
    ensures |r| == |s|
    ensures forall i :: 0 <= i < |s| ==> r[i] == f(s[i])
  {
    if s == [] then [] else [f(s[0])] + MapReals(s[1..], f)
  }

  /** `List.merge`: combines elements pairwise up to the shorter list's length. */
  function Merge(a: seq<real>, b: seq<real>, f: (real, real) -> real): (r: seq<real>)
    ensures |r| == Min(|a|, |b|)
    ensures forall i :: 0 <= i < |r| ==> r[i] == f(a[i], b[i])
  {
    if a == [] || b == [] then [] else [f(a[0], b[0])] + Merge(a[1..], b[1..], f)
  }

  /** `List.sum()`, a left fold from 0 */
  function Sum(s: seq<real>): real {
    if s == [] then 0.0 else Sum(s[..|s| - 1]) + s[|s| - 1]
  }

  /** `flatMap { it }`: the lists concatenated in order */
  function Flatten(rows: seq<seq<real>>): seq<real> {
    if rows == [] then [] else rows[0] + Flatten(rows[1..])
  }

  /** Every list is `width` long. */
  predicate SameLength(rows: seq<seq<real>>, width: int) {
    forall i :: 0 <= i < |rows| ==> |rows[i]| == width
  }

  lemma {:induction false} FlattenLength(rows: seq<seq<real>>, width: int)
    requires width >= 0 && SameLength(rows, width)
    ensures |Flatten(rows)| == |rows| * width
  {
    if rows != [] {
      FlattenLength(rows[1..], width);
      assert |rows| * width == width + (|rows| - 1) * width;
    }
  }

  /** Concatenating rows of one width places element j of row i at flat
      position i * width + j. */
  lemma {:induction false} FlattenAt(rows: seq<seq<real>>, width: int, i: int, j: int)
    requires width >= 0 && SameLength(rows, width)
    requires 0 <= i < |rows| && 0 <= j < width
    ensures i * width + j < |Flatten(rows)|
    ensures Flatten(rows)[i * width + j] == rows[i][j]
  {
    var f, t := Flatten(rows), Flatten(rows[1..]);
    assert f == rows[0] + t;
    if i > 0 {
      var k := (i - 1) * width + j;
      FlattenAt(rows[1..], width, i - 1, j);
      assert i * width + j == width + k by {
        assert i * width == (i - 1) * width + width;
      }
      assert f[width + k] == t[k];
    }
  }

  /** Float division. Dividing by zero gives an infinity or NaN in the
      source; real numbers have neither, so the value at a zero divisor is
      a stand-in (0) about which nothing is claimed. */
  function Quotient(a: real, b: real): (q: real)
    ensures b != 0.0 ==> q * b == a
  {
    if b == 0.0 then 0.0 else a / b
  }
}
