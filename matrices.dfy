/** `Matrix` from math-matrix.kt: a width x height grid stored as a flat
    list of `width * height` values, checked when constructed.

    The element accessors are modelled as written: `get` uses a row stride
    of 4 whatever the width, and `row`/`column`/`rows`/`columns` iterate the
    inclusive ranges `0..width` and `0..height`, one element more than the
    matrix has. A read outside the value array is an index failure. The
    lemmas at the end of the module state what follows from this. */
module Matrices {
  import opened Outcomes
  import opened Lists

  datatype MatrixData = Matrix(width: int, height: int, values: seq<real>)

  /** The data class's `init` block. */
  type Matrix = m: MatrixData | m.width > 0 && m.height > 0 && |m.values| == m.width * m.height
    witness Matrix(1, 1, [0.0])

  /** Constructing a `Matrix`: succeeds iff both dimensions are positive and
      the value count is their product. */
  function NewMatrix(width: int, height: int, values: seq<real>): (r: Result<Matrix>)
    ensures r.Success? <==> width > 0 && height > 0 && |values| == width * height
    ensures r.Success? ==> r.value == Matrix(width, height, values)
    ensures r.Failure? ==> r.error == IllegalArgument
  {
    if width > 0 && height > 0 && |values| == width * height then Success(Matrix(width, height, values))
    else Failure(IllegalArgument)
  }

  /** Constructing a `Matrix` with the default value array of 16 zeros:
      only shapes with 16 cells are accepted. */
  function NewMatrixWithDefaultValues(width: int, height: int): (r: Result<Matrix>)
    ensures r.Success? <==> width > 0 && height > 0 && width * height == 16
    ensures r.Success? ==> |r.value.values| == 16
    ensures r.Success? ==> forall i :: 0 <= i < |r.value.values| ==> r.value.values[i] == 0.0
  {
    NewMatrix(width, height, seq(16, _ => 0.0))
  }

  /** `Matrix(width)` (height defaulting to width, values to 16 zeros)
      succeeds only for width 4. */
  lemma DefaultSquareIsFourByFour(width: int)
    ensures NewMatrixWithDefaultValues(width, width).Success? <==> width == 4
  {
    if 0 < width < 4 {
      assert width * width <= 3 * width <= 9;
    } else if width > 4 {
      assert width * width >= 5 * width >= 25;
    }
  }

  /** `identityMatrix()` */
  function IdentityMatrix(): (m: Matrix)
    ensures m.width == 4 && m.height == 4
    ensures forall i :: 0 <= i < 16 ==> m.values[i] == if i in {0, 5, 10, 15} then 1.0 else 0.0
  {
    Matrix(4, 4, [1.0, 0.0, 0.0, 0.0,
                  0.0, 1.0, 0.0, 0.0,
                  0.0, 0.0, 1.0, 0.0,
                  0.0, 0.0, 0.0, 1.0])
  }

  /** `frustumMatrix(l, r, b, t, n, f)`: always 4 x 4, with the fixed zero
      cells and the -1 at flat position 14 of the projection layout. */
  function FrustumMatrix(l: real, r: real, b: real, t: real, n: real, f: real): (m: Matrix)
    ensures m.width == 4 && m.height == 4
    ensures forall i :: i in {1, 3, 4, 7, 8, 9, 12, 13, 15} ==> m.values[i] == 0.0
    ensures m.values[14] == -1.0
    ensures r != l ==> m.values[0] * (r - l) == 2.0 * n && m.values[2] * (r - l) == r + l
    ensures t != b ==> m.values[5] * (t - b) == 2.0 * n && m.values[6] * (t - b) == t + b
    ensures f != n ==> m.values[10] * (f - n) == -(f + n) && m.values[11] * (f - n) == -2.0 * f * n
  {
    Matrix(4, 4, [
      Quotient(2.0 * n, r - l), 0.0, Quotient(r + l, r - l), 0.0,
      0.0, Quotient(2.0 * n, t - b), Quotient(t + b, t - b), 0.0,
      0.0, 0.0, Quotient(-(f + n), f - n), Quotient(-2.0 * f * n, f - n),
      0.0, 0.0, -1.0, 0.0])
  }

  /** `translateMatrix(x, y, z)` supplies 12 values for a 4 x 4 matrix, so
      the construction check always fails. */
  function TranslateMatrix(x: real, y: real, z: real): (r: Result<Matrix>)
    ensures r == Failure(IllegalArgument)
  {
    NewMatrix(4, 4, [1.0, 0.0, 0.0, x,
                     0.0, 1.0, 0.0, y,
                     0.0, 0.0, 1.0, z])
  }

  /** `matrixOfRows(rows)`: rejects an empty list and rows of unequal
      length; otherwise width is the first row's length, height the number
      of rows and the values the rows concatenated in order, and the
      construction check rejects an empty first row. */
  function MatrixOfRows(rows: seq<seq<real>>): (r: Result<Matrix>)
    ensures r.Success? <==> rows != [] && |rows[0]| > 0 && SameLength(rows, |rows[0]|)
    ensures r.Failure? ==> r.error == IllegalArgument
    ensures r.Success? ==> r.value.width == |rows[0]| && r.value.height == |rows|
    ensures r.Success? ==> r.value.values == Flatten(rows)
  {
    if rows == [] then Failure(IllegalArgument)
    else
      var width := |rows[0]|;
      if !SameLength(rows, width) then Failure(IllegalArgument)
      else
        FlattenLength(rows, width);
        NewMatrix(width, |rows|, Flatten(rows))
  }

  /** The matrix built from rows holds element j of row i at row-major
      position i * width + j. */
  lemma MatrixOfRowsLayout(rows: seq<seq<real>>, i: int, j: int)
    requires MatrixOfRows(rows).Success?
    requires 0 <= i < |rows| && 0 <= j < |rows[0]|
    ensures i * |rows[0]| + j < |MatrixOfRows(rows).value.values|
    ensures MatrixOfRows(rows).value.values[i * |rows[0]| + j] == rows[i][j]
  {
    var values := MatrixOfRows(rows).value.values;
    assert values == Flatten(rows);
    FlattenAt(rows, |rows[0]|, i, j);
  }

  /** `get(row, col)` reads flat position `row * 4 + col` whatever the width. */
  function Get(m: Matrix, row: int, col: int): (r: Result<real>)
    ensures r.Success? <==> 0 <= row * 4 + col < |m.values|
    ensures r.Success? ==> r.value == m.values[row * 4 + col]
    ensures r.Failure? ==> r.error == IndexOutOfBounds
  {
    var i := row * 4 + col;
    if 0 <= i < |m.values| then Success(m.values[i]) else Failure(IndexOutOfBounds)
  }

  /** Reads `get(row, 0)`, ..., `get(row, count - 1)`. */
  function ReadRow(m: Matrix, row: int, count: nat): (r: Result<seq<real>>)
    ensures r.Success? <==> forall col :: 0 <= col < count ==> Get(m, row, col).Success?
    ensures r.Success? ==> |r.value| == count
    ensures r.Success? ==> forall col :: 0 <= col < count ==> r.value[col] == Get(m, row, col).value
    ensures r.Failure? ==> r.error == IndexOutOfBounds
  {
    if count == 0 then Success([])
    else match ReadRow(m, row, count - 1)
      case Failure(e) => Failure(e)
      case Success(init) =>
        match Get(m, row, count - 1)
        case Failure(e) => Failure(e)
        case Success(x) => Success(init + [x])
  }

  /** Reads `get(0, col)`, ..., `get(count - 1, col)`. */
  function ReadColumn(m: Matrix, col: int, count: nat): (r: Result<seq<real>>)
    ensures r.Success? <==> forall row :: 0 <= row < count ==> Get(m, row, col).Success?
    ensures r.Success? ==> |r.value| == count
    ensures r.Success? ==> forall row :: 0 <= row < count ==> r.value[row] == Get(m, row, col).value
    ensures r.Failure? ==> r.error == IndexOutOfBounds
  {
    if count == 0 then Success([])
    else match ReadColumn(m, col, count - 1)
      case Failure(e) => Failure(e)
      case Success(init) =>
        match Get(m, count - 1, col)
        case Failure(e) => Failure(e)
        case Success(x) => Success(init + [x])
  }

  /** `row(row)`: `get(row, col)` for col in the inclusive range 0..width,
      so width + 1 values starting at flat position row * 4. */
  function Row(m: Matrix, row: int): (r: Result<seq<real>>)
    ensures r.Success? <==> 0 <= row * 4 && row * 4 + m.width < |m.values|
    ensures r.Success? ==> r.value == m.values[row * 4..row * 4 + m.width + 1]
    ensures r.Failure? ==> r.error == IndexOutOfBounds
  {
    var r := ReadRow(m, row, m.width + 1);
    if r.Success? then
      assert Get(m, row, 0).Success? && Get(m, row, m.width).Success?;
      assert r.value == m.values[row * 4..row * 4 + m.width + 1];
      r
    else r
  }

  /** `column(col)`: `get(row, col)` for row in the inclusive range
      0..height, so height + 1 values 4 apart starting at flat position col. */
  function Column(m: Matrix, col: int): (r: Result<seq<real>>)
    ensures r.Success? <==> 0 <= col && m.height * 4 + col < |m.values|
    ensures r.Success? ==> |r.value| == m.height + 1
    ensures r.Success? ==> forall row :: 0 <= row <= m.height ==> r.value[row] == m.values[row * 4 + col]
    ensures r.Failure? ==> r.error == IndexOutOfBounds
  {
    var r := ReadColumn(m, col, m.height + 1);
    if r.Success? then
      assert Get(m, 0, col).Success? && Get(m, m.height, col).Success?;
      r
    else r
  }

  /** Reads `row(0)`, ..., `row(count - 1)`. */
  function ReadRows(m: Matrix, count: nat): (r: Result<seq<seq<real>>>)
    ensures r.Success? <==> forall row :: 0 <= row < count ==> Row(m, row).Success?
    ensures r.Success? ==> |r.value| == count
    ensures r.Success? ==> forall row :: 0 <= row < count ==> r.value[row] == Row(m, row).value
    ensures r.Failure? ==> r.error == IndexOutOfBounds
  {
    if count == 0 then Success([])
    else match ReadRows(m, count - 1)
      case Failure(e) => Failure(e)
      case Success(init) =>
        match Row(m, count - 1)
        case Failure(e) => Failure(e)
        case Success(x) => Success(init + [x])
  }

  /** Reads `column(0)`, ..., `column(count - 1)`. */
  function ReadColumns(m: Matrix, count: nat): (r: Result<seq<seq<real>>>)
    ensures r.Success? <==> forall col :: 0 <= col < count ==> Column(m, col).Success?
    ensures r.Success? ==> |r.value| == count
    ensures r.Success? ==> forall col :: 0 <= col < count ==> r.value[col] == Column(m, col).value
    ensures r.Failure? ==> r.error == IndexOutOfBounds
  {
    if count == 0 then Success([])
    else match ReadColumns(m, count - 1)
      case Failure(e) => Failure(e)
      case Success(init) =>
        match Column(m, count - 1)
        case Failure(e) => Failure(e)
        case Success(x) => Success(init + [x])
  }

  /** `rows()`: `row(r)` for r in the inclusive range 0..height. The last
      row read ends furthest out, so it decides whether all of them fit. */
  function Rows(m: Matrix): (r: Result<seq<seq<real>>>)
    ensures r.Success? <==> m.height * 4 + m.width < |m.values|
    ensures r.Failure? ==> r.error == IndexOutOfBounds
    ensures r.Success? ==> |r.value| == m.height + 1
    ensures r.Success? ==> forall i :: 0 <= i < |r.value| ==> |r.value[i]| == m.width + 1
    ensures r.Success? ==> forall i :: 0 <= i <= m.height ==> Row(m, i).Success? && r.value[i] == Row(m, i).value
  {
    var r := ReadRows(m, m.height + 1);
    if m.height * 4 + m.width < |m.values| then
      assert forall row :: 0 <= row < m.height + 1 ==> Row(m, row).Success?;
      r
    else
      assert Row(m, m.height).Failure?;
      r
  }

  /** `columns()`: `column(c)` for c in the inclusive range 0..width. The
      last column read ends furthest out, so it decides whether all of them
      fit. */
  function Columns(m: Matrix): (r: Result<seq<seq<real>>>)
    ensures r.Success? <==> m.height * 4 + m.width < |m.values|
    ensures r.Failure? ==> r.error == IndexOutOfBounds
    ensures r.Success? ==> |r.value| == m.width + 1
    ensures r.Success? ==> forall i :: 0 <= i < |r.value| ==> |r.value[i]| == m.height + 1
    ensures r.Success? ==> forall i :: 0 <= i <= m.width ==> Column(m, i).Success? && r.value[i] == Column(m, i).value
  {
    var r := ReadColumns(m, m.width + 1);
    if m.height * 4 + m.width < |m.values| then
      assert forall col :: 0 <= col < m.width + 1 ==> Column(m, col).Success?;
      r
    else
      assert Column(m, m.width).Failure?;
      r
  }

  /** `times(v: Float)`: same shape, every value multiplied. */
  function TimesScalar(m: Matrix, s: real): (r: Matrix)
    ensures r.width == m.width && r.height == m.height
    ensures forall i :: 0 <= i < |m.values| ==> r.values[i] == m.values[i] * s
  {
    Matrix(m.width, m.height, MapReals(m.values, x => x * s))
  }

  /** The dot product of every row with every column, row by row. */
  function Products(rows: seq<seq<real>>, columns: seq<seq<real>>): (r: seq<real>)
    ensures |r| == |rows| * |columns|
  {
    if rows == [] then []
    else
      var first := RowProducts(rows[0], columns);
      var rest := Products(rows[1..], columns);
      assert |rows| * |columns| == |columns| + (|rows| - 1) * |columns|;
      first + rest
  }

  function RowProducts(row: seq<real>, columns: seq<seq<real>>): (r: seq<real>)
    ensures |r| == |columns|
  {
    if columns == [] then [] else [Sum(Merge(row, columns[0], (a, b) => a * b))] + RowProducts(row, columns[1..])
  }

  /** `times(other: Matrix)`: rejects `width != other.height`; otherwise
      builds a `height x other.width` matrix from `rows()` and
      `other.columns()`. */
  function Times(m: Matrix, other: Matrix): (r: Result<Matrix>)
    ensures m.width != other.height ==> r == Failure(IllegalArgument)
  {
    if m.width != other.height then Failure(IllegalArgument)
    else match Rows(m)
      case Failure(e) => Failure(e)
      case Success(rows) =>
        match Columns(other)
        case Failure(e) => Failure(e)
        case Success(columns) => NewMatrix(m.height, other.width, Products(rows, columns))
  }

  /** Matrix multiplication never returns a matrix: either the dimensions
      do not match, or an extra row or column is read out of range, or the
      (height + 1) * (other.width + 1) products fail the construction check
      for a height x other.width matrix. */
  lemma TimesNeverSucceeds(m: Matrix, other: Matrix)
    ensures Times(m, other).Failure?
  {
    if m.width == other.height && Rows(m).Success? && Columns(other).Success? {
      var h, w := m.height, other.width;
      assert (h + 1) * (w + 1) == h * w + h + w + 1;
    }
  }

  /** `transpose()`: `matrixOfRows(columns())`. It succeeds exactly when
      `columns()` does, and then the width + 1 columns, each height + 1
      long, become the rows of the result (see `TransposeLayout`). */
  function Transpose(m: Matrix): (r: Result<Matrix>)
    ensures r.Success? <==> m.height * 4 + m.width < |m.values|
    ensures r.Failure? ==> r.error == IndexOutOfBounds
    ensures r.Success? ==> r.value.width == m.height + 1 && r.value.height == m.width + 1
  {
    match Columns(m)
    case Failure(e) => Failure(e)
    case Success(columns) =>
      assert SameLength(columns, m.height + 1);
      MatrixOfRows(columns)
  }

  /** Row c, column k of a transposed matrix is `get(k, c)` of the original:
      flat position `k * 4 + c`. */
  lemma TransposeLayout(m: Matrix, c: int, k: int)
    requires Transpose(m).Success? && 0 <= c <= m.width && 0 <= k <= m.height
    ensures c * (m.height + 1) + k < |Transpose(m).value.values|
    ensures k * 4 + c < |m.values|
    ensures Transpose(m).value.values[c * (m.height + 1) + k] == m.values[k * 4 + c]
  {
    var columns := Columns(m).value;
    assert Transpose(m) == MatrixOfRows(columns);
    MatrixOfRowsLayout(columns, c, k);
  }

  /** A matrix no wider than 4 cannot be transposed: its column reads run
      past the value array. */
  lemma NarrowTransposeFails(m: Matrix)
    requires m.width <= 4
    ensures Transpose(m) == Failure(IndexOutOfBounds)
  {
    assert m.height * 4 >= m.height * m.width;
    assert Column(m, 0).Failure?;
    assert ReadColumns(m, 1).Failure?;
    ReadColumnsFailure(m, 1, m.width + 1);
  }

  lemma {:induction false} ReadColumnsFailure(m: Matrix, k: nat, count: nat)
    requires k <= count && ReadColumns(m, k) == Failure(IndexOutOfBounds)
    ensures ReadColumns(m, count) == Failure(IndexOutOfBounds)
    decreases count - k
  {
    if k < count {
      ReadColumnsFailure(m, k + 1, count);
    }
  }

  /** Transposing twice never gives back the matrix: each transpose adds a
      row and a column, so a double transpose, when there is one, is two
      wider and two taller. */
  lemma TransposeNotInvolutive(m: Matrix)
    ensures Transpose(m).Success? && Transpose(Transpose(m).value).Success? ==>
              && Transpose(Transpose(m).value).value.width == m.width + 2
              && Transpose(Transpose(m).value).value.height == m.height + 2
              && Transpose(Transpose(m).value).value != m
  {
  }

  /** `matrixOfColumns(columns)`: `matrixOfRows(columns).transpose()`.
      The lists must pass `matrixOfRows` (IllegalArgumentException
      otherwise), and the transpose must fit (IndexOutOfBoundsException
      otherwise); see `MatrixOfColumnsLayout` for the values. */
  function MatrixOfColumns(columns: seq<seq<real>>): (r: Result<Matrix>)
    ensures r.Success? <==>
              && columns != [] && |columns[0]| > 0 && SameLength(columns, |columns[0]|)
              && |columns| * 4 + |columns[0]| < |columns| * |columns[0]|
    ensures r.Failure? && !(columns != [] && |columns[0]| > 0 && SameLength(columns, |columns[0]|)) ==>
              r.error == IllegalArgument
    ensures r.Failure? && columns != [] && |columns[0]| > 0 && SameLength(columns, |columns[0]|) ==>
              r.error == IndexOutOfBounds
    ensures r.Success? ==> r.value.width == |columns| + 1 && r.value.height == |columns[0]| + 1
    ensures columns != [] && |columns[0]| <= 4 ==> r.Failure?
  {
    match MatrixOfRows(columns)
    case Failure(e) => Failure(e)
    case Success(m) =>
      FlattenLength(columns, |columns[0]|);
      if m.width <= 4 then NarrowTransposeFails(m); Transpose(m)
      else Transpose(m)
  }

  /** Row c, column k of `matrixOfColumns(columns)` is element `k * 4 + c`
      of the concatenated lists. */
  lemma MatrixOfColumnsLayout(columns: seq<seq<real>>, c: int, k: int)
    requires MatrixOfColumns(columns).Success?
    requires 0 <= c <= |columns[0]| && 0 <= k <= |columns|
    ensures c * (|columns| + 1) + k < |MatrixOfColumns(columns).value.values|
    ensures k * 4 + c < |Flatten(columns)|
    ensures MatrixOfColumns(columns).value.values[c * (|columns| + 1) + k] == Flatten(columns)[k * 4 + c]
  {
    var m := MatrixOfRows(columns).value;
    assert MatrixOfColumns(columns) == Transpose(m);
    TransposeLayout(m, c, k);
  }

  /** Reading rows of a 4-wide matrix: row r covers row r and the first
      cell of row r + 1, and the last row runs past the values, so
      `rows()` always fails. */
  lemma RowsOfWidthFour(m: Matrix, row: int)
    requires m.width == 4 && 0 <= row < m.height
    ensures row + 1 < m.height ==> Row(m, row).Success? && Row(m, row).value == m.values[row * 4..row * 4 + 5]
    ensures row + 1 == m.height ==> Row(m, row).Failure?
    ensures Rows(m).Failure?
  {
    if row + 1 < m.height {
      assert row * 4 + 4 < m.width * m.height;
    }
    assert (m.height - 1) * 4 + 4 == |m.values|;
    assert Row(m, m.height - 1).Failure?;
  }
}
