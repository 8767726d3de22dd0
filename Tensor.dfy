/** A model of `Tensor::Tensor<T>` (Tensor.hpp): a dense two-dimensional
    container storing `rows * cols` elements in one flat buffer, element
    `(i, j)` at offset `i * cols + j` (row-major). The element type is `int`.
 */
module TensorModel {

  /** The two exceptions the class throws. */
  datatype Error =
    | IndexOutOfRange   // std::out_of_range("Index out of range")
    | SizeMismatch      // std::runtime_error("Size mismatch")

  datatype Result<+R> = Ok(value: R) | Err(error: Error)

  // ---------------------------------------------------------------------
  // Row-major layout
  // ---------------------------------------------------------------------

  /** The flat offset of logical element `(i, j)` in a buffer with `cols` columns. */
  function Offset(i: nat, j: nat, cols: nat): nat
  {
    i * cols + j
  }

  /** An in-range index pair lands inside the buffer of `rows * cols` elements. */
  lemma OffsetInBounds(rows: nat, cols: nat, i: nat, j: nat)
    requires i < rows && j < cols
    ensures Offset(i, j, cols) < rows * cols
  {
    calc {
      Offset(i, j, cols);
      < i * cols + cols;
      == (i + 1) * cols;
      <= { MulMonotone(i + 1, rows, cols); } rows * cols;
    }
  }

  lemma MulMonotone(a: nat, b: nat, c: nat)
    requires a <= b
    ensures a * c <= b * c
  {
  }

  /** Two in-range index pairs with the same offset are the same pair. */
  lemma OffsetInjective(cols: nat, i: nat, j: nat, i': nat, j': nat)
    requires j < cols && j' < cols
    requires Offset(i, j, cols) == Offset(i', j', cols)
    ensures i == i' && j == j'
  {
    if i < i' {
      MulMonotone(i + 1, i', cols);
    } else if i' < i {
      MulMonotone(i' + 1, i, cols);
    }
  }

  /** Every offset of the buffer is the offset of exactly the index pair
      `(k / cols, k % cols)`, which is in range: the layout covers the buffer. */
  lemma OffsetCovers(rows: nat, cols: nat, k: nat)
    requires k < rows * cols
    ensures cols > 0 && k / cols < rows && k % cols < cols
    ensures Offset(k / cols, k % cols, cols) == k
  {
  }

  // ---------------------------------------------------------------------
  // Buffer-wide specifications
  // ---------------------------------------------------------------------

  /** `std::transform` over two equally long ranges with a binary operation. */
  function ZipWith(a: seq<int>, b: seq<int>, op: (int, int) -> int): (r: seq<int>)
    requires |a| == |b|
  {
    seq(|a|, k requires 0 <= k < |a| => op(a[k], b[k]))
  }

  /** Element `k` of a `ZipWith` is `op` of the inputs' elements `k`. */
  lemma ZipWithAt(a: seq<int>, b: seq<int>, op: (int, int) -> int, k: nat)
    requires |a| == |b| && k < |a|
    ensures |ZipWith(a, b, op)| == |a| && ZipWith(a, b, op)[k] == op(a[k], b[k])
  {
  }

  function AddInts(x: int, y: int): int { x + y }

  function SubInts(x: int, y: int): int { x - y }

  /** The buffer `operator+` computes. */
  function Sum(a: seq<int>, b: seq<int>): (r: seq<int>)
    requires |a| == |b|
  {
    ZipWith(a, b, AddInts)
  }

  /** The buffer `operator-` computes. */
  function Difference(a: seq<int>, b: seq<int>): (r: seq<int>)
    requires |a| == |b|
  {
    ZipWith(a, b, SubInts)
  }

  /** The buffer `fill(v)` leaves behind: as long as before, every element `v`. */
  function Filled(s: seq<int>, v: int): (r: seq<int>)
  {
    seq(|s|, _ => v)
  }

  /** `operator-` undoes `operator+`. */
  lemma DifferenceUndoesSum(a: seq<int>, b: seq<int>)
    requires |a| == |b|
    ensures Difference(Sum(a, b), b) == a
  {
    var s := Sum(a, b);
    forall k | 0 <= k < |a| ensures Difference(s, b)[k] == a[k] {
      ZipWithAt(a, b, AddInts, k);
      ZipWithAt(s, b, SubInts, k);
    }
  }

  /** `operator+` undoes `operator-`. */
  lemma SumUndoesDifference(a: seq<int>, b: seq<int>)
    requires |a| == |b|
    ensures Sum(Difference(a, b), b) == a
  {
    var d := Difference(a, b);
    forall k | 0 <= k < |a| ensures Sum(d, b)[k] == a[k] {
      ZipWithAt(a, b, SubInts, k);
      ZipWithAt(d, b, AddInts, k);
    }
  }

  /** Element-wise addition commutes. */
  lemma SumCommutes(a: seq<int>, b: seq<int>)
    requires |a| == |b|
    ensures Sum(a, b) == Sum(b, a)
  {
    forall k | 0 <= k < |a| ensures Sum(a, b)[k] == Sum(b, a)[k] {
      ZipWithAt(a, b, AddInts, k);
      ZipWithAt(b, a, AddInts, k);
    }
  }

  /** Element-wise addition associates. */
  lemma SumAssociates(a: seq<int>, b: seq<int>, c: seq<int>)
    requires |a| == |b| == |c|
    ensures Sum(Sum(a, b), c) == Sum(a, Sum(b, c))
  {
    var ab, bc := Sum(a, b), Sum(b, c);
    forall k | 0 <= k < |a| ensures Sum(ab, c)[k] == Sum(a, bc)[k] {
      ZipWithAt(a, b, AddInts, k);
      ZipWithAt(b, c, AddInts, k);
      ZipWithAt(ab, c, AddInts, k);
      ZipWithAt(a, bc, AddInts, k);
    }
  }

  /** A tensor minus itself is all zeros. */
  lemma DifferenceSelfIsZero(a: seq<int>)
    ensures Difference(a, a) == Filled(a, 0)
  {
    forall k | 0 <= k < |a| ensures Difference(a, a)[k] == 0 {
      ZipWithAt(a, a, SubInts, k);
    }
  }

  /** Filling twice with the same value is the same as filling once, and
      filling with a new value forgets the old one. */
  lemma FillIdempotent(s: seq<int>, v: int, w: int)
    ensures Filled(Filled(s, v), v) == Filled(s, v)
    ensures Filled(Filled(s, w), v) == Filled(s, v)
  {
  }

  /** `std::transform`: writes `op(a[k], b[k])` to `out[k]` for every `k`.
      The output buffer is a different buffer from both inputs. */
  method Transform(a: array<int>, b: array<int>, out: array<int>, op: (int, int) -> int)
    requires a.Length == b.Length == out.Length
    requires out != a && out != b
    modifies out
    ensures out[..] == ZipWith(a[..], b[..], op)
  {
    var k := 0;
    while k < out.Length
      invariant 0 <= k <= out.Length
      invariant forall m :: 0 <= m < k ==> out[m] == op(a[m], b[m])
    {
      out[k] := op(a[k], b[k]);
      k := k + 1;
    }
  }

  // ---------------------------------------------------------------------
  // The class
  // ---------------------------------------------------------------------

  class Tensor {
    var rows: nat
    var cols: nat
    var data: array<int>

    /** The buffer always holds exactly `rows * cols` elements. */
    predicate Valid()
      reads this
    {
      data.Length == rows * cols
    }

    /** The buffer's contents, in row-major order. */
    ghost function Elements(): seq<int>
      reads this, data
    {
      data[..]
    }

    /** `Tensor(rows, cols)`: the given shape, every element value-initialised
        to zero. Zero dimensions are accepted. */
    constructor (rows: nat, cols: nat)
      ensures Valid()
      ensures this.rows == rows && this.cols == cols
      ensures fresh(data)
      ensures forall k :: 0 <= k < data.Length ==> data[k] == 0
      ensures forall i: nat, j: nat :: i < rows && j < cols ==> At(i, j) == Ok(0)
      ensures RowCount() == rows && ColCount() == cols
    {
      this.rows := rows;
      this.cols := cols;
      data := new int[rows * cols](_ => 0);
      new;
      forall i: nat, j: nat | i < rows && j < cols ensures At(i, j) == Ok(0) {
        OffsetInBounds(rows, cols, i, j);
      }
    }

    /** `rowCout()`: the number of rows; with `ColCount` it accounts for the
        whole buffer. */
    function RowCount(): (r: nat)
      reads this, data
      requires Valid()
      ensures r == rows
      ensures r * cols == data.Length
    {
      rows
    }

    /** `colCout()`: the number of columns; with `RowCount` it accounts for the
        whole buffer. */
    function ColCount(): (r: nat)
      reads this, data
      requires Valid()
      ensures r == cols
      ensures rows * r == data.Length
    {
      cols
    }

    /** The check shared by both `operator()` overloads: out of range exactly
        when `i >= rows || j >= cols`; otherwise the offset of the element,
        which lies inside the buffer. This offset is what the reference
        returned by the non-const overload designates. */
    function Locate(i: nat, j: nat): (r: Result<nat>)
      reads this
      requires Valid()
      ensures r.Err? <==> (i >= rows || j >= cols)
      ensures r.Err? ==> r.error == IndexOutOfRange
      ensures r.Ok? ==> r.value == Offset(i, j, cols) && r.value < data.Length
    {
      if i >= rows || j >= cols then
        Err(IndexOutOfRange)
      else
        OffsetInBounds(rows, cols, i, j);
        Ok(i * cols + j)
    }

    /** `operator()(i, j) const`: the element at row `i`, column `j`. */
    function At(i: nat, j: nat): (r: Result<int>)
      reads this, data
      requires Valid()
      ensures r.Err? <==> (i >= rows || j >= cols)
      ensures r.Err? ==> r.error == IndexOutOfRange
      ensures r.Ok? ==> Offset(i, j, cols) < |Elements()| && r.value == Elements()[Offset(i, j, cols)]
    {
      match Locate(i, j)
      case Err(e) => Err(e)
      case Ok(k) => Ok(data[k])
    }

    /** `operator()(i, j) = v` through the reference the non-const overload
        returns: out of range exactly as `At`; otherwise only element `(i, j)`
        changes, and the shape stays. */
    method AssignAt(i: nat, j: nat, v: int) returns (r: Result<()>)
      requires Valid()
      modifies data
      ensures Valid()
      ensures r.Err? <==> (i >= rows || j >= cols)
      ensures r.Err? ==> r.error == IndexOutOfRange && Elements() == old(Elements())
      ensures r.Ok? ==> Offset(i, j, cols) < |old(Elements())|
                        && Elements() == old(Elements())[Offset(i, j, cols) := v]
      ensures r.Ok? ==> At(i, j) == Ok(v)
      ensures forall i': nat, j': nat :: (i' != i || j' != j) ==> At(i', j') == old(At(i', j'))
    {
      var loc := Locate(i, j);
      if loc.Err? {
        return Err(loc.error);
      }
      data[loc.value] := v;
      r := Ok(());
      forall i': nat, j': nat | i' != i || j' != j
        ensures At(i', j') == old(At(i', j'))
      {
        if i' < rows && j' < cols {
          OffsetInBounds(rows, cols, i', j');
          if Offset(i, j, cols) == Offset(i', j', cols) {
            OffsetInjective(cols, i, j, i', j');
            assert false;
          }
          assert data[Offset(i', j', cols)] == old(data[Offset(i', j', cols)]);
        }
      }
    }

    /** `operator==`: same shape and the same buffer, where two
        `std::vector`s are equal when they have the same size and agree
        element by element. */
    predicate Equals(other: Tensor)
      reads this, data, other, other.data
      ensures Equals(other) <==>
        (rows == other.rows && cols == other.cols && data.Length == other.data.Length &&
         forall k :: 0 <= k < data.Length ==> data[k] == other.data[k])
    {
      rows == other.rows && cols == other.cols && data[..] == other.data[..]
    }

    /** `operator!=`: the shapes differ, or some in-range element read
        through `operator()` differs. */
    predicate NotEquals(other: Tensor)
      reads this, data, other, other.data
      ensures Valid() && other.Valid() ==>
        (NotEquals(other) <==>
          (rows != other.rows || cols != other.cols ||
           exists i: nat, j: nat :: i < rows && j < cols && At(i, j) != other.At(i, j)))
    {
      if Valid() && other.Valid() then
        EqualsIffSameElements(this, other);
        !Equals(other)
      else
        !Equals(other)
    }

    /** `operator+`: a size mismatch when the shapes differ; otherwise a fresh
        tensor of the same shape holding the element-wise sums. Neither operand
        changes (the method modifies nothing that existed before). */
    method Plus(other: Tensor) returns (r: Result<Tensor>)
      requires Valid() && other.Valid()
      ensures r.Err? <==> (rows != other.rows || cols != other.cols)
      ensures r.Err? ==> r.error == SizeMismatch
      ensures r.Ok? ==> fresh(r.value) && fresh(r.value.data) && r.value.Valid()
      ensures r.Ok? ==> r.value.rows == rows && r.value.cols == cols
      ensures r.Ok? ==> r.value.Elements() == Sum(Elements(), other.Elements())
    {
      if rows != other.rows || cols != other.cols {
        return Err(SizeMismatch);
      }
      var result := new Tensor(rows, cols);
      Transform(data, other.data, result.data, AddInts);
      r := Ok(result);
    }

    /** `operator-`: as `operator+`, with element-wise differences. */
    method Minus(other: Tensor) returns (r: Result<Tensor>)
      requires Valid() && other.Valid()
      ensures r.Err? <==> (rows != other.rows || cols != other.cols)
      ensures r.Err? ==> r.error == SizeMismatch
      ensures r.Ok? ==> fresh(r.value) && fresh(r.value.data) && r.value.Valid()
      ensures r.Ok? ==> r.value.rows == rows && r.value.cols == cols
      ensures r.Ok? ==> r.value.Elements() == Difference(Elements(), other.Elements())
    {
      if rows != other.rows || cols != other.cols {
        return Err(SizeMismatch);
      }
      var result := new Tensor(rows, cols);
      Transform(data, other.data, result.data, SubInts);
      r := Ok(result);
    }

    /** `fill(value)`: overwrites every element with `value`, in place. */
    method Fill(value: int)
      requires Valid()
      modifies data
      ensures Valid()
      ensures Elements() == Filled(old(Elements()), value)
      ensures forall i: nat, j: nat :: i < rows && j < cols ==> At(i, j) == Ok(value)
    {
      var k := 0;
      while k < data.Length
        invariant 0 <= k <= data.Length
        invariant forall m :: 0 <= m < k ==> data[m] == value
      {
        data[k] := value;
        k := k + 1;
      }
      forall i: nat, j: nat | i < rows && j < cols ensures At(i, j) == Ok(value) {
        OffsetInBounds(rows, cols, i, j);
      }
    }
  }

  /** An element-wise result read through `operator()`: element `(i, j)` of
      the result is `op` of the operands' elements `(i, j)`. */
  lemma ElementwiseAt(a: Tensor, b: Tensor, r: Tensor, op: (int, int) -> int, i: nat, j: nat)
    requires a.Valid() && b.Valid() && r.Valid()
    requires a.rows == b.rows == r.rows && a.cols == b.cols == r.cols
    requires r.Elements() == ZipWith(a.Elements(), b.Elements(), op)
    requires i < r.rows && j < r.cols
    ensures a.At(i, j).Ok? && b.At(i, j).Ok?
    ensures r.At(i, j) == Ok(op(a.At(i, j).value, b.At(i, j).value))
  {
  }

  // ---------------------------------------------------------------------
  // Properties relating several members
  // ---------------------------------------------------------------------

  /** `operator==` holds exactly when the shapes agree and every element read
      through `operator()` agrees. */
  lemma EqualsIffSameElements(a: Tensor, b: Tensor)
    requires a.Valid() && b.Valid()
    ensures a.Equals(b) <==>
      (a.rows == b.rows && a.cols == b.cols &&
       forall i: nat, j: nat :: i < a.rows && j < a.cols ==> a.At(i, j) == b.At(i, j))
  {
    if a.rows == b.rows && a.cols == b.cols &&
       forall i: nat, j: nat :: i < a.rows && j < a.cols ==> a.At(i, j) == b.At(i, j)
    {
      forall k | 0 <= k < a.data.Length ensures a.data[k] == b.data[k] {
        OffsetCovers(a.rows, a.cols, k);
        assert a.At(k / a.cols, k % a.cols) == b.At(k / a.cols, k % a.cols);
      }
      assert a.data[..] == b.data[..];
    }
  }

  /** `operator==` is an equivalence and `operator!=` its negation. */
  lemma EqualsIsEquivalence(a: Tensor, b: Tensor, c: Tensor)
    ensures a.Equals(a)
    ensures a.Equals(b) ==> b.Equals(a)
    ensures a.Equals(b) && b.Equals(c) ==> a.Equals(c)
    ensures a.NotEquals(b) <==> !a.Equals(b)
  {
  }

  /** A caller's view: build, fill, add, subtract, and a size mismatch. */
  method Scenario()
  {
    var a := new Tensor(1, 2);
    a.Fill(5);
    var b := new Tensor(1, 2);
    b.Fill(3);
    var s := a.Plus(b);
    assert s.Ok?;
    var sum := s.value;
    ElementwiseAt(a, b, sum, AddInts, 0, 1);
    assert sum.At(0, 1) == Ok(8);
    var d := sum.Minus(b);
    DifferenceUndoesSum(a.Elements(), b.Elements());
    assert d.Ok? && d.value.Equals(a);
    var c := new Tensor(2, 1);
    var e := a.Plus(c);
    assert e == Err(SizeMismatch);
    var w := a.AssignAt(1, 0, 7);
    assert w == Err(IndexOutOfRange);
  }
}
