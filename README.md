# Tensor: a verified model of `Tensor::Tensor<T>`

This project models the class template `Tensor::Tensor<T>` from `Tensor.hpp`.
It is a dense two-dimensional container. It keeps a row count, a column count and
one flat buffer of `rows * cols` elements. Element `(i, j)` lives at flat offset
`i * cols + j` (row-major layout).

The model, in `Tensor.dfy` (module `TensorModel`), takes the element type `T` to
be `int`. It has:

- the row-major layout as a function `Offset`, with lemmas that it maps the
  in-range index pairs one-to-one onto the buffer (`OffsetInBounds`,
  `OffsetInjective`, `OffsetCovers`);
- a class `Tensor` with fields `rows`, `cols` and `data: array<int>`, and the
  invariant `Valid()`: the buffer holds exactly `rows * cols` elements;
- the two exceptions as an `Error` datatype (`IndexOutOfRange` for
  `std::out_of_range`, `SizeMismatch` for the `std::runtime_error`), returned in
  a `Result`;
- the const `operator()` as the function `At`, and the non-const
  `operator()`, which hands out a reference, as `Locate` (the bounds check and
  the offset the reference designates) plus `AssignAt` (a write through that
  reference);
- `operator==` / `operator!=` as `Equals` / `NotEquals`;
- `operator+` / `operator-` as `Plus` / `Minus`, which allocate a fresh result
  and fill it through `Transform`, a model of `std::transform`;
- `fill` as `Fill`, a loop over the buffer;
- specification functions on buffers (`Sum`, `Difference`, `Filled`) and lemmas
  about them: subtraction undoes addition and vice versa, addition commutes and
  associates, `a - a` is zero, and filling is idempotent.

The constructor has no shape check: zero rows or zero columns are accepted,
and the model accepts them too. The header defines no scalar scaling, no
matrix multiplication and no working transpose, so the model has none.

The method `Scenario` at the end of `Tensor.dfy` is a caller written against
the contracts alone. It builds two 1 x 2 tensors, fills them, adds and
subtracts them, and shows the size-mismatch and out-of-range errors; it models
no member of the class and so has no row below.

## Model

| member | source | states |
|---|---|---|
| `TensorModel.OffsetInBounds` | Tensor.hpp:29-31 | an index pair that passes the bounds check has a flat offset `i * cols + j` below `rows * cols` |
| `TensorModel.OffsetInjective` | Tensor.hpp:31 | two index pairs with columns below `cols` and the same flat offset are the same pair, so distinct elements occupy distinct slots |
| `TensorModel.OffsetCovers` | Tensor.hpp:21 | every slot `k` of the `rows * cols` buffer is the offset of the in-range pair `(k / cols, k % cols)`: the layout leaves no slot unreachable |
| `TensorModel.Tensor.constructor` | Tensor.hpp:20-21 | the shape is as given (zero allowed), the buffer is fresh, has `rows * cols` elements, and every element is 0; every in-range `At` gives `Ok(0)`; `RowCount` and `ColCount` report the given shape |
| `TensorModel.Tensor.RowCount` | Tensor.hpp:24 | returns the row count, and that count times the column count is the buffer length |
| `TensorModel.Tensor.ColCount` | Tensor.hpp:25 | returns the column count, and the row count times that count is the buffer length |
| `TensorModel.Tensor.Locate` | Tensor.hpp:27-31 | fails with `IndexOutOfRange` exactly when `i >= rows` or `j >= cols`; otherwise yields the offset `i * cols + j`, which lies inside the buffer |
| `TensorModel.Tensor.At` | Tensor.hpp:34-40 | fails with `IndexOutOfRange` exactly when `i >= rows` or `j >= cols`; otherwise yields the buffer element at offset `i * cols + j` |
| `TensorModel.Tensor.AssignAt` | Tensor.hpp:27-32 | a write through the reference fails exactly as `At` does and then changes nothing; otherwise the buffer is the old one with only offset `i * cols + j` replaced, `At(i, j)` reads the new value, every other index pair reads what it read before, and the shape is unchanged |
| `TensorModel.Tensor.Equals` | Tensor.hpp:42-45 | holds exactly when rows and columns agree and the buffers have the same length and agree at every offset |
| `TensorModel.Tensor.NotEquals` | Tensor.hpp:47-50 | on valid tensors, holds exactly when the rows differ, the columns differ, or some in-range `(i, j)` reads differently through `operator()` |
| `TensorModel.EqualsIffSameElements` | Tensor.hpp:42-45 | `==` holds exactly when the shapes agree and every in-range element read through `operator()` agrees |
| `TensorModel.EqualsIsEquivalence` | Tensor.hpp:42-50 | `==` is reflexive, symmetric and transitive, and `!=` is its negation |
| `TensorModel.Transform` | Tensor.hpp:59-60 | writing `op(a[k], b[k])` into a separate output buffer of the same length leaves it equal to the element-wise combination of the inputs |
| `TensorModel.Tensor.Plus` | Tensor.hpp:52-63 | fails with `SizeMismatch` exactly when rows or columns differ; otherwise returns a fresh tensor of the same shape whose buffer is the element-wise sum; neither operand is modified |
| `TensorModel.Tensor.Minus` | Tensor.hpp:65-76 | fails with `SizeMismatch` exactly when rows or columns differ; otherwise returns a fresh tensor of the same shape whose buffer is the element-wise difference; neither operand is modified |
| `TensorModel.ElementwiseAt` | Tensor.hpp:57-60 | in a result built element-wise from two operands of its shape, element `(i, j)` read through `operator()` is `op` of the operands' elements `(i, j)` |
| `TensorModel.DifferenceUndoesSum` | Tensor.hpp:52-76 | `(a + b) - b == a` on buffers |
| `TensorModel.SumUndoesDifference` | Tensor.hpp:52-76 | `(a - b) + b == a` on buffers |
| `TensorModel.SumCommutes` | Tensor.hpp:59-60 | `a + b == b + a` on buffers |
| `TensorModel.SumAssociates` | Tensor.hpp:59-60 | `(a + b) + c == a + (b + c)` on buffers |
| `TensorModel.DifferenceSelfIsZero` | Tensor.hpp:72-73 | `a - a` is the all-zero buffer of the same length |
| `TensorModel.Tensor.Fill` | Tensor.hpp:85-90 | every element becomes `value`, the buffer keeps its length and the shape is unchanged; every in-range `At` gives `Ok(value)` |
| `TensorModel.FillIdempotent` | Tensor.hpp:89 | filling twice with the same value equals filling once, and a later fill overrides an earlier one |

## Left out

- `print` (Tensor.hpp:92-103): console output only.
- `transpose` (Tensor.hpp:78-83): unfinished; it builds a result of the unswapped shape and has no return statement, so it has no defined behaviour to model.
- Scalar multiplication and matrix multiplication: `tests/test1.cpp` uses `A * 3.0` and `10 * B`, but the header defines no such operators.
- The `static_assert`s (Tensor.hpp:22, Tensor.hpp:88): compile-time type checks. `Fill` takes a value already of the element type, so the conversion `static_cast<T>(value)` is the identity.
- Element types other than `int`, floating point in particular (`Tensor<float>` in the test driver).
- Plus, Minus: use unbounded `int`, so they do not model overflow of a fixed-width element type.
- Tensor.constructor: uses unbounded `nat` for `rows * cols`, so it does not model `size_t` wrap-around of the buffer size.
- Tensor: the fields are public in the model, so nothing stops two `Tensor` objects from sharing one `data` array; `std::vector` gives each tensor its own buffer. The model does not enforce that exclusive ownership; every tensor it creates (constructor, `Plus`, `Minus`) has a fresh buffer.
- Transform: requires the output buffer to differ from both inputs; `std::transform` also allows writing in place, which the class never does.
- Copy construction and copy assignment (used by `A = A * 3.0` in the test driver) are compiler-generated and not modelled; results of `Plus`/`Minus` are fresh objects instead.
