# Weighted softmax and multi-output regression loss operators

This project models two loss-operator plugins for the MXNet training
framework, and proves properties of the model.

- **WSoftmax** is a class-weighted softmax loss. Forward writes the softmax of
  the data over the class axis. Backward writes the softmax cross-entropy
  gradient, scaled by a per-position weight.
- **MultiRegression** is an element-wise regression loss. It has three kinds:
  linear, logistic and angle. Forward maps each element through the kind's
  forward function. Backward writes the weight times the kind's backward
  function of the output and the target.

Both operators take a packed label. Viewed as (N, 2, M), channel 0 holds the
target and channel 1 holds the weight.

## How the model is built

**Buffers and layout.**
- Tensors are flat `array<real>` buffers.
- Element (n, c, m) of an (N, C, M) view sits at `Layout.Offset(n, c, m, C, M) = (n*C + c)*M + m`.
- `Layout.Elem` reads one element and `Layout.Column` reads the scores of one position.
- The 2-D flat WSoftmax layout is the case M = 1.
- A channel slice is the case C = 1.

**Host maths.** The host's transcendental routines are passed in as the
uninterpreted functions of a `Host.HostMath` value: the logistic sigmoid,
`fmod`, `sinf`, and the softmax of a vector of class scores.

**Host checks.** The host's checking macros become a `Result` or `Outcome`
value carrying a `Host.Failure`, instead of aborting:
- `CHECK` on shape and type vectors;
- `SHAPE_ASSIGN_CHECK`;
- the reshaping `get_with_shape` size check;
- the host softmax's check that its output and input matrices have the same shape;
- `LOG(FATAL)`.

**Host vectors.** The `std::vector` objects that shape and type inference fill
in are `Host.Vector` objects, whose `items` field the methods reassign.

**Write requests.** The host's write request (null, write, in-place write,
add) is `Host.OpReq`. `Host.Assigned` gives the value an element holds after
the host's `Assign`.

**Aliasing.**
- The output may share storage with the data in Forward.
- The gradient may share storage with the output in Backward.
- Contracts are stated against `old(...)` contents, so they hold under this
  sharing.
- The label buffer is required to be distinct from the gradient.

**Preconditions.** `requires` clauses exclude only inputs on which the source
misbehaves:
- indexing dimension 0 or 1 of a shape with too few dimensions;
- dividing by a zero dimension;
- flat-mode WSoftmax Backward on data that is not two-dimensional. It takes n
  and k from dimensions 0 and 1 but flattens the buffers to (Size/last, last),
  so the two views agree only for matrices.

**Shared declarations.** Both operators make the same declarations to the
host: the backward dependency and the two in-place pairs. The `Declarations`
module models them once.

**Observations.**
- The MultiRegression output shape has dimension 1 set to 1. Forward and
  Backward reinterpret the output as holding as many elements as the data. The
  two agree exactly when d1 is 1 (`MultiRegression.InferredShapesFitOperatorIffChannelOne`).
- MultiRegression InferShape has no early exit for an unknown data shape,
  unlike WSoftmax InferShape. It indexes the data shape unconditionally, and
  the model requires a data shape with at least two dimensions.

## Model

| member | source | states |
|---|---|---|
| Shapes.ShapeAssign | mxnet/plugin/wsoftmax/wsoftmax-inl.h:152-159 | a shape slot is accepted exactly when it is unknown or already equal to the inferred shape, and then holds the inferred shape |
| Shapes.FlatTo2D | mxnet/plugin/wsoftmax/wsoftmax-inl.h:58-59 | the matrix view of a tensor keeps its last dimension as columns and all its entries; a tensor with no dimensions gives the empty matrix |
| Shapes.SizeDivFirst | mxnet/plugin/multiregression/multi_regression-inl.h:76 | for d0 > 0, Size/d0 is the size of the trailing dimensions and d0 * (Size/d0) == Size, so the (n, 1, Size/n) view keeps every element |
| Shapes.SizeDivFirstTwo | mxnet/plugin/wsoftmax/wsoftmax-inl.h:81-83 | for d0, d1 > 0, d0 * d1 * (Size/d0/d1) == Size, so the (n, k, Size/n/k) view keeps every element |
| WSoftmax.ForwardView | mxnet/plugin/wsoftmax/wsoftmax-inl.h:48-59 | Forward's (N, K, M) view covers the whole buffer: (d0, d1, rest) with multiple outputs, (leading product, last dimension, 1) for the flattened matrix |
| WSoftmax.BackwardView | mxnet/plugin/wsoftmax/wsoftmax-inl.h:79-105 | Backward's view takes N and K from dimensions 0 and 1 and covers the whole buffer; flat mode is M = 1 |
| WSoftmax.Forward | mxnet/plugin/wsoftmax/wsoftmax-inl.h:38-62 | when the output passes the host's shape check (with multiple outputs the same number of entries as the data; otherwise the output, flattened by its own shape, gives the same matrix as the data), every output entry (n, c, m) is the host softmax of the original scores of position (n, m) at class c, whatever the write request; otherwise a shape failure that leaves the output untouched |
| WSoftmax.FlatOutputMustMatch | mxnet/plugin/wsoftmax/wsoftmax-inl.h:58-60 | without multiple outputs, for 2x3 data an output of shape [2, 3] or [1, 2, 3] passes Forward's check and outputs of shape [3, 2] or [6] fail it, though all hold six entries |
| WSoftmax.ExtractTargets | mxnet/plugin/wsoftmax/wsoftmax-inl.h:88-92 | the fresh (N, 1, M) scratch holds at (n, 0, m) the packed label's channel 0 at (n, 0, m); the label is not modified |
| WSoftmax.ExtractRow | mxnet/plugin/wsoftmax/wsoftmax-inl.h:107-112 | one sample's targets are copied and every other scratch entry is unchanged |
| WSoftmax.SoftmaxGrad | mxnet/plugin/wsoftmax/wsoftmax-inl.h:94 | every gradient entry is the original output minus 1 exactly at the class the target names (truncated toward zero), even when the gradient shares storage with the output |
| WSoftmax.SoftmaxGradAt | mxnet/plugin/wsoftmax/wsoftmax-inl.h:114 | the one-hot gradient at one position, with every other position unchanged |
| WSoftmax.ScaleByWeight | mxnet/plugin/wsoftmax/wsoftmax-inl.h:96-97 | after the loop over the class channels, each entry (n, c, m) is its value before the loop times the weight at (n, 1, m); the loop invariant has channels below i already weighted and the rest untouched |
| WSoftmax.Backward | mxnet/plugin/wsoftmax/wsoftmax-inl.h:64-119 | on matching label and gradient sizes, grad[n, c, m] == (out[n, c, m] - onehot(c, target[n, m])) * weight[n, m], with the upstream gradient and the write request not read; otherwise a shape failure with the gradient untouched |
| WSoftmax.LabelShape | mxnet/plugin/wsoftmax/wsoftmax-inl.h:151-160 | the packed label shape is (d0, 2, Size/d0/d1) with multiple outputs; in flat mode it keeps the ndim and every dimension but the last, which becomes 2 |
| WSoftmax.FlatLabelShape | mxnet/plugin/wsoftmax/wsoftmax-inl.h:155-158 | the copying loop builds exactly the flat label shape |
| WSoftmax.InferredShapes | mxnet/plugin/wsoftmax/wsoftmax-inl.h:144-164 | a wrong input count fails; an unknown data shape defers; otherwise inference succeeds exactly when the label slot is unknown or equal to the label shape, and then gives that label shape and the single output [dshape] |
| WSoftmax.InferShape | mxnet/plugin/wsoftmax/wsoftmax-inl.h:144-164 | on the host vectors: an unknown data shape returns false and touches nothing; success fills the label slot and replaces the outputs by [dshape]; a failure leaves both vectors unchanged |
| WSoftmax.InferredShapesFitOperator | mxnet/plugin/wsoftmax/wsoftmax-inl.h:151-162 | for data Backward can view, the inferred label shape holds exactly the N * 2 * M elements Backward's label view needs, and the inferred output shape (the data's own) passes Forward's output check |
| WSoftmax.Filled | mxnet/plugin/wsoftmax/wsoftmax-inl.h:173-174 | every unknown type code is replaced by the given type and every known one is kept |
| WSoftmax.FirstConflict | mxnet/plugin/wsoftmax/wsoftmax-inl.h:176-178 | the first index whose known type differs from the given type, with all entries before it unknown or equal |
| WSoftmax.InferType | mxnet/plugin/wsoftmax/wsoftmax-inl.h:166-184 | no inputs fail; an unknown first type fails; otherwise on success every input has the first type and the output types are [dtype]; on a mismatch at j, entries before j are filled and the rest untouched |
| WSoftmax.InferTypeSettles | mxnet/plugin/wsoftmax/wsoftmax-inl.h:172-183 | after a successful run every input equals dtype, and a second run finds no conflict and changes nothing |
| WSoftmax.BackwardResource | mxnet/plugin/wsoftmax/wsoftmax-inl.h:217-220 | Backward requests exactly one temporary-space resource |
| WSoftmax.GradColumn | mxnet/plugin/wsoftmax/wsoftmax-inl.h:94-97 | the gradient of one position, class by class |
| WSoftmax.GradColumnSum | mxnet/plugin/wsoftmax/wsoftmax-inl.h:94-97 | summed over the classes, the gradient is the weight times (the sum of the outputs minus 1 when the target names a class) |
| WSoftmax.BackwardColumnSum | mxnet/plugin/wsoftmax/wsoftmax-inl.h:96-97 | for buffers satisfying Backward's postcondition, the same sum per position; with outputs summing to 1 and a valid target, the gradient sums to 0 for every weight |
| WSoftmax.WeightLinearity | mxnet/plugin/wsoftmax/wsoftmax-inl.h:96-97 | with equal targets, the gradient for weight w everywhere is w times the gradient for weight 1 everywhere |
| WSoftmax.ZeroWeightZeroGrad | mxnet/plugin/wsoftmax/wsoftmax-inl.h:116-117 | a zero weight everywhere makes every entry of the gradient buffer 0 |
| Declarations.DeclareBackwardDependency | mxnet/plugin/wsoftmax/wsoftmax-inl.h:196-201 | Backward depends on exactly [label, out] |
| Declarations.BackwardSkipsGradientAndData | mxnet/plugin/multiregression/multi_regression-inl.h:169-174 | with distinct buffer ids, neither the upstream gradient nor the data is a backward dependency (the same declaration as WSoftmax's) |
| Declarations.BackwardInplaceOption | mxnet/plugin/wsoftmax/wsoftmax-inl.h:203-209 | the single in-place pair is (out, gradient of the data); also multi_regression-inl.h lines 176-182 |
| Declarations.ForwardInplaceOption | mxnet/plugin/multiregression/multi_regression-inl.h:184-188 | the single in-place pair is (data, out); also wsoftmax-inl.h lines 211-215 |
| MultiRegression.ModPiOf | mxnet/plugin/multiregression/multi_regression-inl.h:17-23 | negative angles pass through unchanged; non-negative ones become fmod(a, 2*pi) |
| MultiRegression.SinMinusOf | mxnet/plugin/multiregression/multi_regression-inl.h:26-33 | a - b whenever either argument is negative; sinf((a - b)/2) when both are non-negative |
| MultiRegression.ModPiIdempotent | mxnet/plugin/multiregression/multi_regression-inl.h:19-22 | with C's fmod on non-negative arguments, mod_pi lands in [0, 2*pi) on non-negative input and applying it twice equals applying it once |
| MultiRegression.SinMinusAntisymmetric | mxnet/plugin/multiregression/multi_regression-inl.h:28-32 | with an odd sine, swapping the angles negates sin_minus in both branches, and equal angles give 0 |
| MultiRegression.View | mxnet/plugin/multiregression/multi_regression-inl.h:74-76 | the (n, 1, Size/n) view takes n from dimension 0 and holds every element |
| MultiRegression.Forward | mxnet/plugin/multiregression/multi_regression-inl.h:60-81 | when the output size matches the data size, out[i] == Assigned(req, old out[i], ForwardOp(data[i])) for every flat index (null keeps, write overwrites, add accumulates); otherwise a shape failure with the output untouched |
| MultiRegression.Backward | mxnet/plugin/multiregression/multi_regression-inl.h:83-119 | on label size N*2*M and gradient size N*M, grad[n, m] == Assigned(req, old grad, weight[n, m] * BackwardOp(out[n, m], target[n, m])) with the label untouched and the upstream gradient not read; otherwise a shape failure with the gradient untouched |
| MultiRegression.BackwardRow | mxnet/plugin/multiregression/multi_regression-inl.h:110-111 | the assignment for one sample, with every other gradient entry unchanged |
| MultiRegression.LabelShape | mxnet/plugin/multiregression/multi_regression-inl.h:149-150 | the label shape is (d0, 2, Size/d0) and holds twice as many elements as the data |
| MultiRegression.OutputShape | mxnet/plugin/multiregression/multi_regression-inl.h:152-153 | the output shape has the data's ndim and dimensions except dimension 1, which is 1; its size times d1 is the data size |
| MultiRegression.InferredShapes | mxnet/plugin/multiregression/multi_regression-inl.h:142-157 | a wrong input count fails; otherwise inference succeeds, never deferring, exactly when the label slot is unknown or equal to the label shape, and gives that label shape and the single output shape |
| MultiRegression.InferShape | mxnet/plugin/multiregression/multi_regression-inl.h:142-157 | on the host vectors: success returns true, fills the label slot and replaces the outputs by [output shape]; a failure leaves both vectors unchanged |
| MultiRegression.InferredShapesFitOperatorIffChannelOne | mxnet/plugin/multiregression/multi_regression-inl.h:102-105 | for positive dimensions, the inferred output has the data's size, and Backward's label check passes on the inferred shapes, exactly when d1 == 1 |
| MultiRegression.WeightLinearity | mxnet/plugin/multiregression/multi_regression-inl.h:110-111 | with a plain write and equal targets, the gradient for weight w everywhere is w times the gradient for weight 1 |
| MultiRegression.ZeroWeightZeroGrad | mxnet/plugin/multiregression/multi_regression-inl.h:110-111 | with a plain write, a zero weight everywhere makes every gradient entry 0 |
| MultiRegressionFactory.CreateOp | src/operators/multi_regression.cc:8-23 | an element type that is not floating point fails first; kinds linear, logistic and angle build their operators, and any other kind fails with the unknown kind |
| MultiRegressionFactory.KindOf | src/operators/multi_regression.cc:11-17 | every buildable operator comes from one of the three kinds |
| MultiRegressionFactory.CreateOpInverse | src/operators/multi_regression.cc:11-17 | dispatch is inverse to KindOf: each buildable operator is built from its own kind, for any floating-point type |
| MultiRegressionFactory.CreateOpKinds | src/operators/multi_regression.cc:12-17 | linear gives (identity, minus), logistic gives (sigmoid, minus), angle gives (mod_pi, sin_minus) |
| MultiRegressionFactory.CreateOperatorEx | src/operators/multi_regression.cc:25-32 | a shape inference failure is reported first, then a failed type inference, then a missing type; otherwise the result is CreateOp of the first inferred type |
| MultiRegressionFactory.ShapesCheckedFirst | src/operators/multi_regression.cc:29-30 | a label shape that contradicts the data is a shape failure whatever the types are |

The client methods `WSoftmax.FlatExample` and `MultiRegression.LinearExample`
use Backward's and Forward's contracts on concrete buffers.

- The first takes a 2x3 matrix of outputs (0.1, 0.2, 0.7 / 1/3, 1/3, 1/3),
  targets 2 and 0, and weights 1 and 0.5. It derives gradient -0.3 at (0, 2),
  and (-1/3, 1/6, 1/6) for the second row.
- The second takes data 5, target 3 and weight 2. It derives output 5 and
  gradient 4.

## Left out

- Floating point.
  - Elements are mathematical reals; single/double/half precision and rounding are not modelled.
  - The softmax body (exponentials, max subtraction), the sigmoid, `fmod` and `sinf` are host functions given as parameters; their numeric properties (sum to one, ranges) are not proved.
  - `MultiRegression.ModPiIdempotent` and `MultiRegression.SinMinusAntisymmetric` state the fmod and sine properties they rely on as preconditions.
- Host routines.
  - WSoftmax.SoftmaxGrad: the host library routine's body is not part of this model. Its effect is modelled as output minus one at the class the target names, with the target converted to a class by truncation toward zero; a target outside 0 .. K-1 subtracts nothing.
  - The temporary-space allocation is modelled as a fresh scratch array. The source's second reshape of that scratch space to (N, M) leaves its contents as they are and is not a separate step.
- The CHECKs on the sizes of the host's argument vectors of Forward and Backward (input, output, gradient and request counts) are left out: the model takes the individual buffers directly.
- The type check inside `get_with_shape` is left out; only its total-size check is modelled, as a shape failure.
- WSoftmax.Backward: in flat mode the source reads the label and the gradient through `FlatTo2D` without a size check and relies on later expression shape checks. The model checks that the label holds N*2 elements and the gradient N*K, and reports a mismatch as the same shape failure.
- Flat-mode WSoftmax Backward on data with more than two dimensions is excluded by a precondition: the source's n and k then disagree with its flattened buffers (mxnet/plugin/wsoftmax/wsoftmax-inl.h:100-105).
- Shape merging.
  - Shapes.ShapeAssign: a known shape must equal the inferred one.
  - The host's merging of partially known shapes (dimensions of 0) is not modelled, because the host's `shape_assign` is not part of this model.
- Integer overflow of the `int`, `index_t` and `size_t` shape arithmetic is not modelled; sizes are unbounded naturals.
- MultiRegression's InferType is inherited from the host's base class, which is not part of this model; `MultiRegressionFactory.CreateOperatorEx` takes it as a function parameter.
- MultiRegression's backward resource list is the host's default and is not modelled.
- WSoftmax's operator factory and registration (src/operators/wsoftmax.cc) are left out. The one behavioural fact there is that its CreateOperatorEx runs InferType before InferShape (src/operators/wsoftmax.cc:20-21), the reverse of MultiRegression's order.
- Left out as framework plumbing:
  - `CreateOperator`, which always aborts;
  - `Copy`, `TypeString`, `GetParams`, `ListArguments`, `Init`;
  - the parameter declarations and the registration macros;
  - device streams and contexts.
