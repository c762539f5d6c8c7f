/** Building a MultiRegression operator: the regression kind selects the
    operator's pair of element-wise functions, after the element type has
    been checked to be a floating-point type, and the host's extended
    constructor runs shape and type inference first. */
module MultiRegressionFactory {
  import opened Host
  import opened Shapes
  import MultiRegression
  import opened Declarations

  // The regression kinds of the operator's `regr_type` parameter.
  const Linear: int := 0
  const Logistic: int := 1
  const Angle: int := 2

  /** The operators the factory can build. */
  predicate Buildable(op: MultiRegression.RegressionOp) {
    op == MultiRegression.RegressionOp(MultiRegression.Identity, MultiRegression.Minus) ||
    op == MultiRegression.RegressionOp(MultiRegression.Sigmoid, MultiRegression.Minus) ||
    op == MultiRegression.RegressionOp(MultiRegression.ModPi, MultiRegression.SinMinus)
  }

  /** The regression kind that builds a buildable operator. */
  function KindOf(op: MultiRegression.RegressionOp): (k: int)
    requires Buildable(op)
    ensures k == Linear || k == Logistic || k == Angle
  {
    match op.forward
    case Identity => Linear
    case Sigmoid => Logistic
    case ModPi => Angle
  }

  /** `CreateOp`: the element type's switch aborts for a type code that is
      not floating-point; then linear regression pairs the identity with
      subtraction, logistic the sigmoid with subtraction, and angle `mod_pi`
      with `sin_minus`. Any other kind aborts. */
  function CreateOp(regrType: int, dtype: int): (r: Result<MultiRegression.RegressionOp>)
    ensures !IsRealType(dtype) ==> r == Fail(UnsupportedType(dtype))
    ensures IsRealType(dtype) && regrType !in {Linear, Logistic, Angle} ==>
      r == Fail(UnknownRegressionType(regrType))
    ensures r.Ok? ==> IsRealType(dtype) && Buildable(r.value) && KindOf(r.value) == regrType
  {
    if !IsRealType(dtype) then Fail(UnsupportedType(dtype))
    else if regrType == Linear then Ok(MultiRegression.RegressionOp(MultiRegression.Identity, MultiRegression.Minus))
    else if regrType == Logistic then Ok(MultiRegression.RegressionOp(MultiRegression.Sigmoid, MultiRegression.Minus))
    else if regrType == Angle then Ok(MultiRegression.RegressionOp(MultiRegression.ModPi, MultiRegression.SinMinus))
    else Fail(UnknownRegressionType(regrType))
  }

  /** The dispatch is a bijection between the three kinds and the three
      buildable operators: every buildable operator comes from its own kind,
      with any floating-point type. */
  lemma CreateOpInverse(op: MultiRegression.RegressionOp, dtype: int)
    requires Buildable(op) && IsRealType(dtype)
    ensures CreateOp(KindOf(op), dtype) == Ok(op)
  {
  }

  /** Each kind names the pair of functions of its regression. */
  lemma CreateOpKinds(dtype: int)
    requires IsRealType(dtype)
    ensures var lin := CreateOp(Linear, dtype);
      lin.Ok? && lin.value.forward == MultiRegression.Identity && lin.value.backward == MultiRegression.Minus
    ensures var logi := CreateOp(Logistic, dtype);
      logi.Ok? && logi.value.forward == MultiRegression.Sigmoid && logi.value.backward == MultiRegression.Minus
    ensures var ang := CreateOp(Angle, dtype);
      ang.Ok? && ang.value.forward == MultiRegression.ModPi && ang.value.backward == MultiRegression.SinMinus
  {
  }

  /** `CreateOperatorEx`: shape inference must succeed, then type inference
      (the host's, passed in as `inferType`; None when it returns false or
      aborts), and then the operator is built for the first input's type.
      A failure of an earlier step is the one reported. */
  function CreateOperatorEx(regrType: int, inShapes: seq<Shape>,
                            inferType: seq<int> -> Option<seq<int>>, inTypes: seq<int>)
    : (r: Result<MultiRegression.RegressionOp>)
    requires MultiRegression.InferShapeDefined(inShapes)
    ensures MultiRegression.InferredShapes(inShapes).Fail? ==>
      r == Fail(MultiRegression.InferredShapes(inShapes).failure)
    ensures MultiRegression.InferredShapes(inShapes).Ok? && inferType(inTypes).None? ==>
      r == Fail(InferenceFailed)
    ensures MultiRegression.InferredShapes(inShapes).Ok? && inferType(inTypes).Some? ==>
      var types := inferType(inTypes).value;
      if |types| == 0 then r == Fail(ArgumentCount) else r == CreateOp(regrType, types[0])
    ensures r.Ok? ==> |inShapes| == 2 && Buildable(r.value) && KindOf(r.value) == regrType
  {
    match MultiRegression.InferredShapes(inShapes)
    case Fail(f) => Fail(f)
    case Ok(_) =>
      match inferType(inTypes)
      case None => Fail(InferenceFailed)
      case Some(types) =>
        if |types| == 0 then Fail(ArgumentCount) else CreateOp(regrType, types[0])
  }

  /** Shape inference is checked before type inference: with a label shape
      that contradicts the data, the shape mismatch is reported whatever the
      types are. */
  lemma ShapesCheckedFirst(regrType: int, inShapes: seq<Shape>,
                           inferType: seq<int> -> Option<seq<int>>, inTypes: seq<int>)
    requires MultiRegression.InferShapeDefined(inShapes) && |inShapes| == 2
    requires inShapes[Label] != [] && inShapes[Label] != MultiRegression.LabelShape(inShapes[Data])
    ensures CreateOperatorEx(regrType, inShapes, inferType, inTypes) == Fail(ShapeMismatch)
  {
  }
}
