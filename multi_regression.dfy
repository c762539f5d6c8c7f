/** The multi-output regression loss operator (MultiRegression).

    Forward maps every element of the data through the operator's forward
    function; Backward writes, at every position, the weight times the
    operator's backward function of the output and the target. The label is
    packed like WSoftmax's: viewed as (N, 2, M), channel 0 holds the target
    and channel 1 the weight; the data, the output and the gradient are
    viewed as (N, 1, M). */
module MultiRegression {
  import opened Host
  import opened Shapes
  import opened Layout
  import opened Declarations

  /** The element-wise forward functions an operator can be built with. */
  datatype ForwardKind = Identity | Sigmoid | ModPi

  /** The element-wise backward functions of (output, target). */
  datatype BackwardKind = Minus | SinMinus

  /** An operator instance: its forward and its backward function. */
  datatype RegressionOp = RegressionOp(forward: ForwardKind, backward: BackwardKind)

  /** 2*pi, the period `mod_pi` reduces by. */
  const TwoPi: real := 6.283185307179586

  // ---------------------------------------------------------------------
  // Scalar functions of the angle regression

  /** `mod_pi`: a negative angle passes through unchanged (a sentinel),
      any other is reduced modulo 2*pi by the host's `fmod`. */
  function ModPiOf(host: HostMath, a: real): (r: real)
    ensures a < 0.0 ==> r == a
    ensures a >= 0.0 ==> r == host.fmod(a, TwoPi)
  {
    if a < 0.0 then a else host.fmod(a, TwoPi)
  }

  /** `sin_minus`: with both angles non-negative, the sine of half their
      difference; when either is negative, plain subtraction. */
  function SinMinusOf(host: HostMath, a: real, b: real): (r: real)
    ensures (a < 0.0 || b < 0.0) ==> r == a - b
    ensures a >= 0.0 && b >= 0.0 ==> r == host.sinf((a - b) / 2.0)
  {
    if a >= 0.0 && b >= 0.0 then host.sinf((a - b) / 2.0) else a - b
  }

  /** `fmod` behaves as C's does on non-negative arguments: the result lies
      in [0, y), and an argument already there comes back unchanged. */
  ghost predicate FmodReduces(host: HostMath) {
    (forall x: real :: 0.0 <= x ==> 0.0 <= host.fmod(x, TwoPi) < TwoPi) &&
    (forall x: real :: 0.0 <= x < TwoPi ==> host.fmod(x, TwoPi) == x)
  }

  /** Reducing an angle twice is reducing it once. */
  lemma ModPiIdempotent(host: HostMath, a: real)
    requires FmodReduces(host)
    ensures ModPiOf(host, ModPiOf(host, a)) == ModPiOf(host, a)
    ensures a >= 0.0 ==> 0.0 <= ModPiOf(host, a) < TwoPi
  {
    if a >= 0.0 {
      var r := host.fmod(a, TwoPi);
      assert 0.0 <= r < TwoPi;
      assert host.fmod(r, TwoPi) == r;
    }
  }

  /** With an odd sine, swapping the two angles negates `sin_minus`, in the
      sine branch and in the subtraction branch alike; equal angles give 0. */
  lemma SinMinusAntisymmetric(host: HostMath, a: real, b: real)
    requires forall x: real :: host.sinf(-x) == -host.sinf(x)
    ensures SinMinusOf(host, a, b) == -SinMinusOf(host, b, a)
    ensures SinMinusOf(host, a, a) == 0.0
  {
    if a >= 0.0 && b >= 0.0 {
      assert (b - a) / 2.0 == -((a - b) / 2.0);
      assert host.sinf(-((a - b) / 2.0)) == -host.sinf((a - b) / 2.0);
    }
    assert host.sinf(-0.0) == -host.sinf(0.0);
  }

  /** The forward function of an operator applied to one element. */
  function ApplyForward(op: RegressionOp, host: HostMath, x: real): real {
    match op.forward
    case Identity => x
    case Sigmoid => host.sigmoid(x)
    case ModPi => ModPiOf(host, x)
  }

  /** The backward function of an operator applied to an output and its
      target. */
  function ApplyBackward(op: RegressionOp, host: HostMath, o: real, target: real): real {
    match op.backward
    case Minus => o - target
    case SinMinus => SinMinusOf(host, o, target)
  }

  /** The gradient at a position whose output is `o`, target `target` and
      weight `w`. */
  function GradEntry(op: RegressionOp, host: HostMath, o: real, target: real, w: real): real {
    w * ApplyBackward(op, host, o, target)
  }

  // ---------------------------------------------------------------------
  // Forward and Backward

  /** Shapes the operator can view as (n, 1, Size/n): n is dimension 0,
      which is divided by. */
  predicate Viewable(s: Shape) {
    |s| >= 1 && s[0] > 0
  }

  /** The (N, M) of the (N, 1, M) view: N is dimension 0 and M the size
      divided by it, which holds every element. */
  function View(s: Shape): (v: (nat, nat))
    requires Viewable(s)
    ensures v.0 == s[0] && v.1 == Size(s[1..])
    ensures v.0 * 1 * v.1 == Size(s)
  {
    SizeDivFirst(s);
    (s[0], Size(s) / s[0])
  }

  /** Forward: the output, viewed as (n, 1, Size/n) like the data, must
      hold exactly as many elements; then every element becomes the forward
      function of the matching data element, written under the request
      (null leaves it, add accumulates). The output may share its storage
      with the data. */
  method Forward(op: RegressionOp, host: HostMath, req: OpReq, dataShape: Shape,
                 data: array<real>, out: array<real>) returns (r: Outcome)
    requires Viewable(dataShape)
    requires data.Length == Size(dataShape)
    modifies out
    ensures out.Length == data.Length ==>
      r == Pass &&
      forall i :: 0 <= i < out.Length ==>
        out[i] == Assigned(req, old(out[i]), ApplyForward(op, host, old(data[i])))
    ensures out.Length != data.Length ==> r == Fatal(ShapeMismatch) && unchanged(out)
  {
    var (n, M) := View(dataShape);
    if out.Length != n * 1 * M {
      return Fatal(ShapeMismatch);
    }
    var i := 0;
    while i < out.Length
      invariant i <= out.Length
      invariant forall j :: 0 <= j < i ==>
        out[j] == Assigned(req, old(out[j]), ApplyForward(op, host, old(data[j])))
      invariant forall j :: i <= j < out.Length ==> out[j] == old(out[j]) && data[j] == old(data[j])
    {
      out[i] := Assigned(req, out[i], ApplyForward(op, host, data[i]));
      i := i + 1;
    }
    return Pass;
  }

  /** Backward: with the output viewed as (n, 1, M), M = Size/n, the label
      must hold n*2*M elements and the gradient n*M; then the gradient at
      (n, 0, m) becomes the weight at (n, 1, m) of the label times the
      backward function of the output there and the target at (n, 0, m),
      written under the request. The upstream gradient is not read. The
      gradient may share its storage with the output. */
  method Backward(op: RegressionOp, host: HostMath, req: OpReq, outShape: Shape, outGrad: array<real>,
                  out: array<real>, labelWeight: array<real>, grad: array<real>) returns (r: Outcome)
    requires Viewable(outShape)
    requires out.Length == Size(outShape)
    requires labelWeight != grad
    modifies grad
    ensures var (N, M) := View(outShape);
      if labelWeight.Length == N * 2 * M && grad.Length == N * 1 * M then
        r == Pass &&
        forall n: nat, m: nat :: n < N && m < M ==>
          Elem(grad[..], n, 0, m, N, 1, M) ==
            Assigned(req, Elem(old(grad[..]), n, 0, m, N, 1, M),
                     GradEntry(op, host, Elem(old(out[..]), n, 0, m, N, 1, M),
                               Elem(labelWeight[..], n, 0, m, N, 2, M),
                               Elem(labelWeight[..], n, 1, m, N, 2, M)))
      else
        r == Fatal(ShapeMismatch) && unchanged(grad)
  {
    var (N, M) := View(outShape);
    if labelWeight.Length != N * 2 * M || grad.Length != N * 1 * M {
      return Fatal(ShapeMismatch);
    }
    var n := 0;
    while n < N
      invariant n <= N
      invariant forall n': nat, m': nat :: n' < N && m' < M ==>
        if n' < n then
          Elem(grad[..], n', 0, m', N, 1, M) ==
            Assigned(req, Elem(old(grad[..]), n', 0, m', N, 1, M),
                     GradEntry(op, host, Elem(old(out[..]), n', 0, m', N, 1, M),
                               Elem(labelWeight[..], n', 0, m', N, 2, M),
                               Elem(labelWeight[..], n', 1, m', N, 2, M)))
        else
          Elem(grad[..], n', 0, m', N, 1, M) == Elem(old(grad[..]), n', 0, m', N, 1, M) &&
          Elem(out[..], n', 0, m', N, 1, M) == Elem(old(out[..]), n', 0, m', N, 1, M)
    {
      BackwardRow(op, host, req, out, labelWeight, grad, N, M, n);
      n := n + 1;
    }
    return Pass;
  }

  /** Backward's assignment for the positions of sample `n`. */
  method BackwardRow(op: RegressionOp, host: HostMath, req: OpReq, out: array<real>,
                     labelWeight: array<real>, grad: array<real>, N: nat, M: nat, n: nat)
    requires out.Length == N * 1 * M && grad.Length == N * 1 * M && labelWeight.Length == N * 2 * M
    requires labelWeight != grad && n < N
    modifies grad
    ensures forall n': nat, m': nat :: n' < N && m' < M ==>
      Elem(grad[..], n', 0, m', N, 1, M) ==
        if n' == n then
          Assigned(req, Elem(old(grad[..]), n', 0, m', N, 1, M),
                   GradEntry(op, host, Elem(old(out[..]), n', 0, m', N, 1, M),
                             Elem(labelWeight[..], n', 0, m', N, 2, M),
                             Elem(labelWeight[..], n', 1, m', N, 2, M)))
        else Elem(old(grad[..]), n', 0, m', N, 1, M)
  {
    OffsetsInBounds(N, 1, M);
    OffsetsInBounds(N, 2, M);
    OffsetsDistinct(1, M);
    var m := 0;
    while m < M
      invariant m <= M
      invariant forall n': nat, m': nat :: n' < N && m' < M ==>
        grad[Offset(n', 0, m', 1, M)] ==
          if n' == n && m' < m then
            Assigned(req, old(grad[Offset(n', 0, m', 1, M)]),
                     GradEntry(op, host, old(out[Offset(n', 0, m', 1, M)]),
                               labelWeight[Offset(n', 0, m', 2, M)], labelWeight[Offset(n', 1, m', 2, M)]))
          else old(grad[Offset(n', 0, m', 1, M)])
      invariant forall m': nat :: m <= m' < M ==> out[Offset(n, 0, m', 1, M)] == old(out[Offset(n, 0, m', 1, M)])
    {
      var p := Offset(n, 0, m, 1, M);
      grad[p] := Assigned(req, grad[p],
                          GradEntry(op, host, out[p], labelWeight[Offset(n, 0, m, 2, M)],
                                    labelWeight[Offset(n, 1, m, 2, M)]));
      m := m + 1;
    }
  }

  // ---------------------------------------------------------------------
  // Shape inference

  /** The packed label shape that goes with a data shape: (d0, 2, Size/d0),
      twice as many elements as the data. */
  function LabelShape(d: Shape): (l: Shape)
    requires Viewable(d)
    ensures |l| == 3 && l[0] == d[0] && l[1] == 2 && d[0] * l[2] == Size(d)
    ensures Size(l) == 2 * Size(d)
  {
    SizeDivFirst(d);
    var l := [d[0], 2, Size(d) / d[0]];
    SizeOfThree(l);
    l
  }

  /** The output shape: the data shape with dimension 1 set to 1, so it
      holds the data's size divided by d1. */
  function OutputShape(d: Shape): (o: Shape)
    requires |d| >= 2
    ensures |o| == |d| && o[1] == 1
    ensures forall i :: 0 <= i < |d| && i != 1 ==> o[i] == d[i]
    ensures Size(o) * d[1] == Size(d)
  {
    var o := d[1 := 1];
    SizeLeading(d);
    SizeLeading(o);
    assert o[2..] == d[2..];
    o
  }

  /** What InferShape must be given: the data shape is indexed at 0 and 1
      and its size divided by d0. Unlike WSoftmax, there is no early exit
      for an unknown data shape. */
  predicate InferShapeDefined(inShapes: seq<Shape>) {
    |inShapes| == 2 ==> |inShapes[Data]| >= 2 && inShapes[Data][0] > 0
  }

  /** The shapes InferShape leaves behind: the label slot assigned the
      packed label shape and a single output of the output shape. */
  function InferredShapes(inShapes: seq<Shape>): (r: Result<ShapeInference>)
    requires InferShapeDefined(inShapes)
    ensures |inShapes| != 2 ==> r == Fail(ArgumentCount)
    ensures |inShapes| == 2 ==>
      (r.Ok? <==> inShapes[Label] == [] || inShapes[Label] == LabelShape(inShapes[Data]))
    ensures r.Ok? ==>
      r.value.Inferred? && |r.value.inShapes| == 2 &&
      r.value.inShapes[Data] == inShapes[Data] &&
      r.value.inShapes[Label] == LabelShape(inShapes[Data]) &&
      r.value.outShapes == [OutputShape(inShapes[Data])]
    ensures r.Fail? ==> r == Fail(ArgumentCount) || r == Fail(ShapeMismatch)
  {
    if |inShapes| != 2 then Fail(ArgumentCount)
    else
      match ShapeAssign(inShapes[Label], LabelShape(inShapes[Data]))
      case None => Fail(ShapeMismatch)
      case Some(l) => Ok(Inferred(inShapes[Label := l], [OutputShape(inShapes[Data])]))
  }

  /** InferShape on the host's vectors: fills in the label shape and
      replaces the outputs by the output shape, returning true; a failed
      check leaves both vectors as they were. */
  method InferShape(inShape: Vector<Shape>, outShape: Vector<Shape>) returns (r: Result<bool>)
    requires inShape != outShape
    requires InferShapeDefined(inShape.items)
    modifies inShape, outShape
    ensures match InferredShapes(old(inShape.items))
      case Fail(f) =>
        r == Fail(f) && inShape.items == old(inShape.items) && outShape.items == old(outShape.items)
      case Ok(v) =>
        r == Ok(true) && v.Inferred? && inShape.items == v.inShapes && outShape.items == v.outShapes
  {
    if |inShape.items| != 2 {
      return Fail(ArgumentCount);
    }
    var dshape := inShape.items[Data];
    SizeDivFirst(dshape);
    match ShapeAssign(inShape.items[Label], [dshape[0], 2, Size(dshape) / dshape[0]])
    case None =>
      return Fail(ShapeMismatch);
    case Some(slot) =>
      inShape.items := inShape.items[Label := slot];
    var oshape := dshape;
    oshape := oshape[1 := 1];
    outShape.items := [];
    outShape.items := outShape.items + [oshape];
    return Ok(true);
  }

  lemma {:induction false} SizePositive(s: Shape)
    requires Positive(s)
    ensures Size(s) > 0
  {
    if |s| > 0 {
      assert Positive(s[1..]);
      SizePositive(s[1..]);
    }
  }

  /** The output shape InferShape assigns holds as many elements as the
      data, which Forward's output check and Backward's label check demand,
      exactly when d1 is 1. */
  lemma InferredShapesFitOperatorIffChannelOne(d: Shape)
    requires |d| >= 2 && Positive(d)
    ensures Size(OutputShape(d)) == Size(d) <==> d[1] == 1
    ensures var (N, M) := View(OutputShape(d));
      Size(LabelShape(d)) == N * 2 * M <==> d[1] == 1
  {
    var o := OutputShape(d);
    SizePositive(d);
    UnitFactor(Size(o), d[1], Size(d));
    var (N, M) := View(o);
    DoubleMiddle(N, M);
  }

  /** A factor k with x * k == y > 0 leaves y unchanged exactly when it is 1. */
  lemma UnitFactor(x: nat, k: nat, y: nat)
    requires x * k == y && y > 0
    ensures x == y <==> k == 1
  {
    if k >= 2 {
      MulMono(2, k, x);
    }
  }

  lemma DoubleMiddle(N: nat, M: nat)
    ensures N * 2 * M == 2 * (N * 1 * M)
  {
  }

  // ---------------------------------------------------------------------
  // Properties of the gradient

  /** Weight linearity: for two packed labels with the same targets, one
      with weight 1 everywhere and one with weight w everywhere, the
      gradients Backward writes with a plain write request differ by the
      factor w. */
  lemma WeightLinearity(op: RegressionOp, host: HostMath, grad1: seq<real>, grad: seq<real>,
                        out: seq<real>, label1: seq<real>, labelW: seq<real>, w: real, N: nat, M: nat)
    requires |grad1| == |grad| == |out| == N * 1 * M && |label1| == |labelW| == N * 2 * M
    requires forall n: nat, m: nat :: n < N && m < M ==>
      Elem(label1, n, 0, m, N, 2, M) == Elem(labelW, n, 0, m, N, 2, M) &&
      Elem(label1, n, 1, m, N, 2, M) == 1.0 && Elem(labelW, n, 1, m, N, 2, M) == w
    requires forall n: nat, m: nat :: n < N && m < M ==>
      Elem(grad1, n, 0, m, N, 1, M) ==
        GradEntry(op, host, Elem(out, n, 0, m, N, 1, M),
                  Elem(label1, n, 0, m, N, 2, M), Elem(label1, n, 1, m, N, 2, M))
    requires forall n: nat, m: nat :: n < N && m < M ==>
      Elem(grad, n, 0, m, N, 1, M) ==
        GradEntry(op, host, Elem(out, n, 0, m, N, 1, M),
                  Elem(labelW, n, 0, m, N, 2, M), Elem(labelW, n, 1, m, N, 2, M))
    ensures forall n: nat, m: nat :: n < N && m < M ==>
      Elem(grad, n, 0, m, N, 1, M) == w * Elem(grad1, n, 0, m, N, 1, M)
  {
    forall n: nat, m: nat | n < N && m < M
      ensures Elem(grad, n, 0, m, N, 1, M) == w * Elem(grad1, n, 0, m, N, 1, M)
    {
      var b := ApplyBackward(op, host, Elem(out, n, 0, m, N, 1, M), Elem(labelW, n, 0, m, N, 2, M));
      assert Elem(grad1, n, 0, m, N, 1, M) == 1.0 * b;
      assert Elem(grad, n, 0, m, N, 1, M) == w * b;
    }
  }

  /** A weight of 0 everywhere makes the gradient Backward writes with a
      plain write request 0 in every entry, whatever the outputs and
      targets. */
  lemma ZeroWeightZeroGrad(op: RegressionOp, host: HostMath, grad: seq<real>, out: seq<real>,
                           labelWeight: seq<real>, N: nat, M: nat)
    requires |grad| == |out| == N * 1 * M && |labelWeight| == N * 2 * M
    requires forall n: nat, m: nat :: n < N && m < M ==> Elem(labelWeight, n, 1, m, N, 2, M) == 0.0
    requires forall n: nat, m: nat :: n < N && m < M ==>
      Elem(grad, n, 0, m, N, 1, M) ==
        GradEntry(op, host, Elem(out, n, 0, m, N, 1, M),
                  Elem(labelWeight, n, 0, m, N, 2, M), Elem(labelWeight, n, 1, m, N, 2, M))
    ensures forall i :: 0 <= i < |grad| ==> grad[i] == 0.0
  {
    forall n: nat, c: nat, m: nat | n < N && c < 1 && m < M
      ensures Elem(grad, n, c, m, N, 1, M) == 0.0
    {
      assert c == 0;
    }
    ElemsCover(grad, 0.0, N, 1, M);
  }

  /** A client of the two contracts: linear regression of one element with
      data 5, target 3 and weight 2 gives the output 5 and the gradient
      2 * (5 - 3) = 4. */
  method LinearExample(host: HostMath) {
    var op := RegressionOp(Identity, Minus);
    var data := new real[1];
    data[0] := 5.0;
    var out := new real[1];
    var r := Forward(op, host, WriteTo, [1, 1], data, out);
    assert r == Pass && out[0] == 5.0;
    var labelWeight := new real[2];
    labelWeight[0], labelWeight[1] := 3.0, 2.0;
    var outGrad := new real[1];
    var grad := new real[1];
    r := Backward(op, host, WriteTo, [1, 1], outGrad, out, labelWeight, grad);
    assert r == Pass;
    assert Elem(grad[..], 0, 0, 0, 1, 1, 1) == grad[0];
    assert grad[0] == 4.0;
  }
}
