/** The class-weighted softmax loss operator (WSoftmax).

    Forward writes the softmax of the data over the class axis. Backward
    writes the softmax cross-entropy gradient, scaled per position by a
    weight: the label input is packed, channel 0 holding the class index
    and channel 1 the weight. With `multiOutput` the data is viewed as
    (N, K, M) with the classes on axis 1; otherwise it is a matrix with
    one row per sample and the classes along the row. */
module WSoftmax {
  import opened Host
  import opened Shapes
  import opened Layout
  import opened Declarations

  /** The class a label value names, as the host's softmax-gradient routine
      reads it: the value truncated toward zero. */
  function ClassIndex(value: real): int {
    if value >= 0.0 then value.Floor else -((-value).Floor)
  }

  /** 1 at the labelled class and 0 at every other class. */
  function OneHot(c: int, target: real): real {
    if c == ClassIndex(target) then 1.0 else 0.0
  }

  /** A gradient entry `g` scaled by the weight `w` of its position. */
  function Weighted(g: real, w: real): real {
    g * w
  }

  /** The gradient Backward writes for class `c` at a position whose softmax
      output is `o`, whose target is `target` and whose weight is `w`. */
  function WeightedGrad(o: real, target: real, w: real, c: int): real {
    Weighted(o - OneHot(c, target), w)
  }

  // ---------------------------------------------------------------------
  // Views of the flat buffers

  /** Shapes Forward can view: with multiple outputs d0 and d1 are indexed
      and divided by; otherwise the host flattens to a matrix keeping the
      last dimension. */
  predicate ForwardViewable(multiOutput: bool, s: Shape) {
    if multiOutput then |s| >= 2 && s[0] > 0 && s[1] > 0 else |s| >= 1
  }

  /** The (N, K, M) view Forward takes: (d0, d1, Size/d0/d1) with multiple
      outputs, and (product of the leading dimensions, last dimension, 1)
      otherwise. */
  function ForwardView(multiOutput: bool, s: Shape): (v: (nat, nat, nat))
    requires ForwardViewable(multiOutput, s)
    ensures v.0 * v.1 * v.2 == Size(s)
    ensures multiOutput ==> v.0 == s[0] && v.1 == s[1]
    ensures !multiOutput ==> v.1 == s[|s| - 1] && v.2 == 1
  {
    if multiOutput then
      SizeDivFirstTwo(s);
      (s[0], s[1], Size(s) / s[0] / s[1])
    else
      (FlatTo2D(s).0, FlatTo2D(s).1, 1)
  }

  /** Whether Forward's output shape passes the host's check: with multiple
      outputs the output is reshaped to the data's (N, K, M) view, which
      needs the same number of entries; otherwise the output is flattened by
      its own shape and must give the same matrix as the data. */
  predicate OutputFits(multiOutput: bool, dataShape: Shape, outShape: Shape)
    requires ForwardViewable(multiOutput, dataShape)
  {
    if multiOutput then Size(outShape) == Size(dataShape)
    else
      var (N, K, _) := ForwardView(false, dataShape);
      FlatTo2D(outShape) == (N, K)
  }

  /** Shapes Backward can view. It takes n and k from dimensions 0 and 1 of
      the output in both layouts, so the flat layout is only consistent for
      matrices. */
  predicate BackwardViewable(multiOutput: bool, s: Shape) {
    if multiOutput then |s| >= 2 && s[0] > 0 && s[1] > 0 else |s| == 2
  }

  /** The (N, K, M) view Backward takes of the output and the gradient. */
  function BackwardView(multiOutput: bool, s: Shape): (v: (nat, nat, nat))
    requires BackwardViewable(multiOutput, s)
    ensures v.0 == s[0] && v.1 == s[1]
    ensures v.0 * v.1 * v.2 == Size(s)
    ensures !multiOutput ==> v.2 == 1
  {
    if multiOutput then
      SizeDivFirstTwo(s);
      (s[0], s[1], Size(s) / s[0] / s[1])
    else
      assert s[2..] == [];
      SizeLeading(s);
      (s[0], s[1], 1)
  }

  // ---------------------------------------------------------------------
  // Forward

  /** Forward: every entry of the output becomes the host's softmax of the
      class scores at its position. The write request is ignored: the output
      is always overwritten. The output may share its storage with the data:
      each position's scores are read before that position is written. */
  method Forward(host: HostMath, multiOutput: bool, req: OpReq, dataShape: Shape,
                 data: array<real>, outShape: Shape, out: array<real>) returns (r: Outcome)
    requires ForwardViewable(multiOutput, dataShape)
    requires data.Length == Size(dataShape) && out.Length == Size(outShape)
    modifies out
    ensures var (N, K, M) := ForwardView(multiOutput, dataShape);
      if OutputFits(multiOutput, dataShape, outShape) then
        r == Pass &&
        forall n: nat, c: nat, m: nat :: n < N && c < K && m < M ==>
          Elem(out[..], n, c, m, N, K, M) == host.softmax(Column(old(data[..]), n, m, N, K, M), c)
      else
        r == Fatal(ShapeMismatch) && unchanged(out)
  {
    var (N, K, M) := ForwardView(multiOutput, dataShape);
    if !OutputFits(multiOutput, dataShape, outShape) {
      return Fatal(ShapeMismatch);
    }
    assert N * K * M > 0 ==> out.Length == N * K * M;
    var scores := data[..];
    OffsetsInBounds(N, K, M);
    OffsetsDistinct(K, M);
    var n := 0;
    while n < N
      invariant n <= N
      invariant forall n': nat, c': nat, m': nat :: n' < N && c' < K && m' < M && n' < n ==>
        out[Offset(n', c', m', K, M)] == host.softmax(Column(scores, n', m', N, K, M), c')
    {
      var m := 0;
      while m < M
        invariant m <= M
        invariant forall n': nat, c': nat, m': nat :: n' < N && c' < K && m' < M && Before(n', m', 0, n, m, 0) ==>
          out[Offset(n', c', m', K, M)] == host.softmax(Column(scores, n', m', N, K, M), c')
      {
        var col := Column(scores, n, m, N, K, M);
        var c := 0;
        while c < K
          invariant c <= K
          invariant forall n': nat, c': nat, m': nat :: n' < N && c' < K && m' < M && Before(n', m', c', n, m, c) ==>
            out[Offset(n', c', m', K, M)] == host.softmax(Column(scores, n', m', N, K, M), c')
        {
          out[Offset(n, c, m, K, M)] := host.softmax(col, c);
          c := c + 1;
        }
        m := m + 1;
      }
      n := n + 1;
    }
    return Pass;
  }

  /** Without multiple outputs the output is flattened by its own shape:
      for 2x3 data an output of shape [1, 2, 3] fits, while outputs of shape
      [3, 2] or [6], with the same number of entries, do not. */
  lemma FlatOutputMustMatch()
    ensures OutputFits(false, [2, 3], [2, 3]) && OutputFits(false, [2, 3], [1, 2, 3])
    ensures !OutputFits(false, [2, 3], [3, 2]) && !OutputFits(false, [2, 3], [6])
  {
    assert [2, 3][..1] == [2];
    assert [1, 2, 3][..2] == [1, 2];
    assert [3, 2][..1] == [3];
  }

  // ---------------------------------------------------------------------
  // Backward

  /** Copies channel 0 (the class index) of the packed (N, 2, M) label into
      fresh scratch space of shape (N, 1, M). The source then reshapes that
      scratch tensor to (N, M) within the same temporary space, which leaves
      its contents as they are. */
  method ExtractTargets(labelWeight: array<real>, N: nat, M: nat) returns (targets: array<real>)
    requires labelWeight.Length == N * 2 * M
    ensures fresh(targets) && targets.Length == N * 1 * M
    ensures forall n: nat, m: nat :: n < N && m < M ==>
      Elem(targets[..], n, 0, m, N, 1, M) == Elem(labelWeight[..], n, 0, m, N, 2, M)
  {
    targets := new real[N * 1 * M];
    OffsetsInBounds(N, 1, M);
    OffsetsInBounds(N, 2, M);
    var n := 0;
    while n < N
      invariant n <= N
      invariant forall n': nat, m': nat :: n' < n && m' < M ==>
        Elem(targets[..], n', 0, m', N, 1, M) == Elem(labelWeight[..], n', 0, m', N, 2, M)
    {
      ExtractRow(labelWeight, targets, N, M, n);
      n := n + 1;
    }
  }

  /** Copies the targets of sample `n`. */
  method ExtractRow(labelWeight: array<real>, targets: array<real>, N: nat, M: nat, n: nat)
    requires labelWeight.Length == N * 2 * M && targets.Length == N * 1 * M && n < N
    requires targets != labelWeight
    modifies targets
    ensures forall n': nat, m': nat :: n' < N && m' < M ==>
      Elem(targets[..], n', 0, m', N, 1, M) ==
        if n' == n then Elem(labelWeight[..], n', 0, m', N, 2, M)
        else Elem(old(targets[..]), n', 0, m', N, 1, M)
  {
    OffsetsInBounds(N, 1, M);
    OffsetsInBounds(N, 2, M);
    OffsetsDistinct(1, M);
    var m := 0;
    while m < M
      invariant m <= M
      invariant forall n': nat, m': nat :: n' < N && m' < M ==>
        targets[Offset(n', 0, m', 1, M)] ==
          if n' == n && m' < m then labelWeight[Offset(n', 0, m', 2, M)]
          else old(targets[Offset(n', 0, m', 1, M)])
    {
      targets[Offset(n, 0, m, 1, M)] := labelWeight[Offset(n, 0, m, 2, M)];
      m := m + 1;
    }
  }

  /** The host's one-hot softmax gradient: at every position, the output
      minus 1 at the labelled class. The gradient may share its storage with
      the output. */
  method SoftmaxGrad(grad: array<real>, out: array<real>, targets: array<real>, N: nat, K: nat, M: nat)
    requires grad.Length == N * K * M && out.Length == N * K * M && targets.Length == N * 1 * M
    requires targets != grad
    modifies grad
    ensures forall n: nat, c: nat, m: nat :: n < N && c < K && m < M ==>
      Elem(grad[..], n, c, m, N, K, M) ==
        Elem(old(out[..]), n, c, m, N, K, M) - OneHot(c, Elem(targets[..], n, 0, m, N, 1, M))
  {
    var n := 0;
    while n < N
      invariant n <= N
      invariant forall n': nat, c': nat, m': nat :: n' < N && c' < K && m' < M ==>
        if n' < n then
          Elem(grad[..], n', c', m', N, K, M) ==
            Elem(old(out[..]), n', c', m', N, K, M) - OneHot(c', Elem(targets[..], n', 0, m', N, 1, M))
        else
          Elem(out[..], n', c', m', N, K, M) == Elem(old(out[..]), n', c', m', N, K, M)
    {
      var m := 0;
      while m < M
        invariant m <= M
        invariant forall n': nat, c': nat, m': nat :: n' < N && c' < K && m' < M ==>
          if Before(n', m', 0, n, m, 0) then
            Elem(grad[..], n', c', m', N, K, M) ==
              Elem(old(out[..]), n', c', m', N, K, M) - OneHot(c', Elem(targets[..], n', 0, m', N, 1, M))
          else
            Elem(out[..], n', c', m', N, K, M) == Elem(old(out[..]), n', c', m', N, K, M)
      {
        SoftmaxGradAt(grad, out, targets, N, K, M, n, m);
        m := m + 1;
      }
      n := n + 1;
    }
  }

  /** The one-hot gradient at one position (n, m), class by class. */
  method SoftmaxGradAt(grad: array<real>, out: array<real>, targets: array<real>,
                       N: nat, K: nat, M: nat, n: nat, m: nat)
    requires grad.Length == N * K * M && out.Length == N * K * M && targets.Length == N * 1 * M
    requires targets != grad && n < N && m < M
    modifies grad
    ensures forall n': nat, c': nat, m': nat :: n' < N && c' < K && m' < M ==>
      Elem(grad[..], n', c', m', N, K, M) ==
        if n' == n && m' == m then
          Elem(old(out[..]), n', c', m', N, K, M) - OneHot(c', Elem(targets[..], n, 0, m, N, 1, M))
        else Elem(old(grad[..]), n', c', m', N, K, M)
  {
    OffsetsInBounds(N, K, M);
    OffsetsInBounds(N, 1, M);
    OffsetsDistinct(K, M);
    var target := targets[Offset(n, 0, m, 1, M)];
    var c := 0;
    while c < K
      invariant c <= K
      invariant forall n': nat, c': nat, m': nat :: n' < N && c' < K && m' < M ==>
        grad[Offset(n', c', m', K, M)] ==
          if n' == n && m' == m && c' < c then old(out[Offset(n', c', m', K, M)]) - OneHot(c', target)
          else old(grad[Offset(n', c', m', K, M)])
      invariant forall c': nat :: c <= c' < K ==> out[Offset(n, c', m, K, M)] == old(out[Offset(n, c', m, K, M)])
    {
      var p := Offset(n, c, m, K, M);
      grad[p] := out[p] - OneHot(c, target);
      c := c + 1;
    }
  }

  /** The source's `for (i = 0; i < k; i++) slice(grad, i) *= weight`: every
      class channel of the gradient is multiplied, element by element, by
      channel 1 (the weight) of the packed label. */
  method ScaleByWeight(grad: array<real>, labelWeight: array<real>, N: nat, K: nat, M: nat)
    requires grad.Length == N * K * M && labelWeight.Length == N * 2 * M
    requires grad != labelWeight
    modifies grad
    ensures forall n: nat, c: nat, m: nat :: n < N && c < K && m < M ==>
      Elem(grad[..], n, c, m, N, K, M) ==
        Weighted(Elem(old(grad[..]), n, c, m, N, K, M), Elem(labelWeight[..], n, 1, m, N, 2, M))
  {
    OffsetsInBounds(N, K, M);
    OffsetsInBounds(N, 2, M);
    OffsetsDistinct(K, M);
    var i := 0;
    while i < K
      invariant i <= K
      invariant forall n': nat, c': nat, m': nat :: n' < N && c' < K && m' < M ==>
        grad[Offset(n', c', m', K, M)] ==
          if c' < i then Weighted(old(grad[Offset(n', c', m', K, M)]), labelWeight[Offset(n', 1, m', 2, M)])
          else old(grad[Offset(n', c', m', K, M)])
    {
      var n := 0;
      while n < N
        invariant n <= N
        invariant forall n': nat, c': nat, m': nat :: n' < N && c' < K && m' < M ==>
          grad[Offset(n', c', m', K, M)] ==
            if Before(c', n', 0, i, n, 0) then Weighted(old(grad[Offset(n', c', m', K, M)]), labelWeight[Offset(n', 1, m', 2, M)])
            else old(grad[Offset(n', c', m', K, M)])
      {
        var m := 0;
        while m < M
          invariant m <= M
          invariant forall n': nat, c': nat, m': nat :: n' < N && c' < K && m' < M ==>
            grad[Offset(n', c', m', K, M)] ==
              if Before(c', n', m', i, n, m) then Weighted(old(grad[Offset(n', c', m', K, M)]), labelWeight[Offset(n', 1, m', 2, M)])
              else old(grad[Offset(n', c', m', K, M)])
        {
          var p := Offset(n, i, m, K, M);
          grad[p] := Weighted(grad[p], labelWeight[Offset(n, 1, m, 2, M)]);
          m := m + 1;
        }
        n := n + 1;
      }
      i := i + 1;
    }
  }

  /** Backward: the gradient of the data is the softmax output minus the
      one-hot target, times the weight of its position. It reads neither the
      upstream gradient nor the write request: the gradient is always
      overwritten. The gradient may share its storage with the output. */
  method Backward(multiOutput: bool, req: OpReq, outShape: Shape, outGrad: array<real>,
                  out: array<real>, labelWeight: array<real>, grad: array<real>) returns (r: Outcome)
    requires BackwardViewable(multiOutput, outShape)
    requires out.Length == Size(outShape)
    requires labelWeight != grad
    modifies grad
    ensures var (N, K, M) := BackwardView(multiOutput, outShape);
      if labelWeight.Length == N * 2 * M && grad.Length == N * K * M then
        r == Pass &&
        forall n: nat, c: nat, m: nat :: n < N && c < K && m < M ==>
          Elem(grad[..], n, c, m, N, K, M) ==
            WeightedGrad(Elem(old(out[..]), n, c, m, N, K, M),
                         Elem(labelWeight[..], n, 0, m, N, 2, M),
                         Elem(labelWeight[..], n, 1, m, N, 2, M), c)
      else
        r == Fatal(ShapeMismatch) && unchanged(grad)
  {
    var (N, K, M) := BackwardView(multiOutput, outShape);
    if labelWeight.Length != N * 2 * M || grad.Length != N * K * M {
      return Fatal(ShapeMismatch);
    }
    var targets := ExtractTargets(labelWeight, N, M);
    SoftmaxGrad(grad, out, targets, N, K, M);
    ScaleByWeight(grad, labelWeight, N, K, M);
    return Pass;
  }

  // ---------------------------------------------------------------------
  // Shape inference

  /** Data shapes whose label shape InferShape can compute without
      indexing past the shape or dividing by zero. */
  predicate LabelInferable(multiOutput: bool, dshape: Shape) {
    |dshape| > 0 && (multiOutput ==> |dshape| >= 2 && dshape[0] > 0 && dshape[1] > 0)
  }

  /** The packed label shape that goes with a data shape. */
  function LabelShape(multiOutput: bool, dshape: Shape): (l: Shape)
    requires LabelInferable(multiOutput, dshape)
    ensures multiOutput ==>
      |l| == 3 && l[0] == dshape[0] && l[1] == 2 && dshape[0] * dshape[1] * l[2] == Size(dshape)
    ensures !multiOutput ==>
      |l| == |dshape| && l[|l| - 1] == 2 && forall i :: 0 <= i < |l| - 1 ==> l[i] == dshape[i]
  {
    if multiOutput then
      SizeDivFirstTwo(dshape);
      [dshape[0], 2, Size(dshape) / dshape[0] / dshape[1]]
    else
      dshape[..|dshape| - 1] + [2]
  }

  /** The flat label shape as the source builds it: a shape of the data's
      ndim, the data's dimensions copied except the last, the last set to 2. */
  method FlatLabelShape(dshape: Shape) returns (l: Shape)
    requires |dshape| > 0
    ensures l == LabelShape(false, dshape)
  {
    var dims := new nat[|dshape|];
    var i := 0;
    while i + 1 < |dshape|
      invariant i <= |dshape| - 1
      invariant forall j :: 0 <= j < i ==> dims[j] == dshape[j]
    {
      dims[i] := dshape[i];
      i := i + 1;
    }
    dims[|dshape| - 1] := 2;
    l := dims[..];
  }

  /** What InferShape must be given: two input shapes, and a data shape that
      is either unknown or can be indexed and divided as the layout needs. */
  predicate InferShapeDefined(multiOutput: bool, inShapes: seq<Shape>) {
    |inShapes| == 2 ==> |inShapes[Data]| == 0 || LabelInferable(multiOutput, inShapes[Data])
  }

  /** The shapes InferShape leaves behind: nothing yet for an unknown data
      shape; otherwise the label slot assigned the packed label shape and a
      single output of the data's shape. */
  function InferredShapes(multiOutput: bool, inShapes: seq<Shape>): (r: Result<ShapeInference>)
    requires InferShapeDefined(multiOutput, inShapes)
    ensures |inShapes| != 2 ==> r == Fail(ArgumentCount)
    ensures |inShapes| == 2 && inShapes[Data] == [] ==> r == Ok(Deferred)
    ensures |inShapes| == 2 && inShapes[Data] != [] ==>
      (r.Ok? <==> inShapes[Label] == [] || inShapes[Label] == LabelShape(multiOutput, inShapes[Data]))
    ensures r.Ok? && r.value.Inferred? ==>
      |r.value.inShapes| == 2 &&
      r.value.inShapes[Data] == inShapes[Data] &&
      r.value.inShapes[Label] == LabelShape(multiOutput, inShapes[Data]) &&
      r.value.outShapes == [inShapes[Data]]
    ensures r.Fail? ==> r == Fail(ArgumentCount) || r == Fail(ShapeMismatch)
  {
    if |inShapes| != 2 then Fail(ArgumentCount)
    else if |inShapes[Data]| == 0 then Ok(Deferred)
    else
      match ShapeAssign(inShapes[Label], LabelShape(multiOutput, inShapes[Data]))
      case None => Fail(ShapeMismatch)
      case Some(l) => Ok(Inferred(inShapes[Label := l], [inShapes[Data]]))
  }

  /** InferShape on the host's vectors: returns false, touching nothing, for
      an unknown data shape; otherwise fills in the label shape and replaces
      the outputs by the data shape. A failed check leaves both vectors as
      they were. */
  method InferShape(multiOutput: bool, inShape: Vector<Shape>, outShape: Vector<Shape>)
    returns (r: Result<bool>)
    requires inShape != outShape
    requires InferShapeDefined(multiOutput, inShape.items)
    modifies inShape, outShape
    ensures match InferredShapes(multiOutput, old(inShape.items))
      case Fail(f) =>
        r == Fail(f) && inShape.items == old(inShape.items) && outShape.items == old(outShape.items)
      case Ok(Deferred) =>
        r == Ok(false) && inShape.items == old(inShape.items) && outShape.items == old(outShape.items)
      case Ok(Inferred(ins, outs)) =>
        r == Ok(true) && inShape.items == ins && outShape.items == outs
  {
    if |inShape.items| != 2 {
      return Fail(ArgumentCount);
    }
    var dshape := inShape.items[Data];
    if |dshape| == 0 {
      return Ok(false);
    }
    var labelShape: Shape;
    if multiOutput {
      SizeDivFirstTwo(dshape);
      labelShape := [dshape[0], 2, Size(dshape) / dshape[0] / dshape[1]];
    } else {
      labelShape := FlatLabelShape(dshape);
    }
    match ShapeAssign(inShape.items[Label], labelShape)
    case None =>
      return Fail(ShapeMismatch);
    case Some(slot) =>
      inShape.items := inShape.items[Label := slot];
    outShape.items := [];
    outShape.items := outShape.items + [dshape];
    return Ok(true);
  }

  /** The label shape InferShape assigns is exactly what Backward's label
      view needs, and the output shape it assigns is what Forward's output
      check needs. */
  lemma InferredShapesFitOperator(multiOutput: bool, dshape: Shape)
    requires BackwardViewable(multiOutput, dshape)
    ensures LabelInferable(multiOutput, dshape)
    ensures var (N, K, M) := BackwardView(multiOutput, dshape);
      Size(LabelShape(multiOutput, dshape)) == N * 2 * M
    ensures ForwardViewable(multiOutput, dshape) && OutputFits(multiOutput, dshape, dshape)
  {
    var (N, K, M) := BackwardView(multiOutput, dshape);
    var l := LabelShape(multiOutput, dshape);
    if multiOutput {
      assert l == [dshape[0], 2, Size(dshape) / dshape[0] / dshape[1]];
      SizeOfThree(l);
    } else {
      assert l == [dshape[0], 2];
      assert l[2..] == [];
      SizeLeading(l);
    }
  }

  // ---------------------------------------------------------------------
  // Type inference

  /** The type codes with every unknown entry replaced by `dtype`. */
  function Filled(types: seq<int>, dtype: int): (r: seq<int>)
    ensures |r| == |types|
    ensures forall i :: 0 <= i < |types| ==>
      r[i] == (if types[i] == UnknownType then dtype else types[i])
  {
    if types == [] then []
    else [if types[0] == UnknownType then dtype else types[0]] + Filled(types[1..], dtype)
  }

  /** Index of the first known type code that differs from `dtype`, or the
      length when there is none. */
  function FirstConflict(types: seq<int>, dtype: int): (j: nat)
    ensures j <= |types|
    ensures forall i :: 0 <= i < j ==> types[i] == UnknownType || types[i] == dtype
    ensures j < |types| ==> types[j] != UnknownType && types[j] != dtype
  {
    if types == [] then 0
    else if types[0] != UnknownType && types[0] != dtype then 0
    else 1 + FirstConflict(types[1..], dtype)
  }

  /** InferType: the first input's type is the operator's type; unknown
      inputs take it, a known input with another type aborts (after the
      unknown inputs before it have been filled in); on success the single
      output gets that type. */
  method InferType(inType: Vector<int>, outType: Vector<int>) returns (r: Result<bool>)
    requires inType != outType
    modifies inType, outType
    ensures |old(inType.items)| == 0 ==>
      r == Fail(ArgumentCount) && inType.items == old(inType.items) && outType.items == old(outType.items)
    ensures |old(inType.items)| > 0 && old(inType.items)[0] == UnknownType ==>
      r == Fail(UnknownFirstType) && inType.items == old(inType.items) && outType.items == old(outType.items)
    ensures |old(inType.items)| > 0 && old(inType.items)[0] != UnknownType ==>
      var types := old(inType.items);
      var j := FirstConflict(types, types[0]);
      if j == |types| then
        r == Ok(true) && inType.items == Filled(types, types[0]) && outType.items == [types[0]]
      else
        r == Fail(TypeMismatch(j)) && inType.items == Filled(types[..j], types[0]) + types[j..] &&
        outType.items == old(outType.items)
  {
    if |inType.items| < 1 {
      return Fail(ArgumentCount);
    }
    var dtype := inType.items[0];
    if dtype == UnknownType {
      return Fail(UnknownFirstType);
    }
    ghost var types := inType.items;
    var i := 0;
    while i < |inType.items|
      invariant |inType.items| == |types| && i <= |types|
      invariant i <= FirstConflict(types, dtype)
      invariant forall k :: 0 <= k < i ==> inType.items[k] == Filled(types, dtype)[k]
      invariant forall k :: i <= k < |types| ==> inType.items[k] == types[k]
      invariant outType.items == old(outType.items)
    {
      if inType.items[i] == UnknownType {
        inType.items := inType.items[i := dtype];
      } else if inType.items[i] != dtype {
        assert inType.items == Filled(types[..i], dtype) + types[i..];
        return Fail(TypeMismatch(i));
      }
      i := i + 1;
    }
    assert inType.items == Filled(types, dtype);
    outType.items := [];
    outType.items := outType.items + [dtype];
    return Ok(true);
  }

  /** After a successful InferType every input has the operator's type, and
      running InferType again changes nothing and succeeds. */
  lemma InferTypeSettles(types: seq<int>)
    requires |types| > 0 && types[0] != UnknownType
    requires FirstConflict(types, types[0]) == |types|
    ensures forall i :: 0 <= i < |types| ==> Filled(types, types[0])[i] == types[0]
    ensures var settled := Filled(types, types[0]);
      settled[0] == types[0] &&
      FirstConflict(settled, types[0]) == |settled| &&
      Filled(settled, types[0]) == settled
  {
    var settled := Filled(types, types[0]);
    assert Filled(settled, types[0]) == settled;
  }

  // ---------------------------------------------------------------------
  // Resources

  /** Backward asks for one block of temporary space (the label scratch). */
  function BackwardResource(inShapes: seq<Shape>): (res: seq<ResourceRequest>)
    ensures res == [TempSpace]
  {
    [TempSpace]
  }

  // ---------------------------------------------------------------------
  // Properties of the gradient

  /** The gradient Backward writes at one position, class by class. */
  function GradColumn(col: seq<real>, target: real, w: real): (g: seq<real>)
    ensures |g| == |col|
    ensures forall c :: 0 <= c < |col| ==> g[c] == WeightedGrad(col[c], target, w, c)
  {
    seq(|col|, c requires 0 <= c < |col| => WeightedGrad(col[c], target, w, c))
  }

  /** 1 when the target names one of the classes 0 .. K-1, 0 otherwise. */
  function Hit(target: real, K: nat): real {
    if 0 <= ClassIndex(target) < K then 1.0 else 0.0
  }

  lemma WeightedAdd(a: real, b: real, w: real)
    ensures Weighted(a, w) + Weighted(b, w) == Weighted(a + b, w)
  {
  }

  /** Summed over the classes, the gradient at a position is the weight
      times (the sum of the softmax outputs, minus one when the target names
      one of the classes). So when the outputs sum to one and the target is a
      valid class, the gradient sums to zero whatever the weight. */
  lemma {:induction false} GradColumnSum(col: seq<real>, target: real, w: real)
    ensures Sum(GradColumn(col, target, w)) == Weighted(Sum(col) - Hit(target, |col|), w)
  {
    if col != [] {
      var k := |col| - 1;
      var g := GradColumn(col, target, w);
      GradColumnSum(col[..k], target, w);
      assert g[..k] == GradColumn(col[..k], target, w);
      assert Hit(target, k) + OneHot(k, target) == Hit(target, k + 1);
      WeightedAdd(Sum(col[..k]) - Hit(target, k), col[k] - OneHot(k, target), w);
    }
  }

  /** For any buffers satisfying Backward's postcondition, the gradient at a
      position sums over the classes to the weight times (the sum of the
      softmax outputs minus one for a valid target). */
  lemma BackwardColumnSum(grad: seq<real>, out: seq<real>, labelWeight: seq<real>,
                          N: nat, K: nat, M: nat, n: nat, m: nat)
    requires |grad| == N * K * M && |out| == N * K * M && |labelWeight| == N * 2 * M
    requires n < N && m < M
    requires forall c: nat :: c < K ==>
      Elem(grad, n, c, m, N, K, M) ==
        WeightedGrad(Elem(out, n, c, m, N, K, M),
                     Elem(labelWeight, n, 0, m, N, 2, M), Elem(labelWeight, n, 1, m, N, 2, M), c)
    ensures var target, w := Elem(labelWeight, n, 0, m, N, 2, M), Elem(labelWeight, n, 1, m, N, 2, M);
      Sum(Column(grad, n, m, N, K, M)) == Weighted(Sum(Column(out, n, m, N, K, M)) - Hit(target, K), w)
    ensures Sum(Column(out, n, m, N, K, M)) == 1.0 && 0 <= ClassIndex(Elem(labelWeight, n, 0, m, N, 2, M)) < K ==>
      Sum(Column(grad, n, m, N, K, M)) == 0.0
  {
    var target, w := Elem(labelWeight, n, 0, m, N, 2, M), Elem(labelWeight, n, 1, m, N, 2, M);
    assert Column(grad, n, m, N, K, M) == GradColumn(Column(out, n, m, N, K, M), target, w);
    GradColumnSum(Column(out, n, m, N, K, M), target, w);
  }

  /** Weight linearity: for two packed labels with the same targets, one
      with weight 1 everywhere and one with weight w everywhere, the two
      gradients Backward writes differ by the factor w. */
  lemma WeightLinearity(grad1: seq<real>, grad: seq<real>, out: seq<real>,
                        label1: seq<real>, labelW: seq<real>, w: real, N: nat, K: nat, M: nat)
    requires |grad1| == |grad| == |out| == N * K * M && |label1| == |labelW| == N * 2 * M
    requires forall n: nat, m: nat :: n < N && m < M ==>
      Elem(label1, n, 0, m, N, 2, M) == Elem(labelW, n, 0, m, N, 2, M) &&
      Elem(label1, n, 1, m, N, 2, M) == 1.0 && Elem(labelW, n, 1, m, N, 2, M) == w
    requires forall n: nat, c: nat, m: nat :: n < N && c < K && m < M ==>
      Elem(grad1, n, c, m, N, K, M) ==
        WeightedGrad(Elem(out, n, c, m, N, K, M),
                     Elem(label1, n, 0, m, N, 2, M), Elem(label1, n, 1, m, N, 2, M), c)
    requires forall n: nat, c: nat, m: nat :: n < N && c < K && m < M ==>
      Elem(grad, n, c, m, N, K, M) ==
        WeightedGrad(Elem(out, n, c, m, N, K, M),
                     Elem(labelW, n, 0, m, N, 2, M), Elem(labelW, n, 1, m, N, 2, M), c)
    ensures forall n: nat, c: nat, m: nat :: n < N && c < K && m < M ==>
      Elem(grad, n, c, m, N, K, M) == Weighted(Elem(grad1, n, c, m, N, K, M), w)
  {
    forall n: nat, c: nat, m: nat | n < N && c < K && m < M
      ensures Elem(grad, n, c, m, N, K, M) == Weighted(Elem(grad1, n, c, m, N, K, M), w)
    {
      WeightedScale(Elem(out, n, c, m, N, K, M) - OneHot(c, Elem(labelW, n, 0, m, N, 2, M)), w);
    }
  }

  lemma WeightedScale(g: real, w: real)
    ensures Weighted(g, w) == Weighted(Weighted(g, 1.0), w)
  {
  }

  /** A weight of 0 everywhere makes Backward's gradient 0 in every entry of
      the buffer, whatever the outputs and targets. */
  lemma ZeroWeightZeroGrad(grad: seq<real>, out: seq<real>, labelWeight: seq<real>, N: nat, K: nat, M: nat)
    requires |grad| == |out| == N * K * M && |labelWeight| == N * 2 * M
    requires forall n: nat, m: nat :: n < N && m < M ==> Elem(labelWeight, n, 1, m, N, 2, M) == 0.0
    requires forall n: nat, c: nat, m: nat :: n < N && c < K && m < M ==>
      Elem(grad, n, c, m, N, K, M) ==
        WeightedGrad(Elem(out, n, c, m, N, K, M),
                     Elem(labelWeight, n, 0, m, N, 2, M), Elem(labelWeight, n, 1, m, N, 2, M), c)
    ensures forall i :: 0 <= i < |grad| ==> grad[i] == 0.0
  {
    ElemsCover(grad, 0.0, N, K, M);
  }

  /** A client of Backward's contract: a 2x3 matrix of softmax outputs,
      labels (2, 0) and weights (1, 0.5). With label 0 the second row's
      gradient is (1/3 - 1, 1/3, 1/3) * 0.5. */
  method FlatExample() {
    var out := new real[6];
    out[0], out[1], out[2], out[3], out[4], out[5] := 0.1, 0.2, 0.7, 1.0 / 3.0, 1.0 / 3.0, 1.0 / 3.0;
    var labelWeight := new real[4];
    labelWeight[0], labelWeight[1], labelWeight[2], labelWeight[3] := 2.0, 1.0, 0.0, 0.5;
    var outGrad := new real[6];
    var grad := new real[6];
    var r := Backward(false, WriteTo, [2, 3], outGrad, out, labelWeight, grad);
    assert r == Pass;
    assert Elem(grad[..], 0, 2, 0, 2, 3, 1) == grad[2];
    assert grad[2] == (0.7 - 1.0) * 1.0;
    assert Elem(grad[..], 1, 0, 0, 2, 3, 1) == grad[3];
    assert grad[3] == -1.0 / 3.0;
    assert Elem(grad[..], 1, 1, 0, 2, 3, 1) == grad[4];
    assert grad[4] == 1.0 / 6.0;
  }
}
