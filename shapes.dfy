/** Tensor shapes as the host describes them: an ordered list of dimensions,
    where the empty list (ndim 0) means "not known yet". */
module Shapes {
  import opened Host
  import Layout

  type Shape = seq<nat>

  /** Number of elements of a tensor of shape `s` (the product of its
      dimensions; 1 for ndim 0). */
  function Size(s: Shape): nat {
    if |s| == 0 then 1 else s[0] * Size(s[1..])
  }

  /** What a successful shape inference leaves behind: nothing yet (the data
      shape is still unknown), or the completed input shapes and the output
      shapes. */
  datatype ShapeInference = Deferred | Inferred(inShapes: seq<Shape>, outShapes: seq<Shape>)

  /** Every dimension is at least one. */
  predicate Positive(s: Shape) {
    forall i :: 0 <= i < |s| ==> s[i] > 0
  }

  /** The host's SHAPE_ASSIGN_CHECK on one slot: an unknown shape takes the
      inferred one, a known shape must already equal it, and anything else
      is a shape mismatch (None). */
  function ShapeAssign(given: Shape, inferred: Shape): (r: Option<Shape>)
    ensures r.Some? <==> given == [] || given == inferred
    ensures r.Some? ==> r.value == inferred
  {
    if given == [] || given == inferred then Some(inferred) else None
  }

  /** The size splits off the last dimension as well as the first. */
  lemma {:induction false} SizeLast(s: Shape)
    requires |s| > 0
    ensures Size(s) == Size(s[..|s| - 1]) * s[|s| - 1]
  {
    if |s| > 1 {
      SizeLast(s[1..]);
      assert s[1..][..|s| - 2] == s[..|s| - 1][1..];
      calc {
        Size(s);
        s[0] * Size(s[1..]);
        s[0] * (Size(s[1..][..|s| - 2]) * s[|s| - 1]);
        (s[0] * Size(s[..|s| - 1][1..])) * s[|s| - 1];
        Size(s[..|s| - 1]) * s[|s| - 1];
      }
    } else {
      assert s[..0] == [];
    }
  }

  /** The matrix view the host takes of a tensor by flattening: all leading
      dimensions collapsed into rows, the last dimension kept as columns; a
      tensor with no dimensions is viewed as an empty matrix. */
  function FlatTo2D(s: Shape): (v: (nat, nat))
    ensures |s| == 0 ==> v == (0, 0)
    ensures |s| > 0 ==> v.1 == s[|s| - 1] && v.0 * v.1 == Size(s)
  {
    if |s| == 0 then (0, 0)
    else
      SizeLast(s);
      (Size(s[..|s| - 1]), s[|s| - 1])
  }

  /** The size of a shape with at least two dimensions, factored as
      d0 * d1 * (the size of the trailing dimensions). */
  lemma SizeLeading(s: Shape)
    requires |s| >= 2
    ensures Size(s) == s[0] * s[1] * Size(s[2..])
  {
    assert s[1..][1..] == s[2..];
    assert Size(s) == s[0] * (s[1] * Size(s[2..]));
  }

  /** The size of a three-dimensional shape. */
  lemma SizeOfThree(s: Shape)
    requires |s| == 3
    ensures Size(s) == s[0] * s[1] * s[2]
  {
    assert s[1..][1..][1..] == [];
    SizeLeading(s);
  }

  /** Dividing the size by the first dimension is exact: an (d0, Size/d0)
      view of the tensor holds every element. */
  lemma SizeDivFirst(s: Shape)
    requires |s| >= 1 && s[0] > 0
    ensures Size(s) / s[0] == Size(s[1..])
    ensures s[0] * (Size(s) / s[0]) == Size(s)
  {
    DivExact(s[0], Size(s[1..]));
  }

  /** Dividing the size by the first and then the second dimension is exact:
      an (d0, d1, Size/d0/d1) view of the tensor holds every element. */
  lemma SizeDivFirstTwo(s: Shape)
    requires |s| >= 2 && s[0] > 0 && s[1] > 0
    ensures Size(s) / s[0] / s[1] == Size(s[2..])
    ensures s[0] * s[1] * (Size(s) / s[0] / s[1]) == Size(s)
  {
    SizeLeading(s);
    assert Size(s) == s[0] * (s[1] * Size(s[2..]));
    DivExact(s[0], s[1] * Size(s[2..]));
    DivExact(s[1], Size(s[2..]));
  }

  lemma DivExact(d: nat, q: nat)
    requires d > 0
    ensures d * q / d == q
  {
    var p := d * q;
    assert p == (p / d) * d + p % d;
    Layout.PairInjective(q, 0, p / d, p % d, d);
  }
}
