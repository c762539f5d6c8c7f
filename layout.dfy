/** Row-major layout of the three-dimensional views the operators take of
    their flat buffers: element (n, c, m) of an (N, C, M) view sits at flat
    index (n*C + c)*M + m. A two-dimensional (N, C) view is the M = 1 case and
    a channel slice (N, 1, M) the C = 1 case. */
module Layout {

  function Offset(n: nat, c: nat, m: nat, C: nat, M: nat): nat {
    (n * C + c) * M + m
  }

  /** (a1, a2, a3) comes strictly before (b1, b2, b3) in the order of three
      nested loops over the first, second and third component. */
  predicate Before(a1: nat, a2: nat, a3: nat, b1: nat, b2: nat, b3: nat) {
    a1 < b1 || (a1 == b1 && (a2 < b2 || (a2 == b2 && a3 < b3)))
  }

  lemma MulMono(a: nat, b: nat, k: nat)
    requires a <= b
    ensures a * k <= b * k
  {
  }

  /** q*d + r with r < d determines q and r. */
  lemma PairInjective(q1: nat, r1: nat, q2: nat, r2: nat, d: nat)
    requires r1 < d && r2 < d && q1 * d + r1 == q2 * d + r2
    ensures q1 == q2 && r1 == r2
  {
    if q1 < q2 {
      MulMono(q1 + 1, q2, d);
    } else if q2 < q1 {
      MulMono(q2 + 1, q1, d);
    }
  }

  /** Every element of an (N, C, M) view lies inside the buffer. */
  lemma OffsetBound(n: nat, c: nat, m: nat, N: nat, C: nat, M: nat)
    requires n < N && c < C && m < M
    ensures Offset(n, c, m, C, M) < N * C * M
  {
    MulMono(n + 1, N, C);
    MulMono(n * C + c + 1, N * C, M);
  }

  /** Distinct elements of a view sit at distinct flat indices. */
  lemma OffsetInjective(n1: nat, c1: nat, m1: nat, n2: nat, c2: nat, m2: nat, C: nat, M: nat)
    requires c1 < C && c2 < C && m1 < M && m2 < M
    requires Offset(n1, c1, m1, C, M) == Offset(n2, c2, m2, C, M)
    ensures n1 == n2 && c1 == c2 && m1 == m2
  {
    PairInjective(n1 * C + c1, m1, n2 * C + c2, m2, M);
    PairInjective(n1, c1, n2, c2, C);
  }

  /** OffsetBound for all elements at once. */
  lemma OffsetsInBounds(N: nat, C: nat, M: nat)
    ensures forall n: nat, c: nat, m: nat {:trigger Offset(n, c, m, C, M)} ::
      n < N && c < C && m < M ==> Offset(n, c, m, C, M) < N * C * M
  {
    forall n: nat, c: nat, m: nat | n < N && c < C && m < M
      ensures Offset(n, c, m, C, M) < N * C * M
    {
      OffsetBound(n, c, m, N, C, M);
    }
  }

  /** OffsetInjective for all pairs of elements at once. */
  lemma OffsetsDistinct(C: nat, M: nat)
    ensures forall n1: nat, c1: nat, m1: nat, n2: nat, c2: nat, m2: nat
      {:trigger Offset(n1, c1, m1, C, M), Offset(n2, c2, m2, C, M)} ::
      c1 < C && c2 < C && m1 < M && m2 < M &&
      Offset(n1, c1, m1, C, M) == Offset(n2, c2, m2, C, M) ==>
      n1 == n2 && c1 == c2 && m1 == m2
  {
    forall n1: nat, c1: nat, m1: nat, n2: nat, c2: nat, m2: nat |
      c1 < C && c2 < C && m1 < M && m2 < M &&
      Offset(n1, c1, m1, C, M) == Offset(n2, c2, m2, C, M)
      ensures n1 == n2 && c1 == c2 && m1 == m2
    {
      OffsetInjective(n1, c1, m1, n2, c2, m2, C, M);
    }
  }

  /** Every flat index of an (N, C, M) buffer is the offset of some element,
      so a statement about all elements is a statement about the whole buffer. */
  lemma OffsetCovers(i: nat, N: nat, C: nat, M: nat) returns (n: nat, c: nat, m: nat)
    requires i < N * C * M
    ensures n < N && c < C && m < M
    ensures Offset(n, c, m, C, M) == i
  {
    assert C > 0 && M > 0;
    var row := i / M;
    assert row * M + i % M == i;
    assert (row / C) * C + row % C == row;
    if row / C >= N {
      MulMono(N, row / C, C);
      MulMono(N * C, row, M);
      assert false;
    }
    n, c, m := row / C, row % C, i % M;
  }

  /** Element (n, c, m) of an (N, C, M) view of the buffer `s`. */
  function Elem(s: seq<real>, n: nat, c: nat, m: nat, N: nat, C: nat, M: nat): real
    requires n < N && c < C && m < M && |s| == N * C * M
  {
    OffsetBound(n, c, m, N, C, M);
    s[Offset(n, c, m, C, M)]
  }

  /** A buffer whose every element in an (N, C, M) view is `v` holds `v` at
      every flat index. */
  lemma ElemsCover(s: seq<real>, v: real, N: nat, C: nat, M: nat)
    requires |s| == N * C * M
    requires forall n: nat, c: nat, m: nat :: n < N && c < C && m < M ==> Elem(s, n, c, m, N, C, M) == v
    ensures forall i :: 0 <= i < |s| ==> s[i] == v
  {
    forall i | 0 <= i < |s|
      ensures s[i] == v
    {
      var n, c, m := OffsetCovers(i, N, C, M);
      assert Elem(s, n, c, m, N, C, M) == s[i];
    }
  }

  /** Elements (n, 0, m), ..., (n, C-1, m) of an (N, C, M) view: the scores
      of all classes at one position. */
  function Column(s: seq<real>, n: nat, m: nat, N: nat, C: nat, M: nat): (col: seq<real>)
    requires n < N && m < M && |s| == N * C * M
    ensures |col| == C
    ensures forall c: nat :: c < C ==> col[c] == Elem(s, n, c, m, N, C, M)
  {
    seq(C, c requires 0 <= c < C => Elem(s, n, c, m, N, C, M))
  }

  /** Sum of a vector. */
  function Sum(s: seq<real>): real {
    if s == [] then 0.0 else Sum(s[..|s| - 1]) + s[|s| - 1]
  }
}
