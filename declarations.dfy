/** The buffer declarations both loss operators make to the host, which are
    identical in the two: which buffers Backward reads, and which outputs
    may reuse the storage of which inputs. Buffers are named by the host's
    integer ids; the in-place pairs carry the host's opaque handle type `P`
    for the second component. */
module Declarations {

  // Positions of the inputs (data, label) and of the output in the host's vectors.
  const Data: nat := 0
  const Label: nat := 1
  const Out: nat := 0

  /** Backward needs the label and the forward output, and nothing else: not
      the upstream gradient and not the data. */
  function DeclareBackwardDependency(outGrad: seq<int>, inData: seq<int>, outData: seq<int>): (deps: seq<int>)
    requires |inData| > Label && |outData| > Out
    ensures |deps| == 2 && deps[0] == inData[Label] && deps[1] == outData[Out]
  {
    [inData[Label], outData[Out]]
  }

  /** The forward output may reuse the storage of the data. */
  function ForwardInplaceOption<P>(inData: seq<int>, outData: seq<P>): (opts: seq<(int, P)>)
    requires |inData| > Data && |outData| > Out
    ensures |opts| == 1 && opts[0].0 == inData[Data] && opts[0].1 == outData[Out]
  {
    [(inData[Data], outData[Out])]
  }

  /** The gradient of the data may reuse the storage of the forward output. */
  function BackwardInplaceOption<P>(outGrad: seq<int>, inData: seq<int>, outData: seq<int>, inGrad: seq<P>)
    : (opts: seq<(int, P)>)
    requires |outData| > Out && |inGrad| > Data
    ensures |opts| == 1 && opts[0].0 == outData[Out] && opts[0].1 == inGrad[Data]
  {
    [(outData[Out], inGrad[Data])]
  }

  /** With the distinct buffer ids the host hands out, neither an upstream
      gradient nor the data is among Backward's dependencies. */
  lemma BackwardSkipsGradientAndData(outGrad: seq<int>, inData: seq<int>, outData: seq<int>)
    requires |inData| == 2 && |outData| == 1
    requires inData[Data] != inData[Label] && inData[Data] != outData[Out]
    requires forall g :: g in outGrad ==> g != inData[Label] && g != outData[Out]
    ensures var deps := DeclareBackwardDependency(outGrad, inData, outData);
      inData[Data] !in deps && forall g :: g in outGrad ==> g !in deps
  {
  }
}
