/**
  The host values the compiled operator receives and returns, and the
  cache key computed from them (the part of `CompleteArgumentSpec` the
  generated code depends on).
 */
module Host {

  /** A value on the interpreter stack. A tensor is described by its
      element count, its layout and device flags and the address of its
      data; element type and strides are not modelled. */
  datatype IValue = Tensor(numel: nat, contiguous: bool, onCpu: bool, data: int) | NonTensor

  /** What the cache key records of one argument: everything but the
      data address. */
  datatype ArgKey = TensorKey(keyNumel: nat, keyContiguous: bool, keyOnCpu: bool) | OtherKey

  type ArgSpec = seq<ArgKey>

  function KeyOf(v: IValue): ArgKey {
    match v
    case Tensor(n, c, cpu, _) => TensorKey(n, c, cpu)
    case NonTensor => OtherKey
  }

  /** The key of an argument list, one entry per argument. */
  function SpecOf(args: seq<IValue>): (s: ArgSpec)
    ensures |s| == |args| && forall i | 0 <= i < |args| :: s[i] == KeyOf(args[i])
  {
    seq(|args|, i requires 0 <= i < |args| => KeyOf(args[i]))
  }

  /** Two arguments get the same key exactly when they agree on
      everything but their data address. */
  lemma KeyForgetsOnlyData(a: IValue, b: IValue)
    ensures KeyOf(a) == KeyOf(b) <==>
              && a.Tensor? == b.Tensor?
              && (a.Tensor? ==> a.numel == b.numel && a.contiguous == b.contiguous && a.onCpu == b.onCpu)
  {
  }
}
