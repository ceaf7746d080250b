/**
  The failures the compiler raises (each `TORCH_CHECK` of the source) and
  a failure-compatible result type, so that `:-` propagates them the way
  the source's exceptions propagate.
 */
module Results {
  import opened Isa

  datatype Error =
    | AddrPoolEmpty            // getFreeAddrReg on an empty pool
    | ValuePoolEmpty           // getFreeValueReg on an empty pool
    | UnboundAddr(addrOf: nat) // getAddrReg on a value without an address register
    | UnboundValue(valueOf: nat) // getValueReg on a value without a value register
    | NoInputs                 // compile: "Need at least one input."
    | NotTensor                // compile and the wrapper: an input is not a tensor
    | SizeMismatch             // compile: element counts differ from input 0's
    | NotContiguous            // wrapper: an input is not contiguous
    | NotOnCpu                 // wrapper: an input is not on the CPU
    | BindingFailure(log: seq<Instr>) // the backend refused the code; the log is attached

  datatype Result<+T> = Ok(value: T) | Fail(error: Error) {
    predicate IsFailure() {
      Fail?
    }

    function PropagateFailure<U>(): Result<U>
      requires Fail?
    {
      Fail(error)
    }

    function Extract(): T
      requires Ok?
    {
      value
    }
  }
}
