/**
  `compile`: the argument checks, the loop skeleton around the node code,
  and the binding of the emitted instructions by the backend.
 */
module Codegen {
  import opened Isa
  import opened Ir
  import opened Results
  import opened Registers
  import opened Planner
  import opened Host

  /** What `compile` returns: the bound instructions together with the
      element count and the number of outputs the wrapper captures. */
  datatype Routine = Routine(code: seq<Instr>, size: nat, numOutputs: nat)

  function ArgPointer(isWinOS: bool): PointerReg {
    if isWinOS then Rcx else Rdi
  }

  /** Arguments `compile` accepts: at least one, all tensors, all with
      the same element count. */
  predicate ValidArgs(args: seq<IValue>) {
    && |args| > 0
    && (forall i | 0 <= i < |args| :: args[i].Tensor?)
    && (forall i | 0 <= i < |args| :: args[i].numel == args[0].numel)
  }

  /** The checks at the top of `compile`; on success, the element count
      shared by all inputs. The type check comes before the size check. */
  function CheckInputs(args: seq<IValue>): (r: Result<nat>)
    ensures r.Ok? <==> ValidArgs(args)
    ensures r.Ok? ==> forall i | 0 <= i < |args| :: args[i].numel == r.value
    ensures |args| == 0 ==> r == Fail(NoInputs)
    ensures (exists i | 0 <= i < |args| :: !args[i].Tensor?) ==> r.Fail? && r.error in {NoInputs, NotTensor}
    ensures r.Fail? ==> r.error in {NoInputs, NotTensor, SizeMismatch}
  {
    if |args| == 0 then Fail(NoInputs)
    else if exists i | 0 <= i < |args| :: !args[i].Tensor? then Fail(NotTensor)
    else if exists i | 0 <= i < |args| :: args[i].numel != args[0].numel then Fail(SizeMismatch)
    else Ok(args[0].numel)
  }

  /** Loads of the buffer pointers: the i-th goes into `bases[i]` from
      entry `first + i` of the pointer array. */
  function PointerLoads(bases: seq<AddrReg>, first: nat, ptr: PointerReg): (c: seq<Instr>)
    ensures |c| == |bases|
    ensures forall i | 0 <= i < |bases| :: c[i] == LoadPointer(bases[i], ptr, (first + i) * PointerBytes)
  {
    seq(|bases|, i requires 0 <= i < |bases| => LoadPointer(bases[i], ptr, (first + i) * PointerBytes))
  }

  /** The registers the next `n` acquisitions take from `pool`, in order. */
  function Popped<R>(pool: seq<R>, n: nat): (rs: seq<R>)
    requires n <= |pool|
    ensures |rs| == n && forall i | 0 <= i < n :: rs[i] == pool[|pool| - 1 - i]
  {
    seq(n, i requires 0 <= i < n => pool[|pool| - 1 - i])
  }

  /** Element loads at the loop head: the i-th loads into `dsts[i]` from
      `bases[i] + counter << ElementShift`. */
  function ElementLoads(dsts: seq<ValueReg>, bases: seq<AddrReg>, iter: AddrReg): (c: seq<Instr>)
    requires |dsts| == |bases|
    ensures |c| == |bases|
    ensures forall i | 0 <= i < |bases| :: c[i] == LoadElement(dsts[i], bases[i], iter, ElementShift)
  {
    seq(|bases|, i requires 0 <= i < |bases| => LoadElement(dsts[i], bases[i], iter, ElementShift))
  }

  /** Element stores after the node code: the i-th stores `srcs[i]` at
      `bases[i] + counter << ElementShift`. */
  function ElementStores(bases: seq<AddrReg>, iter: AddrReg, srcs: seq<ValueReg>): (c: seq<Instr>)
    requires |srcs| == |bases|
    ensures |c| == |bases|
    ensures forall i | 0 <= i < |bases| :: c[i] == StoreElement(bases[i], iter, ElementShift, srcs[i])
  {
    seq(|bases|, i requires 0 <= i < |bases| => StoreElement(bases[i], iter, ElementShift, srcs[i]))
  }

  /** The pointer-load loop of `compile` for `vals`, whose first entry
      sits at entry `first` of the pointer array. */
  function LoadPointers(vals: seq<ValueId>, first: nat, ptr: PointerReg, st: Gen): Result<Gen>
    decreases |vals|
  {
    if |vals| == 0 then Ok(st)
    else
      var p :- GetFreeAddrReg(st.regs);
      var st1 := Gen(MapAddr(p.1, vals[0], p.0), st.code + [LoadPointer(p.0, ptr, first * PointerBytes)]);
      LoadPointers(vals[1..], first + 1, ptr, st1)
  }

  /** The element-load loop at the loop head: a fresh value register per
      graph input, loaded from the input's buffer at the counter. */
  function LoadElements(vals: seq<ValueId>, iter: AddrReg, st: Gen): Result<Gen>
    decreases |vals|
  {
    if |vals| == 0 then Ok(st)
    else
      var p :- GetFreeValueReg(st.regs);
      var base :- GetAddrReg(p.1, vals[0]);
      var st1 := Gen(MapValue(p.1, vals[0], p.0), st.code + [LoadElement(p.0, base, iter, ElementShift)]);
      LoadElements(vals[1..], iter, st1)
  }

  /** The store loop after the node code: each graph output's value
      register is written to its output buffer at the counter. */
  function StoreOutputs(vals: seq<ValueId>, iter: AddrReg, st: Gen): Result<Gen>
    decreases |vals|
  {
    if |vals| == 0 then Ok(st)
    else
      var base :- GetAddrReg(st.regs, vals[0]);
      var src :- GetValueReg(st.regs, vals[0]);
      StoreOutputs(vals[1..], iter, Gen(st.regs, st.code + [StoreElement(base, iter, ElementShift, src)]))
  }

  /** The instructions after the stores: advance the counter, compare it
      with the element count and jump back while it is below; return. */
  function LoopTail(iter: AddrReg, size: nat): seq<Instr> {
    [AddImm(iter, 1), CmpImm(iter, size), Jb(LoopLabel), Ret]
  }

  /** Register planning and emission of `compile`, for element count
      `size`: the pointer loads, then the loop. */
  function Plan(g: Graph, size: nat, ptr: PointerReg): (r: Result<seq<Instr>>)
    requires WellFormed(g)
  {
    var st :- LoadBuffers(g, ptr);
    EmitLoop(g, size, st)
  }

  /** From a fresh manager, the buffer pointers of the inputs and then of
      the outputs, from consecutive entries of the pointer array. */
  function LoadBuffers(g: Graph, ptr: PointerReg): Result<Gen> {
    var st1 :- LoadPointers(g.inputs, 0, ptr, Gen(Init(), []));
    LoadPointers(g.outputs, |g.inputs|, ptr, st1)
  }

  /** The loop of `compile`: take the counter register, zero it, bind the
      loop label, load the inputs, emit the nodes, store the outputs and
      close the loop. */
  function EmitLoop(g: Graph, size: nat, st: Gen): (r: Result<seq<Instr>>)
    requires WellFormed(g)
  {
    var p :- GetFreeAddrReg(st.regs);
    var iter := p.0;
    var st3 := Gen(p.1, st.code + [SetImm(iter, 0), Bind(LoopLabel)]);
    var st4 :- LoadElements(g.inputs, iter, st3);
    var st5 :- EmitNodes(g, 0, st4);
    var st6 :- StoreOutputs(g.outputs, iter, st5);
    Ok(st6.code + LoopTail(iter, size))
  }

  /** `compile` for the subgraph `g` and the popped arguments `args`;
      `backend` stands for `jit_runtime_.add`, which may refuse the code. */
  function Compile(g: Graph, args: seq<IValue>, isWinOS: bool, backend: seq<Instr> -> bool): (r: Result<Routine>)
    requires WellFormed(g) && |args| == |g.inputs|
    ensures r.Ok? ==> ValidArgs(args) && r.value.size == args[0].numel && r.value.numOutputs == |g.outputs|
    ensures r.Ok? ==> backend(r.value.code)
  {
    var size :- CheckInputs(args);
    var code :- Plan(g, size, ArgPointer(isWinOS));
    if backend(code) then Ok(Routine(code, size, |g.outputs|)) else Fail(BindingFailure(code))
  }
}
