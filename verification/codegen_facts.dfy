/**
  What each phase of `compile` does to the register manager and the code,
  and what `compile` as a whole accepts, rejects and emits.
 */
module CodegenFacts {
  import opened Isa
  import opened Seqs
  import opened Ir
  import opened Results
  import opened Registers
  import opened Planner
  import opened Host
  import opened Codegen

  // ---------------------------------------------------------------------
  // The phases
  // ---------------------------------------------------------------------

  /** What the pointer-load loop does to the code: one load per value,
      into the registers popped in order, from consecutive entries of
      the pointer array starting at `first`. */
  predicate PointerCodePost(vals: seq<ValueId>, first: nat, ptr: PointerReg, st: Gen, st': Gen)
    requires |vals| <= |st.regs.freeAddr|
  {
    var fa := st.regs.freeAddr;
    && st'.regs.freeAddr == fa[..|fa| - |vals|]
    && st'.code == st.code + PointerLoads(Popped(fa, |vals|), first, ptr)
  }

  /** What the pointer-load loop does to the bindings: `vals` bound,
      other address bindings and the value side untouched, and for
      distinct values the bound registers are the popped ones. */
  predicate PointerBindPost(vals: seq<ValueId>, st: Gen, st': Gen)
    requires |vals| <= |st.regs.freeAddr|
  {
    && st'.regs.valueRegs == st.regs.valueRegs
    && st'.regs.freeValue == st.regs.freeValue
    && (forall v <- vals :: v in st'.regs.addrRegs)
    && (forall u | u in st.regs.addrRegs && u !in vals ::
          u in st'.regs.addrRegs && st'.regs.addrRegs[u] == st.regs.addrRegs[u])
    && (Distinct(vals) ==> RegsOf(st'.regs.addrRegs, vals) == Popped(st.regs.freeAddr, |vals|))
  }

  predicate LoadPointersPost(vals: seq<ValueId>, first: nat, ptr: PointerReg, st: Gen, st': Gen)
    requires |vals| <= |st.regs.freeAddr|
  {
    PointerCodePost(vals, first, ptr, st, st') && PointerBindPost(vals, st, st')
  }

  lemma PoppedAppend<R>(pool: seq<R>, n: nat, m: nat)
    requires n + m <= |pool|
    ensures Popped(pool, n + m) == Popped(pool, n) + Popped(pool[..|pool| - n], m)
  {
  }

  lemma LoadPointersStep(vals: seq<ValueId>, first: nat, ptr: PointerReg, st: Gen)
    requires |vals| > 0 && |st.regs.freeAddr| > 0
    ensures var fa := st.regs.freeAddr;
            var reg := fa[|fa| - 1];
            LoadPointers(vals, first, ptr, st)
            == LoadPointers(vals[1..], first + 1, ptr,
                            Gen(MapAddr(st.regs.(freeAddr := fa[..|fa| - 1]), vals[0], reg),
                                st.code + [LoadPointer(reg, ptr, first * PointerBytes)]))
  {
  }

  /** The pointer-load loop fails exactly when the address pool runs out,
      and otherwise binds each value to the next popped register and
      loads it from consecutive entries of the pointer array. */
  lemma {:induction false} LoadPointersSpec(vals: seq<ValueId>, first: nat, ptr: PointerReg, st: Gen)
    ensures LoadPointers(vals, first, ptr, st).Ok? <==> |vals| <= |st.regs.freeAddr|
    ensures LoadPointers(vals, first, ptr, st).Fail? ==> LoadPointers(vals, first, ptr, st).error == AddrPoolEmpty
    ensures LoadPointers(vals, first, ptr, st).Ok? ==>
              LoadPointersPost(vals, first, ptr, st, LoadPointers(vals, first, ptr, st).value)
    decreases |vals|
  {
    var fa := st.regs.freeAddr;
    if |vals| == 0 {
      assert fa[..|fa|] == fa;
      assert st.code + PointerLoads(Popped(fa, 0), first, ptr) == st.code;
    } else if |fa| > 0 {
      var reg := fa[|fa| - 1];
      var st1 := Gen(MapAddr(st.regs.(freeAddr := fa[..|fa| - 1]), vals[0], reg),
                     st.code + [LoadPointer(reg, ptr, first * PointerBytes)]);
      LoadPointersStep(vals, first, ptr, st);
      LoadPointersSpec(vals[1..], first + 1, ptr, st1);
      if |vals| <= |fa| {
        LoadPointersPostStep(vals, first, ptr, st, st1, LoadPointers(vals, first, ptr, st).value);
      }
    }
  }

  lemma LoadPointersPostStep(vals: seq<ValueId>, first: nat, ptr: PointerReg, st: Gen, st1: Gen, st': Gen)
    requires 0 < |vals| <= |st.regs.freeAddr|
    requires var fa := st.regs.freeAddr;
             var reg := fa[|fa| - 1];
             st1 == Gen(MapAddr(st.regs.(freeAddr := fa[..|fa| - 1]), vals[0], reg),
                        st.code + [LoadPointer(reg, ptr, first * PointerBytes)])
    requires LoadPointersPost(vals[1..], first + 1, ptr, st1, st')
    ensures LoadPointersPost(vals, first, ptr, st, st')
  {
    PointerCodeStep(vals, first, ptr, st, st1, st');
    PointerBindStep(vals, first, ptr, st, st1, st');
  }

  lemma PointerCodeStep(vals: seq<ValueId>, first: nat, ptr: PointerReg, st: Gen, st1: Gen, st': Gen)
    requires 0 < |vals| <= |st.regs.freeAddr|
    requires var fa := st.regs.freeAddr;
             var reg := fa[|fa| - 1];
             && st1.regs.freeAddr == fa[..|fa| - 1]
             && st1.code == st.code + [LoadPointer(reg, ptr, first * PointerBytes)]
    requires PointerCodePost(vals[1..], first + 1, ptr, st1, st')
    ensures PointerCodePost(vals, first, ptr, st, st')
  {
  }

  lemma PointerBindStep(vals: seq<ValueId>, first: nat, ptr: PointerReg, st: Gen, st1: Gen, st': Gen)
    requires 0 < |vals| <= |st.regs.freeAddr|
    requires var fa := st.regs.freeAddr;
             var reg := fa[|fa| - 1];
             st1.regs == MapAddr(st.regs.(freeAddr := fa[..|fa| - 1]), vals[0], reg)
    requires PointerBindPost(vals[1..], st1, st')
    ensures PointerBindPost(vals, st, st')
  {
    var fa := st.regs.freeAddr;
    assert forall v <- vals :: v == vals[0] || v in vals[1..];
    if Distinct(vals) {
      assert vals[0] !in vals[1..] by {
        forall i | 1 <= i < |vals| ensures vals[i] != vals[0] { }
      }
      assert Distinct(vals[1..]);
      PoppedBind(st'.regs.addrRegs, vals, fa);
    }
  }

  /** The registers bound to distinct values, popped one per value. */
  lemma PoppedBind(m: map<ValueId, AddrReg>, vals: seq<ValueId>, fa: seq<AddrReg>)
    requires 0 < |vals| <= |fa| && forall v <- vals :: v in m
    requires m[vals[0]] == fa[|fa| - 1]
    requires RegsOf(m, vals[1..]) == Popped(fa[..|fa| - 1], |vals| - 1)
    ensures RegsOf(m, vals) == Popped(fa, |vals|)
  {
  }

  predicate LoadElementsPost(vals: seq<ValueId>, iter: AddrReg, st: Gen, st': Gen)
    requires |vals| <= |st.regs.freeValue| && forall v <- vals :: v in st.regs.addrRegs
  {
    var fv := st.regs.freeValue;
    && st'.regs.addrRegs == st.regs.addrRegs
    && st'.regs.freeAddr == st.regs.freeAddr
    && st'.regs.freeValue == fv[..|fv| - |vals|]
    && (forall v <- vals :: v in st'.regs.valueRegs)
    && (forall u <- st.regs.valueRegs :: u in st'.regs.valueRegs)
    && st'.code == st.code + ElementLoads(Popped(fv, |vals|), RegsOf(st.regs.addrRegs, vals), iter)
  }

  lemma LoadElementsStep(vals: seq<ValueId>, iter: AddrReg, st: Gen)
    requires |vals| > 0 && |st.regs.freeValue| > 0 && vals[0] in st.regs.addrRegs
    ensures var fv := st.regs.freeValue;
            var reg := fv[|fv| - 1];
            LoadElements(vals, iter, st)
            == LoadElements(vals[1..], iter,
                            Gen(MapValue(st.regs.(freeValue := fv[..|fv| - 1]), vals[0], reg),
                                st.code + [LoadElement(reg, st.regs.addrRegs[vals[0]], iter, ElementShift)]))
  {
  }

  predicate AllAddressed(vals: seq<ValueId>, m: Manager) {
    forall v <- vals :: v in m.addrRegs
  }

  /** The element-load loop fails exactly when the value pool runs out or
      an input has no buffer register; otherwise it loads every input
      from its own buffer at the counter into the next popped register. */
  lemma {:induction false} LoadElementsSpec(vals: seq<ValueId>, iter: AddrReg, st: Gen)
    ensures LoadElements(vals, iter, st).Ok? <==> |vals| <= |st.regs.freeValue| && AllAddressed(vals, st.regs)
    ensures LoadElements(vals, iter, st).Fail? ==>
              LoadElements(vals, iter, st).error == ValuePoolEmpty || LoadElements(vals, iter, st).error.UnboundAddr?
    ensures AllAddressed(vals, st.regs) && LoadElements(vals, iter, st).Fail? ==>
              LoadElements(vals, iter, st).error == ValuePoolEmpty
    ensures LoadElements(vals, iter, st).Ok? ==>
              LoadElementsPost(vals, iter, st, LoadElements(vals, iter, st).value)
    decreases |vals|
  {
    var fv := st.regs.freeValue;
    var m := st.regs;
    if |vals| == 0 {
      assert fv[..|fv|] == fv;
      assert st.code + ElementLoads(Popped(fv, 0), RegsOf(m.addrRegs, vals), iter) == st.code;
    } else {
      assert vals[0] in vals;
      if |fv| > 0 && vals[0] in m.addrRegs {
        var reg := fv[|fv| - 1];
        var base := m.addrRegs[vals[0]];
        var st1 := Gen(MapValue(m.(freeValue := fv[..|fv| - 1]), vals[0], reg),
                       st.code + [LoadElement(reg, base, iter, ElementShift)]);
        LoadElementsStep(vals, iter, st);
        LoadElementsSpec(vals[1..], iter, st1);
        assert AllAddressed(vals, m) <==> AllAddressed(vals[1..], st1.regs) by {
          assert forall v <- vals :: v == vals[0] || v in vals[1..];
        }
        if |vals| <= |fv| && AllAddressed(vals, m) {
          LoadElementsPostStep(vals, iter, st, st1, LoadElements(vals, iter, st).value);
        }
      }
    }
  }

  lemma LoadElementsPostStep(vals: seq<ValueId>, iter: AddrReg, st: Gen, st1: Gen, st': Gen)
    requires 0 < |vals| <= |st.regs.freeValue| && AllAddressed(vals, st.regs)
    requires var fv := st.regs.freeValue;
             var reg := fv[|fv| - 1];
             st1 == Gen(MapValue(st.regs.(freeValue := fv[..|fv| - 1]), vals[0], reg),
                        st.code + [LoadElement(reg, st.regs.addrRegs[vals[0]], iter, ElementShift)])
    requires AllAddressed(vals[1..], st1.regs)
    requires LoadElementsPost(vals[1..], iter, st1, st')
    ensures LoadElementsPost(vals, iter, st, st')
  {
    var fv := st.regs.freeValue;
    assert forall v <- vals :: v == vals[0] || v in vals[1..];
    assert fv[..|fv| - 1][..|fv| - 1 - (|vals| - 1)] == fv[..|fv| - |vals|];
    ElementCodeStep(vals, iter, st, st1, st');
  }

  lemma ElementCodeStep(vals: seq<ValueId>, iter: AddrReg, st: Gen, st1: Gen, st': Gen)
    requires 0 < |vals| <= |st.regs.freeValue| && AllAddressed(vals, st.regs)
    requires var fv := st.regs.freeValue;
             var reg := fv[|fv| - 1];
             && st1.regs.addrRegs == st.regs.addrRegs
             && st1.regs.freeValue == fv[..|fv| - 1]
             && st1.code == st.code + [LoadElement(reg, st.regs.addrRegs[vals[0]], iter, ElementShift)]
    requires AllAddressed(vals[1..], st1.regs)
    requires st'.code == st1.code + ElementLoads(Popped(st1.regs.freeValue, |vals| - 1),
                                                 RegsOf(st1.regs.addrRegs, vals[1..]), iter)
    ensures st'.code == st.code + ElementLoads(Popped(st.regs.freeValue, |vals|), RegsOf(st.regs.addrRegs, vals), iter)
  {
  }

  lemma ElementStoresCons(bases: seq<AddrReg>, iter: AddrReg, srcs: seq<ValueReg>)
    requires |srcs| == |bases| > 0
    ensures ElementStores(bases, iter, srcs)
         == [StoreElement(bases[0], iter, ElementShift, srcs[0])] + ElementStores(bases[1..], iter, srcs[1..])
  {
  }

  lemma StoreOutputsStep(vals: seq<ValueId>, iter: AddrReg, st: Gen)
    requires |vals| > 0 && vals[0] in st.regs.addrRegs && vals[0] in st.regs.valueRegs
    ensures StoreOutputs(vals, iter, st)
         == StoreOutputs(vals[1..], iter, Gen(st.regs, st.code + [StoreElement(st.regs.addrRegs[vals[0]], iter, ElementShift,
                                                                               st.regs.valueRegs[vals[0]])]))
  {
  }

  predicate AllStorable(vals: seq<ValueId>, m: Manager) {
    forall v <- vals :: v in m.addrRegs && v in m.valueRegs
  }

  /** The store loop fails exactly when an output lacks a buffer or a
      value register; otherwise it stores every output's value register
      into its own buffer at the counter and changes no binding. */
  lemma {:induction false} StoreOutputsSpec(vals: seq<ValueId>, iter: AddrReg, st: Gen)
    ensures StoreOutputs(vals, iter, st).Ok? <==> AllStorable(vals, st.regs)
    ensures StoreOutputs(vals, iter, st).Fail? ==>
              StoreOutputs(vals, iter, st).error.UnboundAddr? || StoreOutputs(vals, iter, st).error.UnboundValue?
    ensures AllAddressed(vals, st.regs) && StoreOutputs(vals, iter, st).Fail? ==>
              StoreOutputs(vals, iter, st).error.UnboundValue?
    ensures AllStorable(vals, st.regs) ==>
              StoreOutputs(vals, iter, st)
              == Ok(Gen(st.regs, st.code + ElementStores(RegsOf(st.regs.addrRegs, vals), iter, RegsOf(st.regs.valueRegs, vals))))
    decreases |vals|
  {
    if |vals| == 0 {
      assert st.code + ElementStores(RegsOf(st.regs.addrRegs, vals), iter, RegsOf(st.regs.valueRegs, vals)) == st.code;
    } else {
      var m := st.regs;
      assert vals[0] in vals;
      if vals[0] in m.addrRegs && vals[0] in m.valueRegs {
        var st1 := Gen(m, st.code + [StoreElement(m.addrRegs[vals[0]], iter, ElementShift, m.valueRegs[vals[0]])]);
        StoreOutputsStep(vals, iter, st);
        StoreOutputsSpec(vals[1..], iter, st1);
        assert && (AllStorable(vals, m) <==> AllStorable(vals[1..], m))
               && (AllAddressed(vals, m) <==> AllAddressed(vals[1..], m)) by {
          assert forall v <- vals :: v == vals[0] || v in vals[1..];
        }
        if AllStorable(vals, m) {
          RegsOfCons(m.addrRegs, vals);
          RegsOfCons(m.valueRegs, vals);
          var bs := RegsOf(m.addrRegs, vals);
          var ss := RegsOf(m.valueRegs, vals);
          ElementStoresCons(bs, iter, ss);
          assert bs[1..] == RegsOf(m.addrRegs, vals[1..]) && ss[1..] == RegsOf(m.valueRegs, vals[1..]);
          var one := [StoreElement(m.addrRegs[vals[0]], iter, ElementShift, m.valueRegs[vals[0]])];
          var rest := ElementStores(bs[1..], iter, ss[1..]);
          AppendAssoc(st.code, one, rest);
        }
      }
    }
  }

  // ---------------------------------------------------------------------
  // The whole of `compile`
  // ---------------------------------------------------------------------

  lemma DistinctSplit<T>(xs: seq<T>, ys: seq<T>)
    requires Distinct(xs + ys)
    ensures Distinct(xs) && Distinct(ys)
    ensures forall v <- xs :: v !in ys
  {
    forall i, j | 0 <= i < j < |xs| ensures xs[i] != xs[j] {
      assert (xs + ys)[i] == xs[i] && (xs + ys)[j] == xs[j];
    }
    forall v <- xs ensures v !in ys {
      var i :| 0 <= i < |xs| && xs[i] == v;
      forall j | 0 <= j < |ys| ensures ys[j] != v {
        assert (xs + ys)[i] == v && (xs + ys)[|xs| + j] == ys[j];
      }
    }
    forall i, j | 0 <= i < j < |ys| ensures ys[i] != ys[j] {
      assert (xs + ys)[|xs| + i] == ys[i] && (xs + ys)[|xs| + j] == ys[j];
    }
  }

  /** Every graph input and output keeps its buffer register from the
      pointer-load loops to the end of `compile`: the element loads, the
      node code and the stores never rebind an address register. */
  predicate Addressed(g: Graph, m: Manager) {
    forall v <- g.inputs + g.outputs :: v in m.addrRegs
  }

  /** Once the buffer pointers are loaded, the loop fails for want of an
      address register exactly when none is left for the counter; past
      that, only the value pool or a value without a register can make
      it fail. */
  lemma EmitLoopFailures(g: Graph, size: nat, st: Gen)
    requires WellFormed(g) && Addressed(g, st.regs)
    ensures EmitLoop(g, size, st) == Fail(AddrPoolEmpty) <==> |st.regs.freeAddr| == 0
    ensures EmitLoop(g, size, st).Fail? ==>
              EmitLoop(g, size, st).error in {AddrPoolEmpty, ValuePoolEmpty} || EmitLoop(g, size, st).error.UnboundValue?
  {
    if |st.regs.freeAddr| > 0 {
      var p := GetFreeAddrReg(st.regs).value;
      var st3 := Gen(p.1, st.code + [SetImm(p.0, 0), Bind(LoopLabel)]);
      assert AllAddressed(g.inputs, st3.regs) by {
        assert forall v <- g.inputs :: v in g.inputs + g.outputs;
      }
      LoadElementsSpec(g.inputs, p.0, st3);
      if LoadElements(g.inputs, p.0, st3).Ok? {
        var st4 := LoadElements(g.inputs, p.0, st3).value;
        if EmitNodes(g, 0, st4).Ok? {
          var st5 := EmitNodes(g, 0, st4).value;
          assert AllAddressed(g.outputs, st5.regs) by {
            assert forall v <- g.outputs :: v in g.inputs + g.outputs;
          }
          StoreOutputsSpec(g.outputs, p.0, st5);
        }
      }
    }
  }

  /** The address pool holds six registers: one goes to each graph input,
      one to each graph output and one to the loop counter. Code
      generation fails with an exhausted address pool exactly when the
      graph needs more; past that, only the value pool or a value without
      a register can make it fail. */
  lemma PlanFailures(g: Graph, size: nat, ptr: PointerReg)
    requires WellFormed(g)
    ensures Plan(g, size, ptr) == Fail(AddrPoolEmpty) <==> |g.inputs| + |g.outputs| + 1 > |AddrPool|
    ensures Plan(g, size, ptr).Fail? ==>
              Plan(g, size, ptr).error in {AddrPoolEmpty, ValuePoolEmpty} || Plan(g, size, ptr).error.UnboundValue?
  {
    var n := |g.inputs|;
    var st0 := Gen(Init(), []);
    LoadPointersSpec(g.inputs, 0, ptr, st0);
    if n <= |AddrPool| {
      var st1 := LoadPointers(g.inputs, 0, ptr, st0).value;
      LoadPointersSpec(g.outputs, n, ptr, st1);
      if |g.outputs| <= |st1.regs.freeAddr| {
        var st2 := LoadPointers(g.outputs, n, ptr, st1).value;
        assert Addressed(g, st2.regs) by {
          forall v <- g.inputs + g.outputs ensures v in st2.regs.addrRegs {
            if v !in g.outputs {
              assert v in g.inputs;
            }
          }
        }
        EmitLoopFailures(g, size, st2);
      }
    }
  }

  /** `compile` rejects its arguments exactly when they are not a
      non-empty list of tensors of one element count; it rejects a graph
      with more inputs and outputs than the address pool can hold
      whatever the arguments are, once they pass. */
  lemma CompileFailures(g: Graph, args: seq<IValue>, isWinOS: bool, backend: seq<Instr> -> bool)
    requires WellFormed(g) && |args| == |g.inputs|
    ensures !ValidArgs(args) ==> Compile(g, args, isWinOS, backend).Fail?
                                 && Compile(g, args, isWinOS, backend).error in {NoInputs, NotTensor, SizeMismatch}
    ensures ValidArgs(args) ==>
              (Compile(g, args, isWinOS, backend) == Fail(AddrPoolEmpty) <==> |g.inputs| + |g.outputs| + 1 > |AddrPool|)
    ensures ValidArgs(args) && Compile(g, args, isWinOS, backend).Fail? ==>
              var e := Compile(g, args, isWinOS, backend).error;
              e in {AddrPoolEmpty, ValuePoolEmpty} || e.UnboundValue? || e.BindingFailure?
    ensures Compile(g, args, isWinOS, backend).Fail? && Compile(g, args, isWinOS, backend).error.BindingFailure? ==>
              var log := Compile(g, args, isWinOS, backend).error.log;
              ValidArgs(args) && Plan(g, args[0].numel, ArgPointer(isWinOS)) == Ok(log) && !backend(log)
  {
    if ValidArgs(args) {
      PlanFailures(g, args[0].numel, ArgPointer(isWinOS));
    }
  }

  // ---------------------------------------------------------------------
  // The shape of the generated code
  // ---------------------------------------------------------------------

  /** The loop body: one element load per input, from that input's
      buffer register at the counter; then scalar operations only; then
      one element store per output, into that output's buffer register
      at the counter. */
  predicate LoopBodyShape(loads: seq<Instr>, ops: seq<Instr>, stores: seq<Instr>,
                          inBases: seq<AddrReg>, outBases: seq<AddrReg>, iter: AddrReg)
  {
    && |loads| == |inBases|
    && (forall i | 0 <= i < |loads| ::
          && loads[i].LoadElement? && loads[i].loadBase == inBases[i]
          && loads[i].loadIndex == iter && loads[i].loadShift == ElementShift)
    && (forall i | 0 <= i < |ops| :: ScalarOp(ops[i]))
    && |stores| == |outBases|
    && (forall i | 0 <= i < |stores| ::
          && stores[i].StoreElement? && stores[i].storeBase == outBases[i]
          && stores[i].storeIndex == iter && stores[i].storeShift == ElementShift)
  }

  /** The whole routine: the buffer pointers of the inputs and then the
      outputs loaded from consecutive entries of the pointer array into
      pairwise distinct registers, the counter (another register) zeroed,
      the loop label, the body, and the counter step, compare, branch and
      return. */
  predicate Skeleton(code: seq<Instr>, ptr: PointerReg, inBases: seq<AddrReg>, outBases: seq<AddrReg>,
                     iter: AddrReg, size: nat, loads: seq<Instr>, ops: seq<Instr>, stores: seq<Instr>)
  {
    && Distinct(inBases + outBases + [iter])
    && code == PointerLoads(inBases + outBases, 0, ptr) + [SetImm(iter, 0), Bind(LoopLabel)]
               + loads + ops + stores + LoopTail(iter, size)
    && LoopBodyShape(loads, ops, stores, inBases, outBases, iter)
  }

  /** The two pointer-load loops of `compile`, inputs then outputs, from
      any state whose address pool can hold them all: both succeed, bind
      every input and output, pop the registers in pool order and load
      them from consecutive entries of the pointer array. */
  lemma PointerPhases(ins: seq<ValueId>, outs: seq<ValueId>, ptr: PointerReg, st0: Gen) returns (st1: Gen, st2: Gen)
    requires |ins| + |outs| <= |st0.regs.freeAddr|
    ensures LoadPointers(ins, 0, ptr, st0) == Ok(st1) && LoadPointers(outs, |ins|, ptr, st1) == Ok(st2)
    ensures forall v <- ins + outs :: v in st2.regs.addrRegs
    ensures var fa := st0.regs.freeAddr;
            && st2.regs.freeAddr == fa[..|fa| - |ins| - |outs|]
            && st2.code == st0.code + PointerLoads(Popped(fa, |ins| + |outs|), 0, ptr)
    ensures Distinct(ins + outs) ==>
              && AllAddressed(ins, st2.regs) && AllAddressed(outs, st2.regs)
              && RegsOf(st2.regs.addrRegs, ins) + RegsOf(st2.regs.addrRegs, outs) == Popped(st0.regs.freeAddr, |ins| + |outs|)
  {
    st1 := LoadPointersOk(ins, 0, ptr, st0);
    st2 := LoadPointersOk(outs, |ins|, ptr, st1);
    PhasesFacts(ins, outs, ptr, st0, st1, st2);
  }

  lemma PhasesFacts(ins: seq<ValueId>, outs: seq<ValueId>, ptr: PointerReg, st0: Gen, st1: Gen, st2: Gen)
    requires |ins| + |outs| <= |st0.regs.freeAddr|
    requires LoadPointersPost(ins, 0, ptr, st0, st1) && LoadPointersPost(outs, |ins|, ptr, st1, st2)
    ensures forall v <- ins + outs :: v in st2.regs.addrRegs
    ensures var fa := st0.regs.freeAddr;
            && st2.regs.freeAddr == fa[..|fa| - |ins| - |outs|]
            && st2.code == st0.code + PointerLoads(Popped(fa, |ins| + |outs|), 0, ptr)
    ensures Distinct(ins + outs) ==>
              && AllAddressed(ins, st2.regs) && AllAddressed(outs, st2.regs)
              && RegsOf(st2.regs.addrRegs, ins) + RegsOf(st2.regs.addrRegs, outs) == Popped(st0.regs.freeAddr, |ins| + |outs|)
  {
    PhasesCode(ins, outs, ptr, st0, st1, st2);
    PhasesBound(ins, outs, st1, st2);
    if Distinct(ins + outs) {
      PhasesRegs(ins, outs, st0, st1, st2);
    }
  }

  /** The pointer-load loop from a pool that can hold `vals`. */
  lemma LoadPointersOk(vals: seq<ValueId>, first: nat, ptr: PointerReg, st: Gen) returns (st': Gen)
    requires |vals| <= |st.regs.freeAddr|
    ensures LoadPointers(vals, first, ptr, st) == Ok(st')
    ensures LoadPointersPost(vals, first, ptr, st, st')
  {
    LoadPointersSpec(vals, first, ptr, st);
    st' := LoadPointers(vals, first, ptr, st).value;
  }

  lemma PhasesBound(ins: seq<ValueId>, outs: seq<ValueId>, st1: Gen, st2: Gen)
    requires forall v <- ins :: v in st1.regs.addrRegs
    requires forall u | u in st1.regs.addrRegs && u !in outs :: u in st2.regs.addrRegs
    requires forall v <- outs :: v in st2.regs.addrRegs
    ensures forall v <- ins + outs :: v in st2.regs.addrRegs
  {
  }

  lemma PhasesCode(ins: seq<ValueId>, outs: seq<ValueId>, ptr: PointerReg, st0: Gen, st1: Gen, st2: Gen)
    requires |ins| + |outs| <= |st0.regs.freeAddr|
    requires PointerCodePost(ins, 0, ptr, st0, st1) && |outs| <= |st1.regs.freeAddr|
    requires PointerCodePost(outs, |ins|, ptr, st1, st2)
    ensures var fa := st0.regs.freeAddr;
            && st2.regs.freeAddr == fa[..|fa| - |ins| - |outs|]
            && st2.code == st0.code + PointerLoads(Popped(fa, |ins| + |outs|), 0, ptr)
  {
  }

  lemma PhasesRegs(ins: seq<ValueId>, outs: seq<ValueId>, st0: Gen, st1: Gen, st2: Gen)
    requires |ins| + |outs| <= |st0.regs.freeAddr| && Distinct(ins + outs)
    requires var fa := st0.regs.freeAddr; st1.regs.freeAddr == fa[..|fa| - |ins|]
    requires PointerBindPost(ins, st0, st1) && PointerBindPost(outs, st1, st2)
    ensures AllAddressed(ins, st2.regs) && AllAddressed(outs, st2.regs)
    ensures RegsOf(st2.regs.addrRegs, ins) + RegsOf(st2.regs.addrRegs, outs) == Popped(st0.regs.freeAddr, |ins| + |outs|)
  {
    var fa := st0.regs.freeAddr;
    var n := |ins|;
    DistinctSplit(ins, outs);
    assert RegsOf(st1.regs.addrRegs, ins) == Popped(fa, n);
    assert RegsOf(st2.regs.addrRegs, outs) == Popped(fa[..|fa| - n], |outs|);
    RegsOfSame(st1.regs.addrRegs, st2.regs.addrRegs, ins);
    PoppedAppend(fa, n, |outs|);
  }

  /** The pointer loads of a graph whose inputs and outputs fit in the
      address pool succeed and bind every input and output; they take
      the registers in pool order, inputs first, load them from
      consecutive entries of the pointer array, and leave the rest of the
      pool for the counter. For distinct inputs and outputs, the
      registers bound are the popped ones, in order. */
  lemma Buffers(g: Graph, ptr: PointerReg) returns (st: Gen)
    requires |g.inputs| + |g.outputs| <= |AddrPool|
    ensures LoadBuffers(g, ptr) == Ok(st)
    ensures Addressed(g, st.regs)
    ensures st.regs.freeAddr == AddrPool[..|AddrPool| - |g.inputs| - |g.outputs|]
    ensures st.code == PointerLoads(Popped(AddrPool, |g.inputs| + |g.outputs|), 0, ptr)
    ensures Distinct(g.inputs + g.outputs) ==>
              && AllAddressed(g.inputs, st.regs) && AllAddressed(g.outputs, st.regs)
              && RegsOf(st.regs.addrRegs, g.inputs) + RegsOf(st.regs.addrRegs, g.outputs)
                 == Popped(AddrPool, |g.inputs| + |g.outputs|)
  {
    var st0 := Gen(Init(), []);
    var st1;
    st1, st := PointerPhases(g.inputs, g.outputs, ptr, st0);
    BuffersByPhases(g, ptr, st1, st);
    assert st0.code == [];
  }

  /** `LoadBuffers` is the input loop followed by the output loop. */
  lemma BuffersByPhases(g: Graph, ptr: PointerReg, st1: Gen, st2: Gen)
    requires LoadPointers(g.inputs, 0, ptr, Gen(Init(), [])) == Ok(st1)
    requires LoadPointers(g.outputs, |g.inputs|, ptr, st1) == Ok(st2)
    ensures LoadBuffers(g, ptr) == Ok(st2)
  {
  }

  lemma SliceOfSlice<T>(s: seq<T>, a: nat, b: nat)
    requires b <= a <= |s|
    ensures s[..a][..b] == s[..b]
  {
  }

  /** Registers read back through two maps that agree on `vs`. */
  lemma RegsOfSame<R>(m1: map<ValueId, R>, m2: map<ValueId, R>, vs: seq<ValueId>)
    requires forall v <- vs :: v in m1 && v in m2 && m2[v] == m1[v]
    ensures RegsOf(m2, vs) == RegsOf(m1, vs)
  {
  }

  lemma ShapeFromPhases(dsts: seq<ValueReg>, inBases: seq<AddrReg>, iter: AddrReg, before: seq<Instr>,
                        after: seq<Instr>, outBases: seq<AddrReg>, srcs: seq<ValueReg>)
    requires |dsts| == |inBases| && |srcs| == |outBases| && ScalarExtension(before, after)
    ensures LoopBodyShape(ElementLoads(dsts, inBases, iter), after[|before|..],
                          ElementStores(outBases, iter, srcs), inBases, outBases, iter)
  {
  }

  lemma CodeChain(c0: seq<Instr>, hdr: seq<Instr>, loads: seq<Instr>, c4: seq<Instr>, c5: seq<Instr>, stores: seq<Instr>)
    requires |c4| == |c0| + |hdr| + |loads| && c4 == c0 + hdr + loads && ScalarExtension(c4, c5)
    ensures c5 + stores == c0 + hdr + loads + c5[|c4|..] + stores
  {
  }

  /** `st4` is the state once the counter `iter` is taken from the pool
      of `st`, zeroed and the loop label bound, and the inputs loaded. */
  predicate InputsLoaded(g: Graph, st: Gen, iter: AddrReg, st4: Gen) {
    && GetFreeAddrReg(st.regs).Ok? && GetFreeAddrReg(st.regs).value.0 == iter
    && LoadElements(g.inputs, iter, Gen(GetFreeAddrReg(st.regs).value.1, st.code + [SetImm(iter, 0), Bind(LoopLabel)]))
       == Ok(st4)
  }

  /** `ops` is exactly the code the node walk appends from `st4`: the
      code of every node, in graph order (`NodeCode.NodeSegments`). */
  predicate NodeBody(g: Graph, st4: Gen, ops: seq<Instr>) {
    WellFormed(g) && EmitNodes(g, 0, st4).Ok? && ops == EmitNodes(g, 0, st4).value.code[|st4.code|..]
  }

  /** The loop `compile` emits once the pointers are loaded: the counter
      is the next address register, and the body has the shape above,
      with the buffer registers the pointer loads bound. */
  lemma EmitLoopLayout(g: Graph, size: nat, st: Gen)
    returns (iter: AddrReg, st4: Gen, loads: seq<Instr>, ops: seq<Instr>, stores: seq<Instr>)
    requires WellFormed(g) && Addressed(g, st.regs) && EmitLoop(g, size, st).Ok?
    ensures |st.regs.freeAddr| > 0 && iter == st.regs.freeAddr[|st.regs.freeAddr| - 1]
    ensures AllAddressed(g.inputs, st.regs) && AllAddressed(g.outputs, st.regs)
    ensures EmitLoop(g, size, st).value
         == st.code + [SetImm(iter, 0), Bind(LoopLabel)] + loads + ops + stores + LoopTail(iter, size)
    ensures LoopBodyShape(loads, ops, stores, RegsOf(st.regs.addrRegs, g.inputs), RegsOf(st.regs.addrRegs, g.outputs), iter)
    ensures InputsLoaded(g, st, iter, st4) && NodeBody(g, st4, ops)
  {
    assert AllAddressed(g.inputs, st.regs) && AllAddressed(g.outputs, st.regs) by {
      assert forall v <- g.inputs :: v in g.inputs + g.outputs;
      assert forall v <- g.outputs :: v in g.inputs + g.outputs;
    }
    var p := GetFreeAddrReg(st.regs).value;
    iter := p.0;
    var hdr := [SetImm(iter, 0), Bind(LoopLabel)];
    var st3 := Gen(p.1, st.code + hdr);
    LoadElementsSpec(g.inputs, iter, st3);
    st4 := LoadElements(g.inputs, iter, st3).value;
    var st5 := EmitNodes(g, 0, st4).value;
    StoreOutputsSpec(g.outputs, iter, st5);
    var inBases := RegsOf(st.regs.addrRegs, g.inputs);
    var outBases := RegsOf(st.regs.addrRegs, g.outputs);
    var dsts := Popped(st3.regs.freeValue, |g.inputs|);
    var srcs := RegsOf(st5.regs.valueRegs, g.outputs);
    loads := ElementLoads(dsts, inBases, iter);
    ops := st5.code[|st4.code|..];
    stores := ElementStores(outBases, iter, srcs);
    ShapeFromPhases(dsts, inBases, iter, st4.code, st5.code, outBases, srcs);
    CodeChain(st.code, hdr, loads, st4.code, st5.code, stores);
  }

  lemma SkeletonIntro(code: seq<Instr>, ptr: PointerReg, inBases: seq<AddrReg>, outBases: seq<AddrReg>,
                      iter: AddrReg, size: nat, loads: seq<Instr>, ops: seq<Instr>, stores: seq<Instr>, pre: seq<Instr>)
    requires Distinct(inBases + outBases + [iter])
    requires pre == PointerLoads(inBases + outBases, 0, ptr)
    requires code == pre + [SetImm(iter, 0), Bind(LoopLabel)] + loads + ops + stores + LoopTail(iter, size)
    requires LoopBodyShape(loads, ops, stores, inBases, outBases, iter)
    ensures Skeleton(code, ptr, inBases, outBases, iter, size, loads, ops, stores)
  {
  }

  /** The buffer registers and the counter are the first pops of the
      address pool, so they are pairwise distinct. */
  lemma BasesDistinct(inBases: seq<AddrReg>, outBases: seq<AddrReg>, iter: AddrReg, k: nat)
    requires k < |AddrPool| && inBases + outBases == Popped(AddrPool, k)
    requires iter == AddrPool[..|AddrPool| - k][|AddrPool| - k - 1]
    ensures Distinct(inBases + outBases + [iter])
  {
  }

  /** Code generation, when it succeeds on a graph whose inputs and
      outputs are distinct values, emits the routine `Skeleton`
      describes. */
  lemma PlanLayout(g: Graph, size: nat, ptr: PointerReg)
    returns (inBases: seq<AddrReg>, outBases: seq<AddrReg>, iter: AddrReg, st4: Gen,
             loads: seq<Instr>, ops: seq<Instr>, stores: seq<Instr>)
    requires WellFormed(g) && Distinct(g.inputs + g.outputs) && Plan(g, size, ptr).Ok?
    ensures |inBases| == |g.inputs| && |outBases| == |g.outputs|
    ensures Skeleton(Plan(g, size, ptr).value, ptr, inBases, outBases, iter, size, loads, ops, stores)
    ensures LoadBuffers(g, ptr).Ok? && InputsLoaded(g, LoadBuffers(g, ptr).value, iter, st4) && NodeBody(g, st4, ops)
  {
    var n := |g.inputs|;
    var k := n + |g.outputs|;
    assert k + 1 <= |AddrPool| by {
      PlanFailures(g, size, ptr);
    }
    var st2 := Buffers(g, ptr);
    inBases := RegsOf(st2.regs.addrRegs, g.inputs);
    outBases := RegsOf(st2.regs.addrRegs, g.outputs);
    iter, st4, loads, ops, stores := EmitLoopLayout(g, size, st2);
    SliceOfSlice(AddrPool, |AddrPool| - k, |AddrPool| - k - 1);
    BasesDistinct(inBases, outBases, iter, k);
    SkeletonIntro(Plan(g, size, ptr).value, ptr, inBases, outBases, iter, size, loads, ops, stores, st2.code);
  }

  /** `compile`, when it succeeds on a graph whose inputs and outputs are
      distinct values, emits the routine `Skeleton` describes, for the
      element count of its arguments. */
  lemma CompiledLayout(g: Graph, args: seq<IValue>, isWinOS: bool, backend: seq<Instr> -> bool)
    returns (inBases: seq<AddrReg>, outBases: seq<AddrReg>, iter: AddrReg, st4: Gen,
             loads: seq<Instr>, ops: seq<Instr>, stores: seq<Instr>)
    requires WellFormed(g) && |args| == |g.inputs| && Distinct(g.inputs + g.outputs)
    requires Compile(g, args, isWinOS, backend).Ok?
    ensures ValidArgs(args)
    ensures var rt := Compile(g, args, isWinOS, backend).value;
            && rt.size == args[0].numel && rt.numOutputs == |g.outputs|
            && |inBases| == |g.inputs| && |outBases| == |g.outputs|
            && Skeleton(rt.code, ArgPointer(isWinOS), inBases, outBases, iter, rt.size, loads, ops, stores)
    ensures var ptr := ArgPointer(isWinOS);
            LoadBuffers(g, ptr).Ok? && InputsLoaded(g, LoadBuffers(g, ptr).value, iter, st4) && NodeBody(g, st4, ops)
  {
    inBases, outBases, iter, st4, loads, ops, stores := PlanLayout(g, args[0].numel, ArgPointer(isWinOS));
  }
}
