/**
  Single steps of the planner and of the body's dataflow, stated so that
  a concrete planning run can be followed one round at a time.
 */
module Walk {
  import opened Isa
  import opened Seqs
  import opened Ir
  import opened Results
  import opened Registers
  import opened Planner
  import opened Codegen
  import opened Dataflow
  import CodegenFacts

  /** Occurrences of `x` in a list of at most three entries. */
  lemma CountOf<T>(s: seq<T>, x: T)
    requires |s| <= 3
    ensures multiset(s)[x] == (if |s| > 0 && s[0] == x then 1 else 0)
                              + (if |s| > 1 && s[1] == x then 1 else 0)
                              + (if |s| > 2 && s[2] == x then 1 else 0)
  {
    if |s| > 0 {
      assert s == [s[0]] + s[1..];
      if |s| > 1 {
        assert s[1..] == [s[1]] + s[2..];
        if |s| > 2 {
          assert s[2..] == [s[2]];
        }
      }
    }
  }

  /** One round of the pointer-load loop, from a pool ending in `reg`. */
  lemma PointerStep(vals: seq<ValueId>, first: nat, ptr: PointerReg, st: Gen, pool: seq<AddrReg>, reg: AddrReg, st': Gen)
    requires |vals| > 0 && st.regs.freeAddr == pool + [reg]
    requires st'.regs == Manager(st.regs.addrRegs[vals[0] := reg], st.regs.valueRegs, pool, st.regs.freeValue)
    requires st'.code == st.code + [LoadPointer(reg, ptr, first * PointerBytes)]
    ensures LoadPointers(vals, first, ptr, st) == LoadPointers(vals[1..], first + 1, ptr, st')
  {
  }

  /** One round of the element-load loop, from a pool ending in `reg`. */
  lemma ElementStep(vals: seq<ValueId>, iter: AddrReg, st: Gen, pool: seq<ValueReg>, reg: ValueReg, st': Gen)
    requires |vals| > 0 && st.regs.freeValue == pool + [reg] && vals[0] in st.regs.addrRegs
    requires st'.regs == Manager(st.regs.addrRegs, st.regs.valueRegs[vals[0] := reg], st.regs.freeAddr, pool)
    requires st'.code == st.code + [LoadElement(reg, st.regs.addrRegs[vals[0]], iter, ElementShift)]
    ensures LoadElements(vals, iter, st) == LoadElements(vals[1..], iter, st')
  {
  }

  /** A multiplication that makes `n > 0` copies of its first operand
      and then releases the registers of `dead`. */
  lemma MulStep(g: Graph, k: NodeId, seen: set<NodeId>, st: Gen, n: nat, dead: seq<ValueId>, st': Gen)
    requires WellFormed(g) && k < |g.nodes| && g.nodes[k].kind.Mul?
    requires var node := g.nodes[k];
             node.inputs[0] in st.regs.valueRegs && node.inputs[1] in st.regs.valueRegs
    requires CountSeen(g.uses[g.nodes[k].inputs[0]], seen) == n && 0 < n <= |st.regs.freeValue|
    requires DeadInputs(g, g.nodes[k].inputs, seen) == dead
    requires var fv := st.regs.freeValue;
             var vr := st.regs.valueRegs[g.nodes[k].outputs[0] := fv[|fv| - n]];
             && (forall v <- dead :: v in vr)
             && st'.regs == st.regs.(freeValue := fv[..|fv| - n] + RegsOf(vr, dead), valueRegs := vr)
    requires var fv := st.regs.freeValue;
             var vr := st.regs.valueRegs;
             var node := g.nodes[k];
             st'.code == st.code + CopyCode(fv, n, vr[node.inputs[0]]) + [Mulss(fv[|fv| - n], vr[node.inputs[1]])]
    ensures EmitOperation(g, k, seen, st) == Ok(st')
  {
  }

  /** One round of the node loop. */
  lemma NodesStep(g: Graph, k: nat, st: Gen, st1: Gen)
    requires WellFormed(g) && k < |g.nodes| && EmitOperation(g, k, Through(k), st) == Ok(st1)
    ensures EmitNodes(g, k, st) == EmitNodes(g, k + 1, st1)
  {
  }

  /** Past the last node the node loop returns its state unchanged. */
  lemma NodesEnd(g: Graph, k: nat, st: Gen, r: Gen)
    requires WellFormed(g) && k == |g.nodes| && EmitNodes(g, k, st) == Ok(r)
    ensures r == st
  {
  }

  /** `compile`'s loop, phase by phase. */
  lemma LoopByPhases(g: Graph, size: nat, st: Gen, iter: AddrReg, m: Manager, st4: Gen, st5: Gen, st6: Gen)
    requires WellFormed(g)
    requires GetFreeAddrReg(st.regs) == Ok((iter, m))
    requires LoadElements(g.inputs, iter, Gen(m, st.code + [SetImm(iter, 0), Bind(LoopLabel)])) == Ok(st4)
    requires EmitNodes(g, 0, st4) == Ok(st5)
    requires StoreOutputs(g.outputs, iter, st5) == Ok(st6)
    ensures EmitLoop(g, size, st) == Ok(st6.code + LoopTail(iter, size))
  {
  }

  /** Planning, given the outcome of the pointer loads and of the loop. */
  lemma PlanByParts(g: Graph, size: nat, ptr: PointerReg, st: Gen, r: Result<seq<Instr>>)
    requires WellFormed(g) && LoadBuffers(g, ptr) == Ok(st) && EmitLoop(g, size, st) == r
    ensures Plan(g, size, ptr) == r
  {
  }

  /** `compile`'s loop, failing in the store loop. */
  lemma LoopFailsAtStores(g: Graph, size: nat, st: Gen, iter: AddrReg, m: Manager, st4: Gen, st5: Gen, e: Error)
    requires WellFormed(g)
    requires GetFreeAddrReg(st.regs) == Ok((iter, m))
    requires LoadElements(g.inputs, iter, Gen(m, st.code + [SetImm(iter, 0), Bind(LoopLabel)])) == Ok(st4)
    requires EmitNodes(g, 0, st4) == Ok(st5)
    requires StoreOutputs(g.outputs, iter, st5) == Fail(e)
    ensures EmitLoop(g, size, st) == Fail(e)
  {
  }

  /** Two pieces of body run one after the other. */
  lemma FlowThen(p: seq<Instr>, q: seq<Instr>, bufs: map<AddrReg, nat>, f: Flow, f1: Flow, f2: Flow)
    requires BodyFlow(p, bufs, f) == Finished(f1) && BodyFlow(q, bufs, f1) == Finished(f2)
    ensures BodyFlow(p + q, bufs, f) == Finished(f2)
  {
    FlowAppend(p, q, bufs, f);
  }

  /** A single store records its register's term for its buffer. */
  lemma StoreFlow(b: AddrReg, i: AddrReg, sh: nat, s: ValueReg, bufs: map<AddrReg, nat>, f: Flow)
    requires b in bufs && s in f.xmm
    ensures BodyFlow([StoreElement(b, i, sh, s)], bufs, f) == Finished(f.(stored := f.stored[bufs[b] := f.xmm[s]]))
  {
  }

}
