/**
  The node walk keeps the value registers owned, by induction over the
  nodes: each `emitOperation` keeps ownership from the visited set before
  its node to the one after it.
 */
module WalkOwnership {
  import opened Results
  import opened Ir
  import opened Planner
  import opened Codegen
  import opened PlannerFacts
  import opened Ownership
  import opened Isa
  import opened Registers
  import opened NodeCode
  import CodegenFacts
  import Walk

  // ---------------------------------------------------------------------
  // emitOperation
  // ---------------------------------------------------------------------

  /** `emitOperation` keeps the registers owned, from the visited set
      before node `k` to the one after it, when no node reads a value
      twice. */
  lemma EmitKeepsOwnership(g: Graph, k: NodeId, st: Gen)
    requires WellFormed(g) && UsesConsistent(g) && DistinctOperands(g) && k < |g.nodes|
    requires Owns(g, Before(k), st.regs)
    requires EmitOperation(g, k, Through(k), st).Ok?
    ensures Owns(g, Through(k), EmitOperation(g, k, Through(k), st).value.regs)
  {
    if g.nodes[k].kind.Mul? {
      MulKeepsOwnership(g, k, st);
    } else {
      OtherKeepsOwnership(g, k, st);
    }
  }

  /** A multiplication pops and binds its destination, then frees its
      dead inputs. */
  lemma MulKeepsOwnership(g: Graph, k: NodeId, st: Gen)
    requires WellFormed(g) && UsesConsistent(g) && DistinctOperands(g) && k < |g.nodes|
    requires g.nodes[k].kind.Mul?
    requires Owns(g, Before(k), st.regs)
    requires EmitOperation(g, k, Through(k), st).Ok?
    ensures Owns(g, Through(k), EmitOperation(g, k, Through(k), st).value.regs)
  {
    var st1 := MulBindKeeps(g, k, st);
    assert NodeWellFormed(g, g.nodes[k]);
    ConsistentListsReaders(g, k);
    InputsLive(g, k);
    FreeKeeps(g, g.nodes[k].inputs, Before(k), Through(k), st1);
  }

  /** The first half of a multiplication: popping and binding the
      destination keeps the registers owned. */
  lemma MulBindKeeps(g: Graph, k: NodeId, st: Gen) returns (st1: Gen)
    requires WellFormed(g) && UsesConsistent(g) && k < |g.nodes| && g.nodes[k].kind.Mul?
    requires Owns(g, Before(k), st.regs)
    requires EmitOperation(g, k, Through(k), st).Ok?
    ensures EmitOperation(g, k, Through(k), st) == FreeDeadInputs(g, g.nodes[k].inputs, Through(k), st1)
    ensures Owns(g, Before(k), st1.regs)
  {
    var node := g.nodes[k];
    st1 := EmitMul(g, k, Through(k), st).value;
    MulDestination(g, k, st);
    PopBindKeeps(g, Before(k), st.regs, CountSeen(g.uses[node.inputs[0]], Through(k)), node.outputs[0]);
  }

  /** A node of an unsupported kind only frees its dead inputs. */
  lemma OtherKeepsOwnership(g: Graph, k: NodeId, st: Gen)
    requires WellFormed(g) && UsesConsistent(g) && DistinctOperands(g) && k < |g.nodes|
    requires !g.nodes[k].kind.Mul?
    requires Owns(g, Before(k), st.regs)
    requires EmitOperation(g, k, Through(k), st).Ok?
    ensures Owns(g, Through(k), EmitOperation(g, k, Through(k), st).value.regs)
  {
    var node := g.nodes[k];
    assert NodeWellFormed(g, node);
    ConsistentListsReaders(g, k);
    InputsLive(g, k);
    assert EmitOperation(g, k, Through(k), st) == FreeDeadInputs(g, node.inputs, Through(k), st);
    FreeKeeps(g, node.inputs, Before(k), Through(k), st);
  }

  // ---------------------------------------------------------------------
  // The walk
  // ---------------------------------------------------------------------

  /** The graphs the ownership argument covers: well formed, with
      consistent use-lists, and no node reading a value twice. */
  predicate Walkable(g: Graph) {
    WellFormed(g) && UsesConsistent(g) && DistinctOperands(g)
  }

  /** The walk from node `k` in state `st` ends in `r`, and `st` owns the
      registers before node `k`. */
  predicate OwnedWalk(g: Graph, k: nat, st: Gen, r: Gen) {
    Walkable(g) && k <= |g.nodes| && Owns(g, Before(k), st.regs) && EmitNodes(g, k, st) == Ok(r)
  }

  /** One node of the walk, owned before and after. */
  lemma OwnershipStep(g: Graph, k: nat, st: Gen, r: Gen) returns (st1: Gen)
    requires OwnedWalk(g, k, st, r) && k < |g.nodes|
    ensures OwnedWalk(g, k + 1, st1, r)
  {
    st1 := EmitOperation(g, k, Through(k), st).value;
    Walk.NodesStep(g, k, st, st1);
    EmitKeepsOwnership(g, k, st);
    assert Through(k) == Before(k + 1);
  }

  /** The node walk from node `k` on keeps the registers owned. */
  lemma {:induction false} WalkKeepsOwnership(g: Graph, k: nat, st: Gen, r: Gen)
    requires OwnedWalk(g, k, st, r)
    ensures Owns(g, Before(|g.nodes|), r.regs)
    decreases |g.nodes| - k, 1
  {
    if k < |g.nodes| {
      WalkStepOwned(g, k, st, r);
    } else {
      Walk.NodesEnd(g, k, st, r);
    }
  }

  /** The walk's inductive step: one node, then the rest of the walk. */
  lemma {:induction false} WalkStepOwned(g: Graph, k: nat, st: Gen, r: Gen)
    requires OwnedWalk(g, k, st, r) && k < |g.nodes|
    ensures Owns(g, Before(|g.nodes|), r.regs)
    decreases |g.nodes| - k, 0
  {
    var st1 := OwnershipStep(g, k, st, r);
    WalkKeepsOwnership(g, k + 1, st1, r);
  }

  // ---------------------------------------------------------------------
  // A whole plan
  // ---------------------------------------------------------------------

  /** Planning a graph the ownership argument covers keeps the registers
      owned before every node: `sts[j]` is the state node `j` is emitted
      from. At every multiplication the hypotheses of
      `MulWritesNoLiveRegister` hold, so no multiplication of the plan
      writes the register of a live value. */
  lemma PlanOwned(g: Graph, size: nat, ptr: PointerReg) returns (iter: AddrReg, sts: seq<Gen>, pieces: seq<seq<Instr>>)
    requires Walkable(g) && Plan(g, size, ptr).Ok?
    ensures |pieces| == |g.nodes| && Segments(g, 0, sts, pieces)
    ensures LoadBuffers(g, ptr).Ok? && CodegenFacts.InputsLoaded(g, LoadBuffers(g, ptr).value, iter, sts[0])
    ensures forall j | 0 <= j < |sts| :: Owns(g, Before(j), sts[j].regs)
    ensures forall j | 0 <= j < |g.nodes| && g.nodes[j].kind.Mul? ::
              ReadersListed(g, j) && EmitMul(g, j, Through(j), sts[j]).Ok?
  {
    var st4;
    iter, st4 := PlanWalk(g, size, ptr);
    PlanStartsOwned(g, ptr, iter, st4);
    sts, pieces := NodeSegments(g, 0, st4, EmitNodes(g, 0, st4).value);
    forall j | 0 <= j < |sts| ensures Owns(g, Before(j), sts[j].regs) {
      OwnedAlong(g, sts, pieces, j);
    }
    forall j | 0 <= j < |g.nodes| && g.nodes[j].kind.Mul?
      ensures ReadersListed(g, j) && EmitMul(g, j, Through(j), sts[j]).Ok?
    {
      ConsistentListsReaders(g, j);
      MulEmitted(g, j, sts[j], sts[j + 1], pieces[j]);
    }
  }

  /** The registers are owned before node 0 of a plan. */
  lemma PlanStartsOwned(g: Graph, ptr: PointerReg, iter: AddrReg, st4: Gen)
    requires LoadBuffers(g, ptr).Ok? && CodegenFacts.InputsLoaded(g, LoadBuffers(g, ptr).value, iter, st4)
    ensures Owns(g, Before(0), st4.regs)
  {
    var st := LoadBuffers(g, ptr).value;
    BuffersLeaveValuesFree(g, ptr);
    var m := GetFreeAddrReg(st.regs).value.1;
    WalkStartsOwned(g, iter, Gen(m, st.code + [SetImm(iter, 0), Bind(LoopLabel)]));
  }

  /** Ownership along the states of a walk that starts owned. */
  lemma {:induction false} OwnedAlong(g: Graph, sts: seq<Gen>, pieces: seq<seq<Instr>>, j: nat)
    requires Walkable(g) && |pieces| == |g.nodes| && Segments(g, 0, sts, pieces)
    requires Owns(g, Before(0), sts[0].regs) && j < |sts|
    ensures Owns(g, Before(j), sts[j].regs)
  {
    if j > 0 {
      var k := j - 1;
      OwnedAlong(g, sts, pieces, k);
      var st, st1, piece := sts[k], sts[k + 1], pieces[k];
      assert NodeStep(g, 0 + k, st, st1, piece);
      StepOwned(g, k, st, st1, piece);
    }
  }

  /** One node of a walk, owned before and after. */
  lemma StepOwned(g: Graph, k: nat, st: Gen, st1: Gen, piece: seq<Instr>)
    requires Walkable(g) && NodeStep(g, k, st, st1, piece) && Owns(g, Before(k), st.regs)
    ensures Owns(g, Before(k + 1), st1.regs)
  {
    EmitKeepsOwnership(g, k, st);
    assert Through(k) == Before(k + 1);
  }

  /** A multiplication that `emitOperation` emits got past `EmitMul`. */
  lemma MulEmitted(g: Graph, k: nat, st: Gen, st1: Gen, piece: seq<Instr>)
    requires NodeStep(g, k, st, st1, piece) && g.nodes[k].kind.Mul?
    ensures EmitMul(g, k, Through(k), st).Ok?
  {
  }
}
