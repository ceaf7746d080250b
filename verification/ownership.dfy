/**
  Ownership of the value registers during the node walk. A value is live
  while one of its readers has not been visited; the allocator keeps its
  registers owned when the free pool holds each register at most once,
  no live value's register is free, and no two live values share one.
  A multiplication then writes only registers that no live value holds.
 */
module Ownership {
  import opened Isa
  import opened Results
  import opened Ir
  import opened Registers
  import opened Planner
  import opened PlannerFacts
  import opened Codegen
  import CodegenFacts

  /** The nodes visited before node `k` is inserted. */
  function Before(k: nat): (s: set<NodeId>)
    ensures forall j: nat :: j in s <==> j < k
  {
    if k == 0 then {} else Through(k - 1)
  }

  /** Value `v` still has a reader that has not been visited: a later
      node, or the return node. */
  predicate Live(g: Graph, seen: set<NodeId>, v: ValueId) {
    v < |g.uses| && !AllUsersSeen(g.uses[v], seen)
  }

  /** No node reads the same value in two of its input slots. */
  predicate DistinctOperands(g: Graph) {
    forall k | 0 <= k < |g.nodes| :: Distinct(g.nodes[k].inputs)
  }

  /** The value registers are owned with respect to the visited set. */
  predicate Owns(g: Graph, seen: set<NodeId>, m: Manager) {
    && Distinct(m.freeValue)
    && (forall v | v in m.valueRegs && Live(g, seen, v) :: m.valueRegs[v] !in m.freeValue)
    && (forall v, w | v in m.valueRegs && w in m.valueRegs && Live(g, seen, v) && Live(g, seen, w) && v != w ::
          m.valueRegs[v] != m.valueRegs[w])
  }

  // ---------------------------------------------------------------------
  // Liveness
  // ---------------------------------------------------------------------

  /** Each input of node `k` lists node `k` among its readers. */
  predicate ReadersListed(g: Graph, k: NodeId) {
    k < |g.nodes| && forall x <- g.nodes[k].inputs :: x < |g.uses| && Op(k) in g.uses[x]
  }

  /** A graph with consistent use-lists lists every node as a reader of
      its inputs. */
  lemma ConsistentListsReaders(g: Graph, k: NodeId)
    requires WellFormed(g) && UsesConsistent(g) && k < |g.nodes|
    ensures ReadersListed(g, k)
  {
  }

  /** Every input of node `k` is live until node `k` is visited. */
  lemma InputsLive(g: Graph, k: NodeId)
    requires ReadersListed(g, k)
    ensures forall x <- g.nodes[k].inputs :: Live(g, Before(k), x)
  {
  }

  // ---------------------------------------------------------------------
  // The allocator's steps
  // ---------------------------------------------------------------------

  /** Popping `n` registers and binding `v` to the last one popped keeps
      the registers owned: the popped registers were free, so no live
      value held them, and the pool held each of them once. */
  lemma PopBindKeeps(g: Graph, seen: set<NodeId>, m: Manager, n: nat, v: ValueId)
    requires Owns(g, seen, m) && 1 <= n <= |m.freeValue|
    ensures var fv := m.freeValue;
            Owns(g, seen, m.(freeValue := fv[..|fv| - n], valueRegs := m.valueRegs[v := fv[|fv| - n]]))
  {
  }

  /** The inputs the free loop releases are inputs of the node, each
      with every reader visited; a node that reads no value twice
      releases no value twice. */
  lemma {:induction false} DeadInputsFacts(g: Graph, ins: seq<ValueId>, seen: set<NodeId>)
    requires InArena(g, ins)
    ensures forall x <- DeadInputs(g, ins, seen) :: x in ins && x < |g.uses| && AllUsersSeen(g.uses[x], seen)
    ensures Distinct(ins) ==> Distinct(DeadInputs(g, ins, seen))
    decreases |ins|
  {
    if |ins| > 0 {
      var tail := ins[1..];
      assert InArena(g, tail) by {
        forall i | 0 <= i < |tail| ensures tail[i] < |g.uses| {
          assert tail[i] == ins[i + 1];
        }
      }
      DeadInputsFacts(g, tail, seen);
      var head := if AllUsersSeen(g.uses[ins[0]], seen) then [ins[0]] else [];
      var rest := DeadInputs(g, tail, seen);
      assert DeadInputs(g, ins, seen) == head + rest;
      assert forall x <- tail :: x in ins;
      if Distinct(ins) {
        assert Distinct(tail) by {
          forall i, j | 0 <= i < j < |tail| ensures tail[i] != tail[j] {
            assert tail[i] == ins[i + 1] && tail[j] == ins[j + 1];
          }
        }
        assert ins[0] !in tail by {
          forall i | 0 <= i < |tail| ensures tail[i] != ins[0] {
            assert tail[i] == ins[i + 1];
          }
        }
        DistinctCons(head, rest);
      }
    }
  }

  lemma DistinctCons<T>(head: seq<T>, rest: seq<T>)
    requires |head| <= 1 && Distinct(rest) && forall x <- head :: x !in rest
    ensures Distinct(head + rest)
  {
    if |head| == 1 {
      forall i, j | 0 <= i < j < |head + rest| ensures (head + rest)[i] != (head + rest)[j] {
        if i == 0 {
          assert (head + rest)[i] == head[0] && (head + rest)[j] == rest[j - 1];
          assert rest[j - 1] in rest;
        } else {
          assert (head + rest)[i] == rest[i - 1] && (head + rest)[j] == rest[j - 1];
        }
      }
    } else {
      assert head + rest == rest;
    }
  }

  /** Pushing the registers of values that were live and are now dead,
      each value once, keeps the registers owned. */
  lemma PushKeeps(g: Graph, before: set<NodeId>, seen: set<NodeId>, m: Manager, dead: seq<ValueId>)
    requires Owns(g, before, m) && before <= seen && Distinct(dead)
    requires forall x <- dead :: x in m.valueRegs && Live(g, before, x) && !Live(g, seen, x)
    ensures Owns(g, seen, m.(freeValue := m.freeValue + RegsOf(m.valueRegs, dead)))
  {
  }

  /** The free loop over the inputs of a node that were all live before
      it was visited, none listed twice, pushes registers that no value
      still live holds, each once: the registers stay owned. */
  lemma FreeKeeps(g: Graph, ins: seq<ValueId>, before: set<NodeId>, seen: set<NodeId>, st: Gen)
    requires InArena(g, ins) && Distinct(ins) && before <= seen
    requires Owns(g, before, st.regs)
    requires forall x <- ins :: Live(g, before, x)
    requires FreeDeadInputs(g, ins, seen, st).Ok?
    ensures Owns(g, seen, FreeDeadInputs(g, ins, seen, st).value.regs)
  {
    var dead := DeadInputs(g, ins, seen);
    DeadInputsFacts(g, ins, seen);
    PushKeeps(g, before, seen, st.regs, dead);
  }

  /** With the registers owned before node `k`, a multiplication writes
      only registers that no live value holds: its copies go to the `n`
      registers it pops, and the `mulss` to the last of them. So neither
      operand's register, nor any other live value's, is overwritten. */
  lemma MulWritesNoLiveRegister(g: Graph, k: NodeId, st: Gen)
    requires WellFormed(g) && ReadersListed(g, k) && g.nodes[k].kind.Mul?
    requires Owns(g, Before(k), st.regs)
    requires EmitMul(g, k, Through(k), st).Ok?
    ensures var node := g.nodes[k];
            var a := node.inputs[0];
            var b := node.inputs[1];
            var n := CountSeen(g.uses[a], Through(k));
            var fv := st.regs.freeValue;
            var vr := st.regs.valueRegs;
            var d := EmitMul(g, k, Through(k), st).value.regs.valueRegs[node.outputs[0]];
            && 1 <= n <= |fv|
            && d == fv[|fv| - n]
            && a in vr && b in vr && d != vr[a] && d != vr[b]
            && forall v | v in vr && Live(g, Before(k), v) :: vr[v] != d && vr[v] !in fv[|fv| - n..]
  {
    var node := g.nodes[k];
    assert NodeWellFormed(g, node);
    var a := node.inputs[0];
    assert a in node.inputs;
    var i :| 0 <= i < |g.uses[a]| && g.uses[a][i] == Op(k);
    CountSeenPositive(g.uses[a], Through(k), i);
    InputsLive(g, k);
    var fv := st.regs.freeValue;
    var n := CountSeen(g.uses[a], Through(k));
    TopHoldsNoLive(g, Before(k), st.regs, n);
    assert fv[|fv| - n..][0] == fv[|fv| - n];
    assert node.inputs[0] in node.inputs && node.inputs[1] in node.inputs;
  }

  /** Under ownership, the top `n` registers of the pool belong to no
      live value. */
  lemma TopHoldsNoLive(g: Graph, seen: set<NodeId>, m: Manager, n: nat)
    requires Owns(g, seen, m) && n <= |m.freeValue|
    ensures var fv := m.freeValue;
            forall v | v in m.valueRegs && Live(g, seen, v) :: m.valueRegs[v] !in fv[|fv| - n..]
  {
  }

  // ---------------------------------------------------------------------
  // The start of the walk
  // ---------------------------------------------------------------------

  /** The element-load loop keeps the registers owned: each input gets
      a register popped from the pool. */
  lemma {:induction false} LoadElementsKeepOwnership(g: Graph, seen: set<NodeId>, vals: seq<ValueId>, iter: AddrReg, st: Gen)
    requires Owns(g, seen, st.regs) && LoadElements(vals, iter, st).Ok?
    ensures Owns(g, seen, LoadElements(vals, iter, st).value.regs)
    decreases |vals|
  {
    if |vals| > 0 {
      var m := st.regs;
      var fv := m.freeValue;
      var reg := fv[|fv| - 1];
      var st1 := Gen(MapValue(m.(freeValue := fv[..|fv| - 1]), vals[0], reg),
                     st.code + [LoadElement(reg, m.addrRegs[vals[0]], iter, ElementShift)]);
      CodegenFacts.LoadElementsStep(vals, iter, st);
      PopBindKeeps(g, seen, m, 1, vals[0]);
      LoadElementsKeepOwnership(g, seen, vals[1..], iter, st1);
    }
  }

  /** The pointer loads leave the value side of a fresh manager: nothing
      bound, every value register free once. */
  lemma BuffersLeaveValuesFree(g: Graph, ptr: PointerReg)
    requires LoadBuffers(g, ptr).Ok?
    ensures LoadBuffers(g, ptr).value.regs.valueRegs == map[]
    ensures LoadBuffers(g, ptr).value.regs.freeValue == ValuePool && Distinct(ValuePool)
  {
    var st0 := Gen(Init(), []);
    CodegenFacts.LoadPointersSpec(g.inputs, 0, ptr, st0);
    var st1 := LoadPointers(g.inputs, 0, ptr, st0).value;
    CodegenFacts.LoadPointersSpec(g.outputs, |g.inputs|, ptr, st1);
  }

  /** The walk starts owned: once the inputs are loaded into registers
      popped from a pool that holds each register once, with nothing
      bound before, the registers are owned before node 0. */
  lemma WalkStartsOwned(g: Graph, iter: AddrReg, st: Gen)
    requires st.regs.valueRegs == map[] && Distinct(st.regs.freeValue)
    requires LoadElements(g.inputs, iter, st).Ok?
    ensures Owns(g, Before(0), LoadElements(g.inputs, iter, st).value.regs)
  {
    LoadElementsKeepOwnership(g, Before(0), g.inputs, iter, st);
  }
}
