/**
  Properties of `emitOperation` over a consistent graph: how many copies
  a multiplication makes and where its result lands, which registers the
  free loop releases, and what an unsupported node leaves behind.
 */
module PlannerFacts {
  import opened Isa
  import opened Ir
  import opened Results
  import opened Registers
  import opened Planner

  // ---------------------------------------------------------------------
  // Use-lists and the visited set
  // ---------------------------------------------------------------------

  /** A use-list is fully visited exactly when every one of its entries
      is counted as visited. */
  lemma {:induction false} CountSeenAll(uses: seq<User>, seen: set<NodeId>)
    ensures CountSeen(uses, seen) == |uses| <==> AllUsersSeen(uses, seen)
    decreases |uses|
  {
    if |uses| > 0 {
      CountSeenAll(uses[1..], seen);
      assert AllUsersSeen(uses, seen) <==> SeenUser(uses[0], seen) && AllUsersSeen(uses[1..], seen) by {
        if SeenUser(uses[0], seen) && AllUsersSeen(uses[1..], seen) {
          forall i | 0 <= i < |uses| ensures SeenUser(uses[i], seen) {
            if i > 0 {
              assert uses[i] == uses[1..][i - 1];
            }
          }
        }
        if AllUsersSeen(uses, seen) {
          forall i | 0 <= i < |uses| - 1 ensures SeenUser(uses[1..][i], seen) {
            assert uses[1..][i] == uses[i + 1];
          }
        }
      }
    }
  }

  /** A visited entry anywhere in a use-list is counted. */
  lemma {:induction false} CountSeenPositive(uses: seq<User>, seen: set<NodeId>, i: nat)
    requires i < |uses| && SeenUser(uses[i], seen)
    ensures CountSeen(uses, seen) >= 1
    decreases i
  {
    if i > 0 {
      assert uses[1..][i - 1] == uses[i];
      CountSeenPositive(uses[1..], seen, i - 1);
    }
  }

  /** In a consistent graph, a node that reads `v` appears in `v`'s
      use-list. */
  lemma ReaderListed(g: Graph, k: NodeId, v: ValueId) returns (i: nat)
    requires WellFormed(g) && UsesConsistent(g) && k < |g.nodes| && v in g.nodes[k].inputs
    ensures i < |g.uses[v]| && g.uses[v][i] == Op(k)
  {
    var j :| 0 <= j < |g.nodes[k].inputs| && g.nodes[k].inputs[j] == v;
    assert NodeWellFormed(g, g.nodes[k]);
    assert v < |g.uses|;
    assert multiset(g.nodes[k].inputs)[v] > 0;
    assert Op(k) in multiset(g.uses[v]);
    assert Op(k) in g.uses[v];
    var i' :| 0 <= i' < |g.uses[v]| && g.uses[v][i'] == Op(k);
    i := i';
  }

  /** In a consistent graph, a graph output's use-list holds the return
      node, which is never visited: an output is never dead. */
  lemma OutputNeverDead(g: Graph, v: ValueId, seen: set<NodeId>)
    requires WellFormed(g) && UsesConsistent(g) && v in g.outputs
    ensures v < |g.uses| && !AllUsersSeen(g.uses[v], seen)
  {
  }

  /** A value read by a node after position `k` is not dead once node `k`
      is visited: the walk inserts nodes in order, so the later reader is
      not yet in the visited set. */
  lemma LaterReaderKeepsAlive(g: Graph, k: NodeId, j: NodeId, v: ValueId)
    requires WellFormed(g) && UsesConsistent(g) && k < j < |g.nodes| && v in g.nodes[j].inputs
    ensures v < |g.uses| && !AllUsersSeen(g.uses[v], Through(k))
  {
  }

  // ---------------------------------------------------------------------
  // The free loop
  // ---------------------------------------------------------------------

  /** The values the free loop releases, as a multiset: every input slot
      whose value is dead, and nothing else. */
  lemma {:induction false} DeadInputsCount(g: Graph, ins: seq<ValueId>, seen: set<NodeId>)
    requires InArena(g, ins)
    ensures forall v: ValueId | v < |g.uses| ::
              multiset(DeadInputs(g, ins, seen))[v] == (if AllUsersSeen(g.uses[v], seen) then multiset(ins)[v] else 0)
    ensures forall v: ValueId | v >= |g.uses| :: multiset(DeadInputs(g, ins, seen))[v] == 0
    decreases |ins|
  {
    if |ins| > 0 {
      assert InArena(g, ins[1..]) by {
        forall i | 0 <= i < |ins| - 1 ensures ins[1..][i] < |g.uses| {
          assert ins[1..][i] == ins[i + 1];
        }
      }
      DeadInputsCount(g, ins[1..], seen);
      assert ins == [ins[0]] + ins[1..];
      assert multiset(ins) == multiset{ins[0]} + multiset(ins[1..]);
      var head := if AllUsersSeen(g.uses[ins[0]], seen) then [ins[0]] else [];
      assert DeadInputs(g, ins, seen) == head + DeadInputs(g, ins[1..], seen);
      assert multiset(DeadInputs(g, ins, seen)) == multiset(head) + multiset(DeadInputs(g, ins[1..], seen));
    }
  }

  /** A value read by a later node, or returned by the graph, is never
      released while node `k` is emitted. */
  lemma LiveValueNotFreed(g: Graph, k: NodeId, v: ValueId)
    requires WellFormed(g) && UsesConsistent(g) && k < |g.nodes| && v < |g.uses|
    requires v in g.outputs || exists j | k < j < |g.nodes| :: v in g.nodes[j].inputs
    ensures v !in DeadInputs(g, g.nodes[k].inputs, Through(k))
  {
    assert NodeWellFormed(g, g.nodes[k]);
    if v in g.outputs {
      OutputNeverDead(g, v, Through(k));
    } else {
      var j :| k < j < |g.nodes| && v in g.nodes[j].inputs;
      LaterReaderKeepsAlive(g, k, j, v);
    }
    DeadInputsCount(g, g.nodes[k].inputs, Through(k));
  }

  /** `x * x` with `x` dead afterwards: the free loop visits both input
      slots, finds `x` dead twice and pushes its register twice. */
  lemma SquareFreedTwice(g: Graph, k: NodeId, st: Gen)
    requires WellFormed(g) && k < |g.nodes| && g.nodes[k].kind.Mul?
    requires g.nodes[k].inputs[0] == g.nodes[k].inputs[1]
    requires AllUsersSeen(g.uses[g.nodes[k].inputs[0]], Through(k))
    requires g.nodes[k].inputs[0] in st.regs.valueRegs
    ensures var x := g.nodes[k].inputs[0];
            && DeadInputs(g, g.nodes[k].inputs, Through(k)) == [x, x]
            && FreeDeadInputs(g, g.nodes[k].inputs, Through(k), st)
               == Ok(st.(regs := st.regs.(freeValue := st.regs.freeValue + [st.regs.valueRegs[x], st.regs.valueRegs[x]])))
  {
    var ins := g.nodes[k].inputs;
    assert NodeWellFormed(g, g.nodes[k]);
    assert ins == [ins[0], ins[0]];
    assert ins[1..] == [ins[0]] && ins[1..][1..] == [];
    var x := ins[0];
    assert InArena(g, [x]) && InArena(g, []);
    assert DeadInputs(g, [], Through(k)) == [];
    assert DeadInputs(g, [x], Through(k)) == [x] + DeadInputs(g, [], Through(k));
    assert DeadInputs(g, ins, Through(k)) == [x] + DeadInputs(g, [x], Through(k));
    assert RegsOf(st.regs.valueRegs, [x, x]) == [st.regs.valueRegs[x], st.regs.valueRegs[x]];
  }

  // ---------------------------------------------------------------------
  // The multiplication
  // ---------------------------------------------------------------------

  /** When node `k` is emitted it is already visited, so a multiplication
      always copies input 0 at least once: its destination is a register
      taken from the free pool, one `movaps` per visited use of input 0
      precedes the `mulss`, which reads input 1's register, and the output
      is bound to the destination. That the destination holds no live
      value is `Ownership.MulWritesNoLiveRegister`. */
  lemma MulDestination(g: Graph, k: NodeId, st: Gen)
    requires WellFormed(g) && UsesConsistent(g) && k < |g.nodes| && g.nodes[k].kind.Mul?
    requires EmitMul(g, k, Through(k), st).Ok?
    ensures var node := g.nodes[k];
            var a := node.inputs[0];
            var b := node.inputs[1];
            var n := CountSeen(g.uses[a], Through(k));
            var fv := st.regs.freeValue;
            var vr := st.regs.valueRegs;
            var r := EmitMul(g, k, Through(k), st).value;
            && 1 <= n <= |fv|
            && r.regs.valueRegs[node.outputs[0]] == fv[|fv| - n]
            && r.code == st.code + CopyCode(fv, n, vr[a]) + [Mulss(fv[|fv| - n], vr[b])]
  {
    var a := g.nodes[k].inputs[0];
    assert a in g.nodes[k].inputs;
    var i := ReaderListed(g, k, a);
    CountSeenPositive(g.uses[a], Through(k), i);
  }

  // ---------------------------------------------------------------------
  // Unsupported nodes
  // ---------------------------------------------------------------------

  /** A node of an unsupported kind emits no instruction and binds no
      value: a value it was meant to produce stays unbound, and the next
      lookup of it fails. Only the free loop runs. */
  lemma UnsupportedEmitsNothing(g: Graph, k: NodeId, seen: set<NodeId>, st: Gen, v: ValueId)
    requires WellFormed(g) && k < |g.nodes| && !Supported(g.nodes[k].kind)
    ensures EmitOperation(g, k, seen, st) == FreeDeadInputs(g, g.nodes[k].inputs, seen, st)
    ensures EmitOperation(g, k, seen, st).Ok? ==>
              && EmitOperation(g, k, seen, st).value.code == st.code
              && EmitOperation(g, k, seen, st).value.regs.valueRegs == st.regs.valueRegs
    ensures EmitOperation(g, k, seen, st).Ok? && v !in st.regs.valueRegs ==>
              GetValueReg(EmitOperation(g, k, seen, st).value.regs, v) == Fail(UnboundValue(v))
  {
  }

  /** The whitelist decides emission: a node that `emitOperation`
      handles appends instructions exactly when `supported` accepts its
      kind, and then its result is bound to a value register. */
  lemma SupportedIffEmits(g: Graph, k: NodeId, seen: set<NodeId>, st: Gen)
    requires WellFormed(g) && k < |g.nodes| && EmitOperation(g, k, seen, st).Ok?
    ensures var r := EmitOperation(g, k, seen, st).value;
            && (Supported(g.nodes[k].kind) <==> |r.code| > |st.code|)
            && (Supported(g.nodes[k].kind) ==> g.nodes[k].outputs[0] in r.regs.valueRegs)
  {
  }
}
