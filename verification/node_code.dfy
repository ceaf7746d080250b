/**
  The code of the loop body, node by node: what the node walk appends is
  the code each node's `emitOperation` appends, in graph order, so the
  body of a compiled routine is exactly that code.
 */
module NodeCode {
  import opened Isa
  import opened Seqs
  import opened Ir
  import opened Results
  import opened Registers
  import opened Host
  import opened Planner
  import opened Codegen
  import CodegenFacts
  import Walk

  /** Node `k`, emitted from `st` with node `k` visited, ends in `st1`
      after appending `piece`. */
  predicate NodeStep(g: Graph, k: nat, st: Gen, st1: Gen, piece: seq<Instr>) {
    WellFormed(g) && k < |g.nodes| && EmitOperation(g, k, Through(k), st) == Ok(st1) && st1.code == st.code + piece
  }

  /** `sts[j]` is the state before node `k + j` and `pieces[j]` the code
      that node appends, for consecutive nodes from `k` on. */
  predicate Segments(g: Graph, k: nat, sts: seq<Gen>, pieces: seq<seq<Instr>>) {
    |sts| == |pieces| + 1 && forall j | 0 <= j < |pieces| :: NodeStep(g, k + j, sts[j], sts[j + 1], pieces[j])
  }

  /** The node walk from node `k` in state `st` ends in `r`. */
  predicate WalkFrom(g: Graph, k: nat, st: Gen, r: Gen) {
    WellFormed(g) && k <= |g.nodes| && EmitNodes(g, k, st) == Ok(r)
  }

  /** `sts` and `pieces` cover the walk from node `k` in state `st` to
      its end `r`: one state per node boundary, from `st` to `r`, one
      piece of code per node, and the pieces in order are all the walk
      appends. */
  predicate Covers(g: Graph, k: nat, st: Gen, r: Gen, sts: seq<Gen>, pieces: seq<seq<Instr>>) {
    && |pieces| == |g.nodes| - k && Segments(g, k, sts, pieces)
    && sts[0] == st && sts[|sts| - 1] == r
    && r.code == st.code + Flatten(pieces)
  }

  /** The code the node walk appends from node `k` on is the code each
      node's `emitOperation` appends, one node after the other in graph
      order, and nothing else. */
  lemma {:induction false} NodeSegments(g: Graph, k: nat, st: Gen, r: Gen) returns (sts: seq<Gen>, pieces: seq<seq<Instr>>)
    requires WalkFrom(g, k, st, r)
    ensures Covers(g, k, st, r, sts, pieces)
    decreases |g.nodes| - k, 1
  {
    if k < |g.nodes| {
      sts, pieces := SegmentsStep(g, k, st, r);
    } else {
      Walk.NodesEnd(g, k, st, r);
      sts, pieces := [st], [];
    }
  }

  /** The inductive step: node `k`'s code, then the rest of the walk. */
  lemma {:induction false} SegmentsStep(g: Graph, k: nat, st: Gen, r: Gen) returns (sts: seq<Gen>, pieces: seq<seq<Instr>>)
    requires WalkFrom(g, k, st, r) && k < |g.nodes|
    ensures Covers(g, k, st, r, sts, pieces)
    decreases |g.nodes| - k, 0
  {
    var st1, piece := NodeFirst(g, k, st, r);
    var rest, more := NodeSegments(g, k + 1, st1, r);
    sts, pieces := CoversCons(g, k, st, st1, r, piece, rest, more);
  }

  /** The first node of the walk from node `k`: its step, and the walk
      from the node after it. */
  lemma NodeFirst(g: Graph, k: nat, st: Gen, r: Gen) returns (st1: Gen, piece: seq<Instr>)
    requires WalkFrom(g, k, st, r) && k < |g.nodes|
    ensures NodeStep(g, k, st, st1, piece) && WalkFrom(g, k + 1, st1, r)
  {
    st1 := EmitOperation(g, k, Through(k), st).value;
    piece := st1.code[|st.code|..];
    PieceSplit(st.code, st1.code);
    Walk.NodesStep(g, k, st, st1);
  }

  lemma PieceSplit(c0: seq<Instr>, c1: seq<Instr>)
    requires ScalarExtension(c0, c1)
    ensures c1 == c0 + c1[|c0|..]
  {
  }

  /** One node in front of the cover of the nodes after it. */
  lemma CoversCons(g: Graph, k: nat, st: Gen, st1: Gen, r: Gen, piece: seq<Instr>, rest: seq<Gen>, more: seq<seq<Instr>>)
    returns (sts: seq<Gen>, pieces: seq<seq<Instr>>)
    requires NodeStep(g, k, st, st1, piece) && Covers(g, k + 1, st1, r, rest, more)
    ensures Covers(g, k, st, r, sts, pieces)
  {
    SegmentsCons(g, k, st, st1, piece, rest, more);
    FlattenCons(st.code, st1.code, r.code, piece, more);
    sts, pieces := [st] + rest, [piece] + more;
  }

  lemma FlattenCons<T>(c0: seq<T>, c1: seq<T>, c2: seq<T>, piece: seq<T>, more: seq<seq<T>>)
    requires c1 == c0 + piece && c2 == c1 + Flatten(more)
    ensures c2 == c0 + Flatten([piece] + more)
  {
    assert ([piece] + more)[1..] == more;
  }

  /** One node in front of the segments of the nodes after it. */
  lemma SegmentsCons(g: Graph, k: nat, st: Gen, st1: Gen, piece: seq<Instr>, sts: seq<Gen>, pieces: seq<seq<Instr>>)
    requires NodeStep(g, k, st, st1, piece) && Segments(g, k + 1, sts, pieces) && sts[0] == st1
    ensures Segments(g, k, [st] + sts, [piece] + pieces)
  {
    var sts', pieces' := [st] + sts, [piece] + pieces;
    forall j | 0 <= j < |pieces'| ensures NodeStep(g, k + j, sts'[j], sts'[j + 1], pieces'[j]) {
      if j > 0 {
        assert sts'[j] == sts[j - 1] && sts'[j + 1] == sts[j] && pieces'[j] == pieces[j - 1];
        assert NodeStep(g, (k + 1) + (j - 1), sts[j - 1], sts[j], pieces[j - 1]);
      }
    }
  }

  /** A plan that succeeds got through the pointer loads, took the
      counter and loaded the inputs into `st4`, and ran the node walk
      from `st4` to its end. */
  lemma PlanWalk(g: Graph, size: nat, ptr: PointerReg) returns (iter: AddrReg, st4: Gen)
    requires WellFormed(g) && Plan(g, size, ptr).Ok?
    ensures LoadBuffers(g, ptr).Ok? && CodegenFacts.InputsLoaded(g, LoadBuffers(g, ptr).value, iter, st4)
    ensures EmitNodes(g, 0, st4).Ok?
  {
    var st := LoadBuffers(g, ptr).value;
    var p := GetFreeAddrReg(st.regs).value;
    iter := p.0;
    st4 := LoadElements(g.inputs, iter, Gen(p.1, st.code + [SetImm(iter, 0), Bind(LoopLabel)])).value;
  }

  /** The body of a routine `compile` returns for a graph with distinct
      inputs and outputs: between the element loads and the stores sits
      exactly the code of every node's `emitOperation`, in graph order,
      each emitted from the state the node before it left. */
  lemma CompiledBody(g: Graph, args: seq<IValue>, isWinOS: bool, backend: seq<Instr> -> bool)
    returns (inBases: seq<AddrReg>, outBases: seq<AddrReg>, iter: AddrReg, loads: seq<Instr>, stores: seq<Instr>,
             sts: seq<Gen>, pieces: seq<seq<Instr>>)
    requires WellFormed(g) && |args| == |g.inputs| && Distinct(g.inputs + g.outputs)
    requires Compile(g, args, isWinOS, backend).Ok?
    ensures var rt := Compile(g, args, isWinOS, backend).value;
            var ptr := ArgPointer(isWinOS);
            && CodegenFacts.Skeleton(rt.code, ptr, inBases, outBases, iter, rt.size, loads, Flatten(pieces), stores)
            && |pieces| == |g.nodes| && Segments(g, 0, sts, pieces)
            && LoadBuffers(g, ptr).Ok? && CodegenFacts.InputsLoaded(g, LoadBuffers(g, ptr).value, iter, sts[0])
  {
    var st4, ops;
    inBases, outBases, iter, st4, loads, ops, stores := CodegenFacts.CompiledLayout(g, args, isWinOS, backend);
    var r := EmitNodes(g, 0, st4).value;
    sts, pieces := NodeSegments(g, 0, st4, r);
    assert sts[0] == st4 && Flatten(pieces) == ops;
  }
}
