/**
  The per-node part of code generation: `emitOperation` and the walk of
  `compile` over the graph's nodes in topological order.
 */
module Planner {
  import opened Isa
  import opened Ir
  import opened Results
  import opened Registers
  import opened Seqs

  /** Code generation state: the register manager and the instructions
      emitted so far. */
  datatype Gen = Gen(regs: Manager, code: seq<Instr>)

  /** `n` copies of `src`, the i-th into the i-th register popped from
      `pool`. */
  function CopyCode(pool: seq<ValueReg>, n: nat, src: ValueReg): (c: seq<Instr>)
    requires n <= |pool|
    ensures |c| == n && forall i | 0 <= i < n :: c[i] == Movaps(pool[|pool| - 1 - i], src)
  {
    seq(n, i requires 0 <= i < n => Movaps(pool[|pool| - 1 - i], src))
  }

  lemma CopyCodeStep(pool: seq<ValueReg>, n: nat, src: ValueReg)
    requires 0 < n <= |pool|
    ensures [Movaps(pool[|pool| - 1], src)] + CopyCode(pool[..|pool| - 1], n - 1, src) == CopyCode(pool, n, src)
  {
  }

  /** `after` is `before` followed by scalar operations only. */
  predicate ScalarExtension(before: seq<Instr>, after: seq<Instr>) {
    && |before| <= |after|
    && after[..|before|] == before
    && forall i | |before| <= i < |after| :: ScalarOp(after[i])
  }

  lemma ScalarExtensionTrans(a: seq<Instr>, b: seq<Instr>, c: seq<Instr>)
    requires ScalarExtension(a, b) && ScalarExtension(b, c)
    ensures ScalarExtension(a, c)
  {
  }

  /** What the copy loop does, for `n` visited uses of `a`: nothing when
      `n` is zero; otherwise it fails exactly when `a` has no value
      register or the pool holds fewer than `n` registers, and on success
      pops `n` registers, copies `a` into each, and leaves the last one
      popped as the destination. */
  predicate CopyPost(uses: seq<User>, a: ValueId, seen: set<NodeId>, dst: ValueReg, st: Gen, r: Result<(ValueReg, Gen)>) {
    var n := CountSeen(uses, seen);
    var fv := st.regs.freeValue;
    && (r.Ok? <==> n == 0 || (a in st.regs.valueRegs && n <= |fv|))
    && (r.Fail? ==> r.error == ValuePoolEmpty || r.error == UnboundValue(a))
    && (r.Ok? && n == 0 ==> r.value == (dst, st))
    && (r.Ok? && n > 0 ==>
          && r.value.1.regs == st.regs.(freeValue := fv[..|fv| - n])
          && r.value.1.code == st.code + CopyCode(fv, n, st.regs.valueRegs[a])
          && r.value.0 == fv[|fv| - n])
  }

  /** The copy loop of the `mul` case: for every entry of `a`'s use-list
      whose node has been visited, take a fresh value register and copy
      `a` into it. `dst` is the destination so far. */
  function CopyForSeenUses(uses: seq<User>, a: ValueId, seen: set<NodeId>, dst: ValueReg, st: Gen)
    : (r: Result<(ValueReg, Gen)>)
    ensures CopyPost(uses, a, seen, dst, st, r)
    decreases |uses|
  {
    if |uses| == 0 then Ok((dst, st))
    else if SeenUser(uses[0], seen) then
      var p :- GetFreeValueReg(st.regs);
      var src :- GetValueReg(p.1, a);
      var r := CopyForSeenUses(uses[1..], a, seen, p.0, Gen(p.1, st.code + [Movaps(p.0, src)]));
      CopyStep(uses, a, seen, dst, st, r);
      r
    else
      CopyForSeenUses(uses[1..], a, seen, dst, st)
  }

  /** A visited use: one pop and one copy, then the rest of the loop. */
  lemma CopyStep(uses: seq<User>, a: ValueId, seen: set<NodeId>, dst: ValueReg, st: Gen, r: Result<(ValueReg, Gen)>)
    requires |uses| > 0 && SeenUser(uses[0], seen) && |st.regs.freeValue| > 0 && a in st.regs.valueRegs
    requires var fv := st.regs.freeValue;
             var reg := fv[|fv| - 1];
             var st1 := Gen(st.regs.(freeValue := fv[..|fv| - 1]), st.code + [Movaps(reg, st.regs.valueRegs[a])]);
             CopyPost(uses[1..], a, seen, reg, st1, r)
    ensures CopyPost(uses, a, seen, dst, st, r)
  {
    var fv := st.regs.freeValue;
    var src := st.regs.valueRegs[a];
    var n := CountSeen(uses, seen);
    if r.Ok? && n > 1 {
      CopyCodeStep(fv, n, src);
      SlicePop(fv, n);
      AppendAssoc(st.code, [Movaps(fv[|fv| - 1], src)], CopyCode(fv[..|fv| - 1], n - 1, src));
    }
  }

  /** Popping one register and then `n - 1` more is popping `n`. */
  lemma SlicePop<T>(s: seq<T>, n: nat)
    requires 1 < n <= |s|
    ensures s[..|s| - 1][..|s| - 1 - (n - 1)] == s[..|s| - n]
    ensures s[..|s| - 1][|s| - 1 - (n - 1)] == s[|s| - n]
  {
  }

  /** The `aten::mul` case of `emitOperation` for node `k`. */
  function EmitMul(g: Graph, k: NodeId, seen: set<NodeId>, st: Gen): (r: Result<Gen>)
    requires WellFormed(g) && k < |g.nodes| && g.nodes[k].kind.Mul?
    ensures var node := g.nodes[k];
            var a := node.inputs[0];
            var b := node.inputs[1];
            r.Ok? <==>
              && a in st.regs.valueRegs && b in st.regs.valueRegs
              && CountSeen(g.uses[a], seen) <= |st.regs.freeValue|
    ensures r.Fail? ==> r.error == ValuePoolEmpty || r.error.UnboundValue?
    ensures r.Ok? ==>
              var node := g.nodes[k];
              var a := node.inputs[0];
              var b := node.inputs[1];
              var n := CountSeen(g.uses[a], seen);
              var fv := st.regs.freeValue;
              var vr := st.regs.valueRegs;
              var d := if n == 0 then vr[a] else fv[|fv| - n];
              && r.value.regs == st.regs.(freeValue := fv[..|fv| - n], valueRegs := vr[node.outputs[0] := d])
              && r.value.code == st.code + CopyCode(fv, n, vr[a]) + [Mulss(d, vr[b])]
  {
    var node := g.nodes[k];
    var a := node.inputs[0];
    var c :- GetValueReg(st.regs, a);
    var p :- CopyForSeenUses(g.uses[a], a, seen, c, st);
    var b :- GetValueReg(p.1.regs, node.inputs[1]);
    Ok(Gen(MapValue(p.1.regs, node.outputs[0], p.0), p.1.code + [Mulss(p.0, b)]))
  }

  /** The inputs, in slot order and with repetitions, whose use-lists name
      only visited nodes: the registers the free loop releases. */
  function DeadInputs(g: Graph, ins: seq<ValueId>, seen: set<NodeId>): seq<ValueId>
    requires InArena(g, ins)
  {
    if |ins| == 0 then []
    else (if AllUsersSeen(g.uses[ins[0]], seen) then [ins[0]] else []) + DeadInputs(g, ins[1..], seen)
  }

  /** The registers bound to `vs`, in order. */
  function RegsOf<R>(m: map<ValueId, R>, vs: seq<ValueId>): (rs: seq<R>)
    requires forall v <- vs :: v in m
    ensures |rs| == |vs| && forall i | 0 <= i < |vs| :: rs[i] == m[vs[i]]
  {
    seq(|vs|, i requires 0 <= i < |vs| => m[vs[i]])
  }

  lemma RegsOfCons<R>(m: map<ValueId, R>, vs: seq<ValueId>)
    requires |vs| > 0 && forall v <- vs :: v in m
    ensures RegsOf(m, vs) == [m[vs[0]]] + RegsOf(m, vs[1..])
  {
  }

  lemma RegsOfAppend<R>(m: map<ValueId, R>, xs: seq<ValueId>, ys: seq<ValueId>)
    requires forall v <- xs + ys :: v in m
    ensures RegsOf(m, xs + ys) == RegsOf(m, xs) + RegsOf(m, ys)
  {
  }

  /** One iteration of the free loop: release `v`'s value register when
      every use of `v` has been visited. */
  function FreeIfDead(g: Graph, v: ValueId, seen: set<NodeId>, st: Gen): (r: Result<Gen>)
    requires v < |g.uses|
    ensures var dead := if AllUsersSeen(g.uses[v], seen) then [v] else [];
            && (r.Ok? <==> forall u <- dead :: u in st.regs.valueRegs)
            && (r.Fail? ==> r.error == UnboundValue(v))
            && (r.Ok? ==> r.value == st.(regs := st.regs.(freeValue := st.regs.freeValue
                                                          + RegsOf(st.regs.valueRegs, dead))))
  {
    if AllUsersSeen(g.uses[v], seen) then
      var reg :- GetValueReg(st.regs, v);
      Ok(st.(regs := FreeValue(st.regs, reg)))
    else Ok(st)
  }

  /** The free loop at the end of `emitOperation`, over the node's input
      slots: a value read twice by the node is examined, and released,
      twice. */
  function FreeDeadInputs(g: Graph, ins: seq<ValueId>, seen: set<NodeId>, st: Gen): (r: Result<Gen>)
    requires InArena(g, ins)
    ensures r.Ok? <==> forall v <- DeadInputs(g, ins, seen) :: v in st.regs.valueRegs
    ensures r.Fail? ==> r.error.UnboundValue?
    ensures r.Ok? ==>
              && r.value.code == st.code
              && r.value.regs == st.regs.(freeValue := st.regs.freeValue
                                          + RegsOf(st.regs.valueRegs, DeadInputs(g, ins, seen)))
  {
    if |ins| == 0 then Ok(st)
    else
      var vr := st.regs.valueRegs;
      var head := if AllUsersSeen(g.uses[ins[0]], seen) then [ins[0]] else [];
      var tail := DeadInputs(g, ins[1..], seen);
      assert DeadInputs(g, ins, seen) == head + tail;
      assert forall v <- head + tail :: v in head || v in tail;
      var st1 :- FreeIfDead(g, ins[0], seen, st);
      var r := FreeDeadInputs(g, ins[1..], seen, st1);
      assert r.Ok? ==> r.value.regs == st.regs.(freeValue := st.regs.freeValue + RegsOf(vr, head + tail)) by {
        if r.Ok? {
          assert st1.regs == st.regs.(freeValue := st.regs.freeValue + RegsOf(vr, head));
          RegsOfAppend(vr, head, tail);
          AppendAssoc(st.regs.freeValue, RegsOf(vr, head), RegsOf(vr, tail));
        }
      }
      r
  }

  /** `emitOperation` for node `k`, given the visited set `seen`. A node
      of an unsupported kind emits nothing and binds nothing, but still
      runs the free loop. */
  function EmitOperation(g: Graph, k: NodeId, seen: set<NodeId>, st: Gen): (r: Result<Gen>)
    requires WellFormed(g) && k < |g.nodes|
    ensures r.Fail? ==> r.error == ValuePoolEmpty || r.error.UnboundValue?
    ensures r.Ok? ==>
              && r.value.regs.addrRegs == st.regs.addrRegs
              && r.value.regs.freeAddr == st.regs.freeAddr
              && ScalarExtension(st.code, r.value.code)
  {
    var node := g.nodes[k];
    var st1 :- match node.kind
               case Mul => EmitMul(g, k, seen, st)
               case Other(_) => Ok(st);
    FreeDeadInputs(g, node.inputs, seen, st1)
  }

  /** The node loop of `compile` from node `k` on: node `k` is inserted
      into the visited set before its code is emitted, so it is emitted
      with `seen == Through(k)`. */
  function EmitNodes(g: Graph, k: nat, st: Gen): (r: Result<Gen>)
    requires WellFormed(g) && k <= |g.nodes|
    ensures r.Fail? ==> r.error == ValuePoolEmpty || r.error.UnboundValue?
    ensures r.Ok? ==>
              && r.value.regs.addrRegs == st.regs.addrRegs
              && r.value.regs.freeAddr == st.regs.freeAddr
              && ScalarExtension(st.code, r.value.code)
    decreases |g.nodes| - k
  {
    if k == |g.nodes| then Ok(st)
    else
      var st1 :- EmitOperation(g, k, Through(k), st);
      var r := EmitNodes(g, k + 1, st1);
      assert r.Ok? ==> ScalarExtension(st.code, r.value.code) by {
        if r.Ok? {
          ScalarExtensionTrans(st.code, st1.code, r.value.code);
        }
      }
      r
  }
}
