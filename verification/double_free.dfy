/**
  A square whose operand dies at once, followed by two nodes that share
  operands: `c = a * a`, `d = c * b`, `e = b * c`, returning `d` and `e`.

  The free loop of `emitOperation` runs over the node's input slots, so
  `a * a` pushes `a`'s register onto the value pool twice. Node 1 takes
  one copy of it for `d`; node 2 takes the other for a copy of `b`, which
  overwrites `d` before the store. The routine stores `b` where `d`
  belongs.
 */
module DoubleFreeScenario {
  import opened Isa
  import opened Seqs
  import opened Ir
  import opened Results
  import opened Registers
  import opened Planner
  import opened Codegen
  import opened Dataflow
  import opened Walk
  import opened Ownership
  import CodegenFacts

  /** Values 0 and 1 are `a` and `b`; 2, 3 and 4 are `c`, `d` and `e`. */
  function DoubleFree(): Graph {
    Graph([Node(Mul, [0, 0], [2]), Node(Mul, [2, 1], [3]), Node(Mul, [1, 2], [4])],
          [0, 1], [3, 4],
          [[Op(0), Op(0)], [Op(1), Op(2)], [Op(1), Op(2)], [Return], [Return]])
  }

  predicate DoubleFreeShape(g: Graph) {
    && |g.uses| == 5 && |g.nodes| == 3 && g.inputs == [0, 1] && g.outputs == [3, 4]
    && g.uses[0] == [Op(0), Op(0)] && g.uses[1] == [Op(1), Op(2)] && g.uses[2] == [Op(1), Op(2)]
    && g.uses[3] == [Return] && g.uses[4] == [Return]
    && g.nodes[0].inputs == [0, 0] && g.nodes[1].inputs == [2, 1] && g.nodes[2].inputs == [1, 2]
    && g.nodes[0].outputs == [2] && g.nodes[1].outputs == [3] && g.nodes[2].outputs == [4]
  }

  lemma DoubleFreeWellFormed()
    ensures WellFormed(DoubleFree()) && DoubleFreeShape(DoubleFree())
  {
  }

  /** The graph is a legitimate input to the compiler: its use-lists
      agree with its nodes and its nodes are in topological order. */
  lemma DoubleFreeConsistent()
    ensures WellFormed(DoubleFree()) && UsesConsistent(DoubleFree()) && Topological(DoubleFree())
  {
    DoubleFreeWellFormed();
    ConsistentFromShape(DoubleFree());
  }

  lemma ConsistentFromShape(g: Graph)
    requires WellFormed(g) && DoubleFreeShape(g)
    ensures UsesConsistent(g) && Topological(g)
  {
    OpCounts(g);
    ReturnCounts(g);
    forall v, i | 0 <= v < |g.uses| && 0 <= i < |g.uses[v]| ensures g.uses[v][i].Op? ==> g.uses[v][i].node < |g.nodes| {
      UserBound(g, v, i);
    }
    TopologicalFromShape(g);
  }

  lemma UserBound(g: Graph, v: nat, i: nat)
    requires DoubleFreeShape(g) && v < |g.uses| && i < |g.uses[v]|
    ensures g.uses[v][i].Op? ==> g.uses[v][i].node < |g.nodes|
  {
  }

  lemma TopologicalFromShape(g: Graph)
    requires DoubleFreeShape(g)
    ensures Topological(g)
  {
  }

  lemma OpCounts(g: Graph)
    requires DoubleFreeShape(g)
    ensures forall v, k | 0 <= v < |g.uses| && 0 <= k < |g.nodes| ::
              multiset(g.uses[v])[Op(k)] == multiset(g.nodes[k].inputs)[v]
  {
    forall v, k | 0 <= v < |g.uses| && 0 <= k < |g.nodes|
      ensures multiset(g.uses[v])[Op(k)] == multiset(g.nodes[k].inputs)[v]
    {
      OpCount(g, v, k);
    }
  }

  /** How often node `k` reads value `v`. */
  function Reads(v: nat, k: nat): nat {
    if v == 0 then (if k == 0 then 2 else 0)
    else if v == 1 || v == 2 then (if k == 1 || k == 2 then 1 else 0)
    else 0
  }

  lemma OpCount(g: Graph, v: nat, k: nat)
    requires DoubleFreeShape(g) && v < 5 && k < 3
    ensures multiset(g.uses[v])[Op(k)] == multiset(g.nodes[k].inputs)[v]
  {
    UsesCount(g, v, k);
    InputsCount(g, v, k);
  }

  lemma UsesCount(g: Graph, v: nat, k: nat)
    requires DoubleFreeShape(g) && v < 5 && k < 3
    ensures multiset(g.uses[v])[Op(k)] == Reads(v, k)
  {
  }

  lemma InputsCount(g: Graph, v: nat, k: nat)
    requires DoubleFreeShape(g) && v < 5 && k < 3
    ensures multiset(g.nodes[k].inputs)[v] == Reads(v, k)
  {
  }

  lemma ReturnCounts(g: Graph)
    requires DoubleFreeShape(g)
    ensures forall v | 0 <= v < |g.uses| :: multiset(g.uses[v])[Return] == multiset(g.outputs)[v]
  {
    forall v | 0 <= v < |g.uses| ensures multiset(g.uses[v])[Return] == multiset(g.outputs)[v] {
      ReturnCell(g, v);
    }
  }

  lemma ReturnCell(g: Graph, v: nat)
    requires DoubleFreeShape(g) && v < 5
    ensures multiset(g.uses[v])[Return] == multiset(g.outputs)[v]
  {
    CountOf(g.outputs, v);
    CountOf(g.uses[v], Return);
  }

  // ---------------------------------------------------------------------
  // The planning run
  // ---------------------------------------------------------------------

  const FreeAddr: map<ValueId, AddrReg> := map[0 := R11, 1 := R10, 3 := R9, 4 := R8]

  /** The pointer-load loops pop R11 and R10 for the inputs and R9 and R8
      for the outputs. */
  lemma DoubleFreeBuffers(ptr: PointerReg)
    ensures LoadBuffers(DoubleFree(), ptr) == Ok(FreeStart(ptr))
  {
    var g := DoubleFree();
    assert g.inputs == [0, 1] && g.outputs == [3, 4];
    var s0 := Gen(Init(), []);
    assert s0 == Gen(Manager(map[], map[], AddrPool, ValuePool), []);
    var s1 := Gen(Manager(map[0 := R11], map[], [Rsi, Rdx, R8, R9, R10], ValuePool), [LoadPointer(R11, ptr, 0)]);
    var s2 := Gen(Manager(map[0 := R11, 1 := R10], map[], [Rsi, Rdx, R8, R9], ValuePool),
                  [LoadPointer(R11, ptr, 0), LoadPointer(R10, ptr, 8)]);
    var s3 := Gen(Manager(map[0 := R11, 1 := R10, 3 := R9], map[], [Rsi, Rdx, R8], ValuePool),
                  [LoadPointer(R11, ptr, 0), LoadPointer(R10, ptr, 8), LoadPointer(R9, ptr, 16)]);
    var s4 := Gen(Manager(FreeAddr, map[], [Rsi, Rdx], ValuePool),
                  [LoadPointer(R11, ptr, 0), LoadPointer(R10, ptr, 8), LoadPointer(R9, ptr, 16), LoadPointer(R8, ptr, 24)]);
    PointerStep([0, 1], 0, ptr, s0, [Rsi, Rdx, R8, R9, R10], R11, s1);
    PointerStep([1], 1, ptr, s1, [Rsi, Rdx, R8, R9], R10, s2);
    PointerStep([3, 4], 2, ptr, s2, [Rsi, Rdx, R8], R9, s3);
    assert [3, 4][1..] == [4];
    PointerStep([4], 3, ptr, s3, [Rsi, Rdx], R8, s4);
  }

  const Free1: Manager := Manager(FreeAddr, map[0 := Xmm7, 1 := Xmm6], [Rsi], [Xmm0, Xmm1, Xmm2, Xmm3, Xmm4, Xmm5])

  /** The loop head: Rdx becomes the counter, and the inputs are loaded
      into Xmm7 and Xmm6. */
  lemma DoubleFreeHead(c: seq<Instr>)
    ensures LoadElements([0, 1], Rdx, Gen(Manager(FreeAddr, map[], [Rsi], ValuePool), c))
            == Ok(Gen(Free1, c + [LoadElement(Xmm7, R11, Rdx, ElementShift), LoadElement(Xmm6, R10, Rdx, ElementShift)]))
  {
    var s0 := Gen(Manager(FreeAddr, map[], [Rsi], ValuePool), c);
    var s1 := Gen(Manager(FreeAddr, map[0 := Xmm7], [Rsi], [Xmm0, Xmm1, Xmm2, Xmm3, Xmm4, Xmm5, Xmm6]),
                  c + [LoadElement(Xmm7, R11, Rdx, ElementShift)]);
    var s2 := Gen(Free1, c + [LoadElement(Xmm7, R11, Rdx, ElementShift), LoadElement(Xmm6, R10, Rdx, ElementShift)]);
    ElementStep([0, 1], Rdx, s0, [Xmm0, Xmm1, Xmm2, Xmm3, Xmm4, Xmm5, Xmm6], Xmm7, s1);
    assert [0, 1][1..] == [1];
    ElementStep([1], Rdx, s1, [Xmm0, Xmm1, Xmm2, Xmm3, Xmm4, Xmm5], Xmm6, s2);
    assert [1][1..] == [];
  }

  /** After `a * a`, Xmm7 sits in the value pool twice. */
  const Free2: Manager := Manager(FreeAddr, map[0 := Xmm7, 1 := Xmm6, 2 := Xmm4], [Rsi],
                                  [Xmm0, Xmm1, Xmm2, Xmm3, Xmm7, Xmm7])
  /** After `d = c * b`, `d` is bound to Xmm7, which is still in the pool. */
  const Free3: Manager := Manager(FreeAddr, map[0 := Xmm7, 1 := Xmm6, 2 := Xmm4, 3 := Xmm7], [Rsi],
                                  [Xmm0, Xmm1, Xmm2, Xmm3, Xmm7])
  const Free4: Manager := Manager(FreeAddr, map[0 := Xmm7, 1 := Xmm6, 2 := Xmm4, 3 := Xmm7, 4 := Xmm3], [Rsi],
                                  [Xmm0, Xmm1, Xmm2, Xmm6, Xmm4])

  /** `c = a * a`: both uses of `a` are by node 0 and visited, so two
      copies, into Xmm5 and Xmm4; then `a` is found dead in both input
      slots and Xmm7 is pushed twice. */
  lemma DoubleFreeNode0(c: seq<Instr>)
    requires WellFormed(DoubleFree())
    ensures EmitOperation(DoubleFree(), 0, Through(0), Gen(Free1, c))
         == Ok(Gen(Free2, c + [Movaps(Xmm5, Xmm7), Movaps(Xmm4, Xmm7), Mulss(Xmm4, Xmm7)]))
  {
    FreeNode0Uses();
    FreeNode0Regs();
    MulStep(DoubleFree(), 0, Through(0), Gen(Free1, c), 2, [0, 0],
            Gen(Free2, c + [Movaps(Xmm5, Xmm7), Movaps(Xmm4, Xmm7), Mulss(Xmm4, Xmm7)]));
  }

  lemma FreeNode0Uses()
    ensures var g := DoubleFree();
            && g.nodes[0] == Node(Mul, [0, 0], [2])
            && CountSeen(g.uses[0], Through(0)) == 2 && DeadInputs(g, [0, 0], Through(0)) == [0, 0]
  {
  }

  lemma FreeNode0Regs()
    ensures var fv := Free1.freeValue;
            var vr := Free1.valueRegs[2 := fv[|fv| - 2]];
            && (forall v <- [0, 0] :: v in vr)
            && Free2 == Free1.(freeValue := fv[..|fv| - 2] + RegsOf(vr, [0, 0]), valueRegs := vr)
            && CopyCode(fv, 2, Free1.valueRegs[0]) == [Movaps(Xmm5, Xmm7), Movaps(Xmm4, Xmm7)]
  {
  }

  /** `d = c * b`: node 1's use of `c` is visited, so one copy of `c`,
      into the Xmm7 popped from the top of the pool; neither `c` nor `b`
      is dead yet. */
  lemma DoubleFreeNode1(c: seq<Instr>)
    requires WellFormed(DoubleFree())
    ensures EmitOperation(DoubleFree(), 1, Through(1), Gen(Free2, c))
         == Ok(Gen(Free3, c + [Movaps(Xmm7, Xmm4), Mulss(Xmm7, Xmm6)]))
  {
    FreeNode1Uses();
    FreeNode1Regs();
    MulStep(DoubleFree(), 1, Through(1), Gen(Free2, c), 1, [], Gen(Free3, c + [Movaps(Xmm7, Xmm4), Mulss(Xmm7, Xmm6)]));
  }

  lemma FreeNode1Uses()
    ensures var g := DoubleFree();
            && g.nodes[1] == Node(Mul, [2, 1], [3])
            && CountSeen(g.uses[2], Through(1)) == 1 && DeadInputs(g, [2, 1], Through(1)) == []
  {
  }

  lemma FreeNode1Regs()
    ensures var fv := Free2.freeValue;
            var vr := Free2.valueRegs[3 := fv[|fv| - 1]];
            && Free3 == Free2.(freeValue := fv[..|fv| - 1] + RegsOf(vr, []), valueRegs := vr)
            && CopyCode(fv, 1, Free2.valueRegs[2]) == [Movaps(Xmm7, Xmm4)]
            && Free2.valueRegs[1] == Xmm6
  {
  }

  /** `e = b * c`: both uses of `b` are visited, so two copies of `b`:
      the first into Xmm7, which still holds `d`, the second into Xmm3,
      the destination. Then `b` and `c` are dead. */
  lemma DoubleFreeNode2(c: seq<Instr>)
    requires WellFormed(DoubleFree())
    ensures EmitOperation(DoubleFree(), 2, Through(2), Gen(Free3, c))
         == Ok(Gen(Free4, c + [Movaps(Xmm7, Xmm6), Movaps(Xmm3, Xmm6), Mulss(Xmm3, Xmm4)]))
  {
    FreeNode2Uses();
    FreeNode2Regs();
    MulStep(DoubleFree(), 2, Through(2), Gen(Free3, c), 2, [1, 2],
            Gen(Free4, c + [Movaps(Xmm7, Xmm6), Movaps(Xmm3, Xmm6), Mulss(Xmm3, Xmm4)]));
  }

  lemma FreeNode2Uses()
    ensures var g := DoubleFree();
            && g.nodes[2] == Node(Mul, [1, 2], [4])
            && CountSeen(g.uses[1], Through(2)) == 2 && DeadInputs(g, [1, 2], Through(2)) == [1, 2]
  {
  }

  lemma FreeNode2Regs()
    ensures var fv := Free3.freeValue;
            var vr := Free3.valueRegs[4 := fv[|fv| - 2]];
            && (forall v <- [1, 2] :: v in vr)
            && Free4 == Free3.(freeValue := fv[..|fv| - 2] + RegsOf(vr, [1, 2]), valueRegs := vr)
            && CopyCode(fv, 2, Free3.valueRegs[1]) == [Movaps(Xmm7, Xmm6), Movaps(Xmm3, Xmm6)]
            && Free3.valueRegs[2] == Xmm4
  {
  }

  /** `a * a` reads `a` twice, and the register ownership that holds for
      graphs whose nodes read no value twice breaks: the registers are
      owned before node 0, but after it Xmm7 sits in the pool twice; after
      node 1 the live `d` holds Xmm7 while Xmm7 is still free; and node 2
      pops the top two pool registers for its copies of `b`, the first of
      them `d`'s. */
  lemma DoubleFreeBreaksOwnership()
    ensures var g := DoubleFree();
            && !DistinctOperands(g)
            && Owns(g, Before(0), Free1)
            && !Owns(g, Through(0), Free2)
            && Live(g, Through(1), 3) && 3 in Free3.valueRegs && Free3.valueRegs[3] in Free3.freeValue
            && !Owns(g, Through(1), Free3)
            && CountSeen(g.uses[1], Through(2)) == 2
            && Free3.valueRegs[3] in Free3.freeValue[|Free3.freeValue| - 2..]
  {
    var g := DoubleFree();
    DoubleFreeWellFormed();
    assert g.nodes[0].inputs[0] == g.nodes[0].inputs[1];
    StartOwned(g, Before(0));
    PoolTwice(g, Through(0));
    DLiveButFree(g);
    FreeNode2Uses();
  }

  /** Before node 0 the inputs hold Xmm7 and Xmm6, neither of them free. */
  lemma StartOwned(g: Graph, seen: set<NodeId>)
    ensures Owns(g, seen, Free1)
  {
    assert Free1.valueRegs.Keys == {0, 1};
  }

  lemma PoolTwice(g: Graph, seen: set<NodeId>)
    ensures !Owns(g, seen, Free2)
  {
    assert Free2.freeValue[4] == Free2.freeValue[5];
  }

  lemma DLiveButFree(g: Graph)
    requires DoubleFreeShape(g)
    ensures Live(g, Through(1), 3) && 3 in Free3.valueRegs && Free3.valueRegs[3] in Free3.freeValue
    ensures !Owns(g, Through(1), Free3)
    ensures Free3.valueRegs[3] in Free3.freeValue[|Free3.freeValue| - 2..]
  {
    assert !SeenUser(g.uses[3][0], Through(1));
    assert Free3.freeValue[4] == Xmm7;
    assert Free3.freeValue[|Free3.freeValue| - 2..][1] == Xmm7;
  }

  /** The node code: two copies and a product for node 0, one copy and a
      product for node 1, two copies and a product for node 2. */
  const FreeOps: seq<Instr> :=
    [ Movaps(Xmm5, Xmm7), Movaps(Xmm4, Xmm7), Mulss(Xmm4, Xmm7),
      Movaps(Xmm7, Xmm4), Mulss(Xmm7, Xmm6),
      Movaps(Xmm7, Xmm6), Movaps(Xmm3, Xmm6), Mulss(Xmm3, Xmm4) ]

  lemma DoubleFreeNodes(c: seq<Instr>)
    requires WellFormed(DoubleFree())
    ensures EmitNodes(DoubleFree(), 0, Gen(Free1, c)) == Ok(Gen(Free4, c + FreeOps))
  {
    var g := DoubleFree();
    var x := [Movaps(Xmm5, Xmm7), Movaps(Xmm4, Xmm7), Mulss(Xmm4, Xmm7)];
    var y := [Movaps(Xmm7, Xmm4), Mulss(Xmm7, Xmm6)];
    var z := [Movaps(Xmm7, Xmm6), Movaps(Xmm3, Xmm6), Mulss(Xmm3, Xmm4)];
    assert |g.nodes| == 3;
    DoubleFreeNode0(c);
    NodesStep(g, 0, Gen(Free1, c), Gen(Free2, c + x));
    DoubleFreeNode1(c + x);
    NodesStep(g, 1, Gen(Free2, c + x), Gen(Free3, c + x + y));
    DoubleFreeNode2(c + x + y);
    NodesStep(g, 2, Gen(Free3, c + x + y), Gen(Free4, c + x + y + z));
    Assoc3(c, x, y, z);
    FreeOpsParts();
  }

  lemma FreeOpsParts()
    ensures [Movaps(Xmm5, Xmm7), Movaps(Xmm4, Xmm7), Mulss(Xmm4, Xmm7)]
            + [Movaps(Xmm7, Xmm4), Mulss(Xmm7, Xmm6)]
            + [Movaps(Xmm7, Xmm6), Movaps(Xmm3, Xmm6), Mulss(Xmm3, Xmm4)]
            == FreeOps
  {
  }

  /** The stores of `d` from Xmm7 and of `e` from Xmm3. */
  lemma DoubleFreeStores(c: seq<Instr>)
    ensures StoreOutputs([3, 4], Rdx, Gen(Free4, c))
         == Ok(Gen(Free4, c + [StoreElement(R9, Rdx, ElementShift, Xmm7), StoreElement(R8, Rdx, ElementShift, Xmm3)]))
  {
    CodegenFacts.StoreOutputsStep([3, 4], Rdx, Gen(Free4, c));
    assert [3, 4][1..] == [4];
    CodegenFacts.StoreOutputsStep([4], Rdx, Gen(Free4, c + [StoreElement(R9, Rdx, ElementShift, Xmm7)]));
    assert [4][1..] == [];
    assert c + [StoreElement(R9, Rdx, ElementShift, Xmm7)] + [StoreElement(R8, Rdx, ElementShift, Xmm3)]
        == c + [StoreElement(R9, Rdx, ElementShift, Xmm7), StoreElement(R8, Rdx, ElementShift, Xmm3)];
  }

  /** The loop body: two element loads, the node code and two stores. */
  const FreeBody: seq<Instr> :=
    [ LoadElement(Xmm7, R11, Rdx, ElementShift), LoadElement(Xmm6, R10, Rdx, ElementShift) ]
    + FreeOps
    + [ StoreElement(R9, Rdx, ElementShift, Xmm7), StoreElement(R8, Rdx, ElementShift, Xmm3) ]

  function DoubleFreeCode(size: nat, ptr: PointerReg): seq<Instr> {
    [ LoadPointer(R11, ptr, 0), LoadPointer(R10, ptr, 8), LoadPointer(R9, ptr, 16), LoadPointer(R8, ptr, 24),
      SetImm(Rdx, 0), Bind(LoopLabel) ]
    + FreeBody + LoopTail(Rdx, size)
  }

  lemma FreeCodeParts(size: nat, ptr: PointerReg)
    ensures [LoadPointer(R11, ptr, 0), LoadPointer(R10, ptr, 8), LoadPointer(R9, ptr, 16), LoadPointer(R8, ptr, 24)]
            + [SetImm(Rdx, 0), Bind(LoopLabel)]
            + [LoadElement(Xmm7, R11, Rdx, ElementShift), LoadElement(Xmm6, R10, Rdx, ElementShift)]
            + FreeOps + [StoreElement(R9, Rdx, ElementShift, Xmm7), StoreElement(R8, Rdx, ElementShift, Xmm3)]
            + LoopTail(Rdx, size)
            == DoubleFreeCode(size, ptr)
  {
  }

  /** Planning succeeds, well within the register pools, and produces
      the routine above. */
  lemma DoubleFreePlans(size: nat, ptr: PointerReg)
    ensures WellFormed(DoubleFree()) && Plan(DoubleFree(), size, ptr) == Ok(DoubleFreeCode(size, ptr))
  {
    DoubleFreeBuffers(ptr);
    DoubleFreeLoop(size, ptr);
    PlanByParts(DoubleFree(), size, ptr, FreeStart(ptr), Ok(DoubleFreeCode(size, ptr)));
  }

  /** The state after the pointer loads. */
  function FreeStart(ptr: PointerReg): Gen {
    Gen(Manager(FreeAddr, map[], [Rsi, Rdx], ValuePool),
        [LoadPointer(R11, ptr, 0), LoadPointer(R10, ptr, 8), LoadPointer(R9, ptr, 16), LoadPointer(R8, ptr, 24)])
  }

  /** The loop, from the state the pointer loads leave. */
  lemma DoubleFreeLoop(size: nat, ptr: PointerReg)
    ensures WellFormed(DoubleFree()) && EmitLoop(DoubleFree(), size, FreeStart(ptr)) == Ok(DoubleFreeCode(size, ptr))
  {
    DoubleFreeWellFormed();
    var g := DoubleFree();
    assert g.inputs == [0, 1] && g.outputs == [3, 4];
    var loads := [LoadPointer(R11, ptr, 0), LoadPointer(R10, ptr, 8), LoadPointer(R9, ptr, 16), LoadPointer(R8, ptr, 24)];
    var s0 := FreeStart(ptr);
    var m := Manager(FreeAddr, map[], [Rsi], ValuePool);
    assert [Rsi, Rdx][..1] == [Rsi];
    var hdr := loads + [SetImm(Rdx, 0), Bind(LoopLabel)];
    var el := [LoadElement(Xmm7, R11, Rdx, ElementShift), LoadElement(Xmm6, R10, Rdx, ElementShift)];
    var st := [StoreElement(R9, Rdx, ElementShift, Xmm7), StoreElement(R8, Rdx, ElementShift, Xmm3)];
    DoubleFreeHead(hdr);
    DoubleFreeNodes(hdr + el);
    DoubleFreeStores(hdr + el + FreeOps);
    LoopByPhases(g, size, s0, Rdx, m, Gen(Free1, hdr + el), Gen(Free4, hdr + el + FreeOps),
                 Gen(Free4, hdr + el + FreeOps + st));
    FreeCodeParts(size, ptr);
  }

  // ---------------------------------------------------------------------
  // What the body stores
  // ---------------------------------------------------------------------

  /** The buffers the pointer loads set up: R11 and R10 point at `a` and
      `b`, R9 at `d`'s output buffer and R8 at `e`'s. */
  const FreeBufs: map<AddrReg, nat> := map[R11 := 0, R10 := 1, R9 := 2, R8 := 3]

  /** The body is wrong: it stores `b` into `d`'s buffer, where the graph
      returns `(a * a) * b`; `e` comes out right. */
  lemma DoubleFreeMiscomputes()
    ensures var g := DoubleFree();
            var r := BodyFlow(FreeBody, FreeBufs, Flow(map[], map[]));
            && r.Finished?
            && 2 in r.flow.stored && r.flow.stored[2] == Elem(1)
            && Meaning(g, 3, 3) == Times(Times(Elem(0), Elem(0)), Elem(1))
            && 3 in r.flow.stored && r.flow.stored[3] == Meaning(g, 4, 3)
            && !Computes(g, FreeBody, FreeBufs)
  {
    var g := DoubleFree();
    DoubleFreeBodyFlow();
    DoubleFreeMeaning();
    assert g.outputs[0] == 3 && |g.inputs| == 2 && |g.nodes| == 3;
  }

  lemma DoubleFreeMeaning()
    ensures Meaning(DoubleFree(), 3, 3) == Times(Times(Elem(0), Elem(0)), Elem(1))
    ensures Meaning(DoubleFree(), 4, 3) == Times(Elem(1), Times(Elem(0), Elem(0)))
  {
  }

  /** The body finishes with `b` in `d`'s buffer and `b * (a * a)` in
      `e`'s. */
  lemma DoubleFreeBodyFlow()
    ensures var r := BodyFlow(FreeBody, FreeBufs, Flow(map[], map[]));
            r.Finished? && r.flow.stored == map[2 := Elem(1), 3 := Times(Elem(1), Times(Elem(0), Elem(0)))]
  {
    var m := FreeBufs;
    var aa := Times(Elem(0), Elem(0));
    var loads := [LoadElement(Xmm7, R11, Rdx, ElementShift), LoadElement(Xmm6, R10, Rdx, ElementShift)];
    var ops0 := [Movaps(Xmm5, Xmm7), Movaps(Xmm4, Xmm7), Mulss(Xmm4, Xmm7)];
    var ops1 := [Movaps(Xmm7, Xmm4), Mulss(Xmm7, Xmm6)];
    var ops2 := [Movaps(Xmm7, Xmm6), Movaps(Xmm3, Xmm6), Mulss(Xmm3, Xmm4)];
    var store1 := [StoreElement(R9, Rdx, ElementShift, Xmm7)];
    var store2 := [StoreElement(R8, Rdx, ElementShift, Xmm3)];
    var f0 := Flow(map[], map[]);
    var f1 := Flow(map[Xmm7 := Elem(0), Xmm6 := Elem(1)], map[]);
    var f2 := Flow(f1.xmm[Xmm5 := Elem(0)][Xmm4 := aa], map[]);
    var f3 := Flow(f2.xmm[Xmm7 := Times(aa, Elem(1))], map[]);
    var f4 := Flow(f3.xmm[Xmm7 := Elem(1)][Xmm3 := Times(Elem(1), aa)], map[]);
    FreeLoadsFlow();
    FreeNode0Flow(f1.xmm);
    FreeNode1Flow(f2.xmm, aa);
    FreeNode2Flow(f3.xmm, aa);
    assert R9 in m && m[R9] == 2 && R8 in m && m[R8] == 3;
    StoreFlow(R9, Rdx, ElementShift, Xmm7, m, f4);
    var f5 := f4.(stored := f4.stored[2 := f4.xmm[Xmm7]]);
    StoreFlow(R8, Rdx, ElementShift, Xmm3, m, f5);
    var f6 := f5.(stored := f5.stored[3 := f5.xmm[Xmm3]]);
    FlowThen(loads, ops0, m, f0, f1, f2);
    FlowThen(loads + ops0, ops1, m, f0, f2, f3);
    FlowThen(loads + ops0 + ops1, ops2, m, f0, f3, f4);
    FlowThen(loads + ops0 + ops1 + ops2, store1, m, f0, f4, f5);
    FlowThen(loads + ops0 + ops1 + ops2 + store1, store2, m, f0, f5, f6);
    FreeBodyParts();
  }

  lemma FreeBodyParts()
    ensures [LoadElement(Xmm7, R11, Rdx, ElementShift), LoadElement(Xmm6, R10, Rdx, ElementShift)]
            + [Movaps(Xmm5, Xmm7), Movaps(Xmm4, Xmm7), Mulss(Xmm4, Xmm7)]
            + [Movaps(Xmm7, Xmm4), Mulss(Xmm7, Xmm6)]
            + [Movaps(Xmm7, Xmm6), Movaps(Xmm3, Xmm6), Mulss(Xmm3, Xmm4)]
            + [StoreElement(R9, Rdx, ElementShift, Xmm7)]
            + [StoreElement(R8, Rdx, ElementShift, Xmm3)]
            == FreeBody
  {
  }

  lemma FreeLoadsFlow()
    ensures BodyFlow([LoadElement(Xmm7, R11, Rdx, ElementShift), LoadElement(Xmm6, R10, Rdx, ElementShift)],
                     FreeBufs, Flow(map[], map[]))
         == Finished(Flow(map[Xmm7 := Elem(0), Xmm6 := Elem(1)], map[]))
  {
    var b := [LoadElement(Xmm7, R11, Rdx, ElementShift), LoadElement(Xmm6, R10, Rdx, ElementShift)];
    assert b[1..] == [b[1]] && b[1..][1..] == [];
    assert FreeBufs[R11] == 0 && FreeBufs[R10] == 1;
    var x1 := map[Xmm7 := Elem(0)];
    assert BodyFlow(b, FreeBufs, Flow(map[], map[])) == BodyFlow(b[1..], FreeBufs, Flow(x1, map[]));
  }

  lemma FreeNode0Flow(x: map<ValueReg, Term>)
    requires x == map[Xmm7 := Elem(0), Xmm6 := Elem(1)]
    ensures BodyFlow([Movaps(Xmm5, Xmm7), Movaps(Xmm4, Xmm7), Mulss(Xmm4, Xmm7)], FreeBufs, Flow(x, map[]))
         == Finished(Flow(x[Xmm5 := Elem(0)][Xmm4 := Times(Elem(0), Elem(0))], map[]))
  {
  }

  lemma FreeNode1Flow(x: map<ValueReg, Term>, aa: Term)
    requires Xmm4 in x && Xmm6 in x && x[Xmm4] == aa && x[Xmm6] == Elem(1)
    ensures BodyFlow([Movaps(Xmm7, Xmm4), Mulss(Xmm7, Xmm6)], FreeBufs, Flow(x, map[]))
         == Finished(Flow(x[Xmm7 := Times(aa, Elem(1))], map[]))
  {
  }

  /** Node 2's first copy lands in Xmm7, the register of `d`. */
  lemma FreeNode2Flow(x: map<ValueReg, Term>, aa: Term)
    requires Xmm4 in x && Xmm6 in x && x[Xmm4] == aa && x[Xmm6] == Elem(1)
    ensures BodyFlow([Movaps(Xmm7, Xmm6), Movaps(Xmm3, Xmm6), Mulss(Xmm3, Xmm4)], FreeBufs, Flow(x, map[]))
         == Finished(Flow(x[Xmm7 := Elem(1)][Xmm3 := Times(Elem(1), aa)], map[]))
  {
  }
}
