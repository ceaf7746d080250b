/**
  The graph of the bundled benchmark script (`c = a * b`, then `c * c`,
  then `c * (c * c)`), followed through the planner instruction by
  instruction, and the value its loop body stores.
 */
module BenchmarkScenario {
  import opened Isa
  import opened Seqs
  import opened Ir
  import opened Results
  import opened Registers
  import opened Planner
  import opened Codegen
  import opened Dataflow
  import opened Walk
  import CodegenFacts

  // ---------------------------------------------------------------------
  // The benchmark graph: c = a * b; a2 = c * c; a3 = c * a2; return a3
  // ---------------------------------------------------------------------

  /** Values 0 and 1 are the inputs `a` and `b`; 2, 3 and 4 are `c`, the
      second `a` and the third `a`. `c` is read three times: twice by
      node 1 and once by node 2. */
  function Benchmark(): Graph {
    Graph([Node(Mul, [0, 1], [2]), Node(Mul, [2, 2], [3]), Node(Mul, [2, 3], [4])],
          [0, 1], [4],
          [[Op(0)], [Op(0)], [Op(1), Op(1), Op(2)], [Op(2)], [Return]])
  }

  /** The routine for the benchmark graph: three pointer loads, the loop
      head, the body and the loop tail. */
  function BenchmarkCode(size: nat, ptr: PointerReg): seq<Instr> {
    [ LoadPointer(R11, ptr, 0), LoadPointer(R10, ptr, 8), LoadPointer(R9, ptr, 16),
      SetImm(R8, 0), Bind(LoopLabel) ]
    + BenchmarkBody + LoopTail(R8, size)
  }

  /** The loop body: two element loads, one copy for node 0, two for
      node 1, three for node 2, and the store. */
  const BenchmarkBody: seq<Instr> :=
    [ LoadElement(Xmm7, R11, R8, ElementShift), LoadElement(Xmm6, R10, R8, ElementShift) ]
    + BenchmarkOps + [ StoreElement(R9, R8, ElementShift, Xmm2) ]

  /** The benchmark graph's use-lists agree with its nodes, and its nodes
      are in topological order. */
  lemma BenchmarkConsistent()
    ensures WellFormed(Benchmark()) && UsesConsistent(Benchmark()) && Topological(Benchmark())
  {
    BenchmarkWellFormed();
    BenchmarkLists();
    ConsistentFromLists(Benchmark());
  }

  /** The use-lists, outputs and operands of the benchmark graph. */
  lemma BenchmarkLists()
    ensures BenchmarkShape(Benchmark())
  {
  }

  /** A graph laid out like the benchmark: two inputs, three
      multiplications and one output. */
  predicate BenchmarkShape(g: Graph) {
    && |g.uses| == 5 && |g.nodes| == 3 && g.inputs == [0, 1] && g.outputs == [4]
    && g.uses[0] == [Op(0)] && g.uses[1] == [Op(0)] && g.uses[2] == [Op(1), Op(1), Op(2)]
    && g.uses[3] == [Op(2)] && g.uses[4] == [Return]
    && g.nodes[0].inputs == [0, 1] && g.nodes[1].inputs == [2, 2] && g.nodes[2].inputs == [2, 3]
    && g.nodes[0].outputs == [2] && g.nodes[1].outputs == [3] && g.nodes[2].outputs == [4]
  }

  /** Any graph of the benchmark's shape has consistent use-lists and
      topologically ordered nodes. */
  lemma ConsistentFromLists(g: Graph)
    requires WellFormed(g) && BenchmarkShape(g)
    ensures UsesConsistent(g) && Topological(g)
  {
    CountsFromLists(g);
    ReturnsFromLists(g);
    forall v, i | 0 <= v < |g.uses| && 0 <= i < |g.uses[v]| ensures g.uses[v][i].Op? ==> g.uses[v][i].node < |g.nodes| {
      UserBound(g, v, i);
    }
    TopologicalFromLists(g);
  }

  /** A graph of the benchmark's shape reads only its inputs and values
      defined by earlier nodes. */
  lemma TopologicalFromLists(g: Graph)
    requires BenchmarkShape(g)
    ensures Topological(g)
  {
  }

  /** A user in a use-list of the benchmark's shape is a node of the
      graph or the return node. */
  lemma UserBound(g: Graph, v: nat, i: nat)
    requires BenchmarkShape(g) && v < |g.uses| && i < |g.uses[v]|
    ensures g.uses[v][i].Op? ==> g.uses[v][i].node < |g.nodes|
  {
  }

  /** The use counts of a graph whose use-lists and operands have the
      benchmark's shape. */
  lemma CountsFromLists(g: Graph)
    requires |g.uses| == 5 && |g.nodes| == 3
    requires g.uses[0] == [Op(0)] && g.uses[1] == [Op(0)] && g.uses[2] == [Op(1), Op(1), Op(2)]
    requires g.uses[3] == [Op(2)] && g.uses[4] == [Return] && g.outputs == [4]
    requires g.nodes[0].inputs == [0, 1] && g.nodes[1].inputs == [2, 2] && g.nodes[2].inputs == [2, 3]
    ensures forall v, k | 0 <= v < |g.uses| && 0 <= k < |g.nodes| ::
              multiset(g.uses[v])[Op(k)] == multiset(g.nodes[k].inputs)[v]
  {
    forall v, k | 0 <= v < |g.uses| && 0 <= k < |g.nodes|
      ensures multiset(g.uses[v])[Op(k)] == multiset(g.nodes[k].inputs)[v]
    {
      CountCell(g, v, k);
    }
  }

  /** How often node `k` reads value `v`. */
  function Reads(v: nat, k: nat): nat {
    if v == 0 || v == 1 then (if k == 0 then 1 else 0)
    else if v == 2 then (if k == 1 then 2 else if k == 2 then 1 else 0)
    else if v == 3 then (if k == 2 then 1 else 0)
    else 0
  }

  lemma CountCell(g: Graph, v: nat, k: nat)
    requires |g.uses| == 5 && |g.nodes| == 3 && v < 5 && k < 3
    requires g.uses[0] == [Op(0)] && g.uses[1] == [Op(0)] && g.uses[2] == [Op(1), Op(1), Op(2)]
    requires g.uses[3] == [Op(2)] && g.uses[4] == [Return]
    requires g.nodes[0].inputs == [0, 1] && g.nodes[1].inputs == [2, 2] && g.nodes[2].inputs == [2, 3]
    ensures multiset(g.uses[v])[Op(k)] == multiset(g.nodes[k].inputs)[v]
  {
    UsesCount(g, v, k);
    InputsCount(g, v, k);
  }

  lemma UsesCount(g: Graph, v: nat, k: nat)
    requires |g.uses| == 5 && |g.nodes| == 3 && v < 5 && k < 3
    requires g.uses[0] == [Op(0)] && g.uses[1] == [Op(0)] && g.uses[2] == [Op(1), Op(1), Op(2)]
    requires g.uses[3] == [Op(2)] && g.uses[4] == [Return]
    requires g.nodes[0].inputs == [0, 1] && g.nodes[1].inputs == [2, 2] && g.nodes[2].inputs == [2, 3]
    ensures multiset(g.uses[v])[Op(k)] == Reads(v, k)
  {
  }

  lemma InputsCount(g: Graph, v: nat, k: nat)
    requires |g.uses| == 5 && |g.nodes| == 3 && v < 5 && k < 3
    requires g.uses[0] == [Op(0)] && g.uses[1] == [Op(0)] && g.uses[2] == [Op(1), Op(1), Op(2)]
    requires g.uses[3] == [Op(2)] && g.uses[4] == [Return]
    requires g.nodes[0].inputs == [0, 1] && g.nodes[1].inputs == [2, 2] && g.nodes[2].inputs == [2, 3]
    ensures multiset(g.nodes[k].inputs)[v] == Reads(v, k)
  {
  }

  /** The return-node counts of a graph whose use-lists and outputs have
      the benchmark's shape. */
  lemma ReturnsFromLists(g: Graph)
    requires |g.uses| == 5
    requires g.uses[0] == [Op(0)] && g.uses[1] == [Op(0)] && g.uses[2] == [Op(1), Op(1), Op(2)]
    requires g.uses[3] == [Op(2)] && g.uses[4] == [Return] && g.outputs == [4]
    ensures forall v | 0 <= v < |g.uses| :: multiset(g.uses[v])[Return] == multiset(g.outputs)[v]
  {
  }

  lemma ReturnCell(g: Graph, v: nat)
    requires |g.uses| == 5 && v < 5
    requires g.uses[0] == [Op(0)] && g.uses[1] == [Op(0)] && g.uses[2] == [Op(1), Op(1), Op(2)]
    requires g.uses[3] == [Op(2)] && g.uses[4] == [Return] && g.outputs == [4]
    ensures multiset(g.uses[v])[Return] == multiset(g.outputs)[v]
  {
  }

  const BenchAddr: map<ValueId, AddrReg> := map[0 := R11, 1 := R10, 4 := R9]

  /** The two pointer-load loops pop R11 and R10 for the inputs and R9
      for the output. */
  lemma BenchmarkBuffers(ptr: PointerReg)
    ensures LoadBuffers(Benchmark(), ptr) == Ok(BenchStart(ptr))
  {
    var g := Benchmark();
    assert g.inputs == [0, 1] && g.outputs == [4];
    var s0 := Gen(Init(), []);
    assert s0 == Gen(Manager(map[], map[], AddrPool, ValuePool), []);
    var s1 := Gen(Manager(map[0 := R11], map[], [Rsi, Rdx, R8, R9, R10], ValuePool), [LoadPointer(R11, ptr, 0)]);
    var s2 := Gen(Manager(map[0 := R11, 1 := R10], map[], [Rsi, Rdx, R8, R9], ValuePool),
                  [LoadPointer(R11, ptr, 0), LoadPointer(R10, ptr, 8)]);
    var s3 := Gen(Manager(BenchAddr, map[], [Rsi, Rdx, R8], ValuePool),
                  [LoadPointer(R11, ptr, 0), LoadPointer(R10, ptr, 8), LoadPointer(R9, ptr, 16)]);
    PointerStep([0, 1], 0, ptr, s0, [Rsi, Rdx, R8, R9, R10], R11, s1);
    PointerStep([1], 1, ptr, s1, [Rsi, Rdx, R8, R9], R10, s2);
    PointerStep([4], 2, ptr, s2, [Rsi, Rdx, R8], R9, s3);
  }

  /** The state after the pointer loads. */
  function BenchStart(ptr: PointerReg): Gen {
    Gen(Manager(BenchAddr, map[], [Rsi, Rdx, R8], ValuePool),
        [LoadPointer(R11, ptr, 0), LoadPointer(R10, ptr, 8), LoadPointer(R9, ptr, 16)])
  }

  const Regs1: Manager := Manager(BenchAddr, map[0 := Xmm7, 1 := Xmm6], [Rsi, Rdx], [Xmm0, Xmm1, Xmm2, Xmm3, Xmm4, Xmm5])

  /** The loop head: R8 becomes the counter, and the inputs are loaded
      into Xmm7 and Xmm6. */
  lemma BenchmarkHead(ptr: PointerReg, c: seq<Instr>)
    ensures var hdr := Gen(Manager(BenchAddr, map[], [Rsi, Rdx], ValuePool), c);
            LoadElements([0, 1], R8, hdr)
            == Ok(Gen(Regs1, c + [LoadElement(Xmm7, R11, R8, ElementShift), LoadElement(Xmm6, R10, R8, ElementShift)]))
  {
    var s0 := Gen(Manager(BenchAddr, map[], [Rsi, Rdx], ValuePool), c);
    var s1 := Gen(Manager(BenchAddr, map[0 := Xmm7], [Rsi, Rdx], [Xmm0, Xmm1, Xmm2, Xmm3, Xmm4, Xmm5, Xmm6]),
                  c + [LoadElement(Xmm7, R11, R8, ElementShift)]);
    var s2 := Gen(Regs1, c + [LoadElement(Xmm7, R11, R8, ElementShift), LoadElement(Xmm6, R10, R8, ElementShift)]);
    ElementStep([0, 1], R8, s0, [Xmm0, Xmm1, Xmm2, Xmm3, Xmm4, Xmm5, Xmm6], Xmm7, s1);
    assert [0, 1][1..] == [1];
    ElementStep([1], R8, s1, [Xmm0, Xmm1, Xmm2, Xmm3, Xmm4, Xmm5], Xmm6, s2);
    assert [1][1..] == [];
  }

  lemma BenchmarkWellFormed()
    ensures WellFormed(Benchmark())
  {
  }

  const Regs2: Manager := Manager(BenchAddr, map[0 := Xmm7, 1 := Xmm6, 2 := Xmm5], [Rsi, Rdx],
                                  [Xmm0, Xmm1, Xmm2, Xmm3, Xmm4, Xmm7, Xmm6])
  const Regs3: Manager := Manager(BenchAddr, map[0 := Xmm7, 1 := Xmm6, 2 := Xmm5, 3 := Xmm7], [Rsi, Rdx],
                                  [Xmm0, Xmm1, Xmm2, Xmm3, Xmm4])
  const Regs4: Manager := Manager(BenchAddr, map[0 := Xmm7, 1 := Xmm6, 2 := Xmm5, 3 := Xmm7, 4 := Xmm2], [Rsi, Rdx],
                                  [Xmm0, Xmm1, Xmm5, Xmm7])

  /** `c = a * b`: one copy of `a` into Xmm5; then `a` and `b` are dead
      and Xmm7 and Xmm6 go back to the pool. */
  lemma BenchmarkNode0(c: seq<Instr>)
    requires WellFormed(Benchmark())
    ensures EmitOperation(Benchmark(), 0, Through(0), Gen(Regs1, c))
         == Ok(Gen(Regs2, c + [Movaps(Xmm5, Xmm7), Mulss(Xmm5, Xmm6)]))
  {
    Node0Uses();
    Node0Regs();
    MulStep(Benchmark(), 0, Through(0), Gen(Regs1, c), 1, [0, 1], Gen(Regs2, c + [Movaps(Xmm5, Xmm7), Mulss(Xmm5, Xmm6)]));
  }

  lemma Node0Uses()
    ensures var g := Benchmark();
            && g.nodes[0] == Node(Mul, [0, 1], [2])
            && CountSeen(g.uses[0], Through(0)) == 1 && DeadInputs(g, [0, 1], Through(0)) == [0, 1]
  {
  }

  lemma Node0Regs()
    ensures var fv := Regs1.freeValue;
            var vr := Regs1.valueRegs[2 := fv[|fv| - 1]];
            && (forall v <- [0, 1] :: v in vr)
            && Regs2 == Regs1.(freeValue := fv[..|fv| - 1] + RegsOf(vr, [0, 1]), valueRegs := vr)
            && CopyCode(fv, 1, Regs1.valueRegs[0]) == [Movaps(Xmm5, Xmm7)]
            && Regs1.valueRegs[1] == Xmm6
  {
  }

  /** `a2 = c * c`: both of `c`'s visited uses by node 1 copy it, into
      Xmm6 and then Xmm7; `c` is still read by node 2, so nothing is
      released, and Xmm6 is lost to the pool. */
  lemma BenchmarkNode1(c: seq<Instr>)
    requires WellFormed(Benchmark())
    ensures EmitOperation(Benchmark(), 1, Through(1), Gen(Regs2, c))
         == Ok(Gen(Regs3, c + [Movaps(Xmm6, Xmm5), Movaps(Xmm7, Xmm5), Mulss(Xmm7, Xmm5)]))
  {
    Node1Uses();
    Node1Regs();
    MulStep(Benchmark(), 1, Through(1), Gen(Regs2, c), 2, [],
            Gen(Regs3, c + [Movaps(Xmm6, Xmm5), Movaps(Xmm7, Xmm5), Mulss(Xmm7, Xmm5)]));
  }

  lemma Node1Uses()
    ensures var g := Benchmark();
            && g.nodes[1] == Node(Mul, [2, 2], [3])
            && CountSeen(g.uses[2], Through(1)) == 2 && DeadInputs(g, [2, 2], Through(1)) == []
  {
  }

  lemma Node1Regs()
    ensures var fv := Regs2.freeValue;
            var vr := Regs2.valueRegs[3 := fv[|fv| - 2]];
            && Regs3 == Regs2.(freeValue := fv[..|fv| - 2] + RegsOf(vr, []), valueRegs := vr)
            && CopyCode(fv, 2, Regs2.valueRegs[2]) == [Movaps(Xmm6, Xmm5), Movaps(Xmm7, Xmm5)]
  {
  }

  /** `a3 = c * a2`: all three uses of `c` are visited now, so three
      copies, into Xmm4, Xmm3 and Xmm2; then `c` and `a2` are dead and
      Xmm5 and Xmm7 go back to the pool. */
  lemma BenchmarkNode2(c: seq<Instr>)
    requires WellFormed(Benchmark())
    ensures EmitOperation(Benchmark(), 2, Through(2), Gen(Regs3, c))
         == Ok(Gen(Regs4, c + [Movaps(Xmm4, Xmm5), Movaps(Xmm3, Xmm5), Movaps(Xmm2, Xmm5), Mulss(Xmm2, Xmm7)]))
  {
    Node2Uses();
    Node2Regs();
    MulStep(Benchmark(), 2, Through(2), Gen(Regs3, c), 3, [2, 3],
            Gen(Regs4, c + [Movaps(Xmm4, Xmm5), Movaps(Xmm3, Xmm5), Movaps(Xmm2, Xmm5), Mulss(Xmm2, Xmm7)]));
  }

  lemma Node2Uses()
    ensures var g := Benchmark();
            && g.nodes[2] == Node(Mul, [2, 3], [4])
            && CountSeen(g.uses[2], Through(2)) == 3 && DeadInputs(g, [2, 3], Through(2)) == [2, 3]
  {
  }

  lemma Node2Regs()
    ensures var fv := Regs3.freeValue;
            var vr := Regs3.valueRegs[4 := fv[|fv| - 3]];
            && (forall v <- [2, 3] :: v in vr)
            && Regs4 == Regs3.(freeValue := fv[..|fv| - 3] + RegsOf(vr, [2, 3]), valueRegs := vr)
            && CopyCode(fv, 3, Regs3.valueRegs[2]) == [Movaps(Xmm4, Xmm5), Movaps(Xmm3, Xmm5), Movaps(Xmm2, Xmm5)]
            && Regs3.valueRegs[3] == Xmm7
  {
  }

  /** The node code of the benchmark graph: one copy and a product for
      node 0, two copies and a product for node 1, three copies and a
      product for node 2. */
  const BenchmarkOps: seq<Instr> :=
    [ Movaps(Xmm5, Xmm7), Mulss(Xmm5, Xmm6),
      Movaps(Xmm6, Xmm5), Movaps(Xmm7, Xmm5), Mulss(Xmm7, Xmm5),
      Movaps(Xmm4, Xmm5), Movaps(Xmm3, Xmm5), Movaps(Xmm2, Xmm5), Mulss(Xmm2, Xmm7) ]

  lemma BenchmarkNodes(c: seq<Instr>)
    requires WellFormed(Benchmark())
    ensures EmitNodes(Benchmark(), 0, Gen(Regs1, c)) == Ok(Gen(Regs4, c + BenchmarkOps))
  {
    var g := Benchmark();
    var c1 := c + [Movaps(Xmm5, Xmm7), Mulss(Xmm5, Xmm6)];
    var c2 := c1 + [Movaps(Xmm6, Xmm5), Movaps(Xmm7, Xmm5), Mulss(Xmm7, Xmm5)];
    var c3 := c2 + [Movaps(Xmm4, Xmm5), Movaps(Xmm3, Xmm5), Movaps(Xmm2, Xmm5), Mulss(Xmm2, Xmm7)];
    assert |g.nodes| == 3;
    BenchmarkNode0(c);
    NodesStep(g, 0, Gen(Regs1, c), Gen(Regs2, c1));
    BenchmarkNode1(c1);
    NodesStep(g, 1, Gen(Regs2, c1), Gen(Regs3, c2));
    BenchmarkNode2(c2);
    NodesStep(g, 2, Gen(Regs3, c2), Gen(Regs4, c3));
    var x := [Movaps(Xmm5, Xmm7), Mulss(Xmm5, Xmm6)];
    var y := [Movaps(Xmm6, Xmm5), Movaps(Xmm7, Xmm5), Mulss(Xmm7, Xmm5)];
    var z := [Movaps(Xmm4, Xmm5), Movaps(Xmm3, Xmm5), Movaps(Xmm2, Xmm5), Mulss(Xmm2, Xmm7)];
    Assoc3(c, x, y, z);
    OpsParts();
  }

  lemma OpsParts()
    ensures [Movaps(Xmm5, Xmm7), Mulss(Xmm5, Xmm6)]
            + [Movaps(Xmm6, Xmm5), Movaps(Xmm7, Xmm5), Mulss(Xmm7, Xmm5)]
            + [Movaps(Xmm4, Xmm5), Movaps(Xmm3, Xmm5), Movaps(Xmm2, Xmm5), Mulss(Xmm2, Xmm7)]
            == BenchmarkOps
  {
  }

  /** The store of the output `a3` from Xmm2 into its buffer at R9. */
  lemma BenchmarkStores(c: seq<Instr>)
    ensures StoreOutputs([4], R8, Gen(Regs4, c)) == Ok(Gen(Regs4, c + [StoreElement(R9, R8, ElementShift, Xmm2)]))
  {
  }

  lemma CodeParts(size: nat, ptr: PointerReg)
    ensures [LoadPointer(R11, ptr, 0), LoadPointer(R10, ptr, 8), LoadPointer(R9, ptr, 16)]
            + [SetImm(R8, 0), Bind(LoopLabel)]
            + [LoadElement(Xmm7, R11, R8, ElementShift), LoadElement(Xmm6, R10, R8, ElementShift)]
            + BenchmarkOps + [StoreElement(R9, R8, ElementShift, Xmm2)] + LoopTail(R8, size)
            == BenchmarkCode(size, ptr)
  {
  }

  /** Planning the benchmark graph succeeds within the six address and
      eight value registers, with the code above: the counter is R8, and
      the output is computed in Xmm2. */
  lemma BenchmarkPlans(size: nat, ptr: PointerReg)
    ensures WellFormed(Benchmark()) && Plan(Benchmark(), size, ptr) == Ok(BenchmarkCode(size, ptr))
  {
    BenchmarkBuffers(ptr);
    BenchmarkLoop(size, ptr);
    PlanByParts(Benchmark(), size, ptr, BenchStart(ptr), Ok(BenchmarkCode(size, ptr)));
  }

  /** The loop, from the state the pointer loads leave. */
  lemma BenchmarkLoop(size: nat, ptr: PointerReg)
    ensures WellFormed(Benchmark()) && EmitLoop(Benchmark(), size, BenchStart(ptr)) == Ok(BenchmarkCode(size, ptr))
  {
    BenchmarkWellFormed();
    var g := Benchmark();
    assert g.inputs == [0, 1] && g.outputs == [4];
    var loads := [LoadPointer(R11, ptr, 0), LoadPointer(R10, ptr, 8), LoadPointer(R9, ptr, 16)];
    var s0 := BenchStart(ptr);
    var m := Manager(BenchAddr, map[], [Rsi, Rdx], ValuePool);
    assert [Rsi, Rdx, R8][..2] == [Rsi, Rdx];
    var hdr := loads + [SetImm(R8, 0), Bind(LoopLabel)];
    var el := [LoadElement(Xmm7, R11, R8, ElementShift), LoadElement(Xmm6, R10, R8, ElementShift)];
    BenchmarkHead(ptr, hdr);
    BenchmarkNodes(hdr + el);
    BenchmarkStores(hdr + el + BenchmarkOps);
    LoopByPhases(g, size, s0, R8, m, Gen(Regs1, hdr + el), Gen(Regs4, hdr + el + BenchmarkOps),
                 Gen(Regs4, hdr + el + BenchmarkOps + [StoreElement(R9, R8, ElementShift, Xmm2)]));
    CodeParts(size, ptr);
  }

  /** The buffers the benchmark's pointer loads set up: R11 and R10 point
      at the inputs, R9 at the output. */
  const BenchmarkBufs: map<AddrReg, nat> := map[R11 := 0, R10 := 1, R9 := 2]

  /** `(a * b) * ((a * b) * (a * b))`, the value the benchmark graph
      returns. */
  const BenchmarkResult: Term :=
    Times(Times(Elem(0), Elem(1)), Times(Times(Elem(0), Elem(1)), Times(Elem(0), Elem(1))))

  /** For the benchmark graph the body is right: it stores into the
      output buffer the value the graph returns. */
  lemma BenchmarkComputes()
    ensures Computes(Benchmark(), BenchmarkBody, BenchmarkBufs)
  {
    var g := Benchmark();
    BenchmarkBodyFlow();
    assert Meaning(g, 4, 3) == BenchmarkResult by {
      BenchmarkMeaning();
    }
    assert |g.inputs| == 2 && g.outputs == [4] && |g.nodes| == 3;
  }

  lemma BenchmarkMeaning()
    ensures Meaning(Benchmark(), 4, 3) == BenchmarkResult
  {
  }

  /** The benchmark body finishes with the benchmark's value stored in
      the output buffer. */
  lemma BenchmarkBodyFlow()
    ensures var r := BodyFlow(BenchmarkBody, BenchmarkBufs, Flow(map[], map[]));
            r.Finished? && r.flow.stored == map[2 := BenchmarkResult]
  {
    var m := BenchmarkBufs;
    var ab := Times(Elem(0), Elem(1));
    var loads := [LoadElement(Xmm7, R11, R8, ElementShift), LoadElement(Xmm6, R10, R8, ElementShift)];
    var ops0 := [Movaps(Xmm5, Xmm7), Mulss(Xmm5, Xmm6)];
    var ops1 := [Movaps(Xmm6, Xmm5), Movaps(Xmm7, Xmm5), Mulss(Xmm7, Xmm5)];
    var ops2 := [Movaps(Xmm4, Xmm5), Movaps(Xmm3, Xmm5), Movaps(Xmm2, Xmm5), Mulss(Xmm2, Xmm7)];
    var store := [StoreElement(R9, R8, ElementShift, Xmm2)];
    var f0 := Flow(map[], map[]);
    var f1 := Flow(map[Xmm7 := Elem(0), Xmm6 := Elem(1)], map[]);
    var f2 := Flow(f1.xmm[Xmm5 := ab], map[]);
    var f3 := Flow(f2.xmm[Xmm6 := ab][Xmm7 := Times(ab, ab)], map[]);
    var f4 := Flow(f3.xmm[Xmm4 := ab][Xmm3 := ab][Xmm2 := Times(ab, Times(ab, ab))], map[]);
    BenchLoadsFlow();
    BenchNode0Flow(f1.xmm);
    BenchNode1Flow(f2.xmm, ab);
    BenchNode2Flow(f3.xmm, ab);
    assert R9 in m && m[R9] == 2;
    StoreFlow(R9, R8, ElementShift, Xmm2, m, f4);
    var f5 := f4.(stored := f4.stored[2 := f4.xmm[Xmm2]]);
    FlowThen(loads, ops0, m, f0, f1, f2);
    FlowThen(loads + ops0, ops1, m, f0, f2, f3);
    FlowThen(loads + ops0 + ops1, ops2, m, f0, f3, f4);
    FlowThen(loads + ops0 + ops1 + ops2, store, m, f0, f4, f5);
    BodyParts();
  }

  lemma BodyParts()
    ensures [LoadElement(Xmm7, R11, R8, ElementShift), LoadElement(Xmm6, R10, R8, ElementShift)]
            + [Movaps(Xmm5, Xmm7), Mulss(Xmm5, Xmm6)]
            + [Movaps(Xmm6, Xmm5), Movaps(Xmm7, Xmm5), Mulss(Xmm7, Xmm5)]
            + [Movaps(Xmm4, Xmm5), Movaps(Xmm3, Xmm5), Movaps(Xmm2, Xmm5), Mulss(Xmm2, Xmm7)]
            + [StoreElement(R9, R8, ElementShift, Xmm2)]
            == BenchmarkBody
  {
  }

  lemma BenchLoadsFlow()
    ensures BodyFlow([LoadElement(Xmm7, R11, R8, ElementShift), LoadElement(Xmm6, R10, R8, ElementShift)],
                     BenchmarkBufs, Flow(map[], map[]))
         == Finished(Flow(map[Xmm7 := Elem(0), Xmm6 := Elem(1)], map[]))
  {
    var b := [LoadElement(Xmm7, R11, R8, ElementShift), LoadElement(Xmm6, R10, R8, ElementShift)];
    assert b[1..] == [b[1]] && b[1..][1..] == [];
    assert BenchmarkBufs[R11] == 0 && BenchmarkBufs[R10] == 1;
    var x1 := map[Xmm7 := Elem(0)];
    assert BodyFlow(b, BenchmarkBufs, Flow(map[], map[])) == BodyFlow(b[1..], BenchmarkBufs, Flow(x1, map[]));
  }

  lemma BenchNode0Flow(x: map<ValueReg, Term>)
    requires x == map[Xmm7 := Elem(0), Xmm6 := Elem(1)]
    ensures BodyFlow([Movaps(Xmm5, Xmm7), Mulss(Xmm5, Xmm6)], BenchmarkBufs, Flow(x, map[]))
         == Finished(Flow(x[Xmm5 := Times(Elem(0), Elem(1))], map[]))
  {
  }

  lemma BenchNode1Flow(x: map<ValueReg, Term>, ab: Term)
    requires Xmm5 in x && x[Xmm5] == ab
    ensures BodyFlow([Movaps(Xmm6, Xmm5), Movaps(Xmm7, Xmm5), Mulss(Xmm7, Xmm5)], BenchmarkBufs, Flow(x, map[]))
         == Finished(Flow(x[Xmm6 := ab][Xmm7 := Times(ab, ab)], map[]))
  {
  }

  lemma BenchNode2Flow(x: map<ValueReg, Term>, ab: Term)
    requires Xmm5 in x && Xmm7 in x && x[Xmm5] == ab && x[Xmm7] == Times(ab, ab)
    ensures BodyFlow([Movaps(Xmm4, Xmm5), Movaps(Xmm3, Xmm5), Movaps(Xmm2, Xmm5), Mulss(Xmm2, Xmm7)],
                     BenchmarkBufs, Flow(x, map[]))
         == Finished(Flow(x[Xmm4 := ab][Xmm3 := ab][Xmm2 := Times(ab, Times(ab, ab))], map[]))
  {
  }
}
