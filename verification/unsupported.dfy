/**
  A subgraph holding an operator the compiler does not generate code
  for: `c = a + b`, returning `c`. `emitOperation` emits nothing for it
  and binds nothing, so compilation only fails when the store loop looks
  up `c`'s value register.
 */
module UnsupportedScenario {
  import opened Isa
  import opened Ir
  import opened Results
  import opened Registers
  import opened Planner
  import opened Host
  import opened Codegen
  import opened Walk
  import PlannerFacts

  /** Values 0 and 1 are `a` and `b`; 2 is `c`. */
  function AddGraph(): Graph {
    Graph([Node(Other("aten::add"), [0, 1], [2])], [0, 1], [2], [[Op(0)], [Op(0)], [Return]])
  }

  lemma AddGraphWellFormed()
    ensures WellFormed(AddGraph()) && !Supported(AddGraph().nodes[0].kind)
  {
  }

  const AddAddr: map<ValueId, AddrReg> := map[0 := R11, 1 := R10, 2 := R9]

  lemma AddBuffers(ptr: PointerReg)
    ensures LoadBuffers(AddGraph(), ptr) == Ok(AddStart(ptr))
  {
    var g := AddGraph();
    assert g.inputs == [0, 1] && g.outputs == [2];
    var s0 := Gen(Init(), []);
    assert s0 == Gen(Manager(map[], map[], AddrPool, ValuePool), []);
    var s1 := Gen(Manager(map[0 := R11], map[], [Rsi, Rdx, R8, R9, R10], ValuePool), [LoadPointer(R11, ptr, 0)]);
    var s2 := Gen(Manager(map[0 := R11, 1 := R10], map[], [Rsi, Rdx, R8, R9], ValuePool),
                  [LoadPointer(R11, ptr, 0), LoadPointer(R10, ptr, 8)]);
    var s3 := Gen(Manager(AddAddr, map[], [Rsi, Rdx, R8], ValuePool),
                  [LoadPointer(R11, ptr, 0), LoadPointer(R10, ptr, 8), LoadPointer(R9, ptr, 16)]);
    PointerStep([0, 1], 0, ptr, s0, [Rsi, Rdx, R8, R9, R10], R11, s1);
    PointerStep([1], 1, ptr, s1, [Rsi, Rdx, R8, R9], R10, s2);
    PointerStep([2], 2, ptr, s2, [Rsi, Rdx, R8], R9, s3);
  }

  const Add1: Manager := Manager(AddAddr, map[0 := Xmm7, 1 := Xmm6], [Rsi, Rdx], [Xmm0, Xmm1, Xmm2, Xmm3, Xmm4, Xmm5])
  const Add2: Manager := Manager(AddAddr, map[0 := Xmm7, 1 := Xmm6], [Rsi, Rdx],
                                 [Xmm0, Xmm1, Xmm2, Xmm3, Xmm4, Xmm5, Xmm7, Xmm6])

  lemma AddHead(c: seq<Instr>)
    ensures LoadElements([0, 1], R8, Gen(Manager(AddAddr, map[], [Rsi, Rdx], ValuePool), c))
            == Ok(Gen(Add1, c + [LoadElement(Xmm7, R11, R8, ElementShift), LoadElement(Xmm6, R10, R8, ElementShift)]))
  {
    var s0 := Gen(Manager(AddAddr, map[], [Rsi, Rdx], ValuePool), c);
    var s1 := Gen(Manager(AddAddr, map[0 := Xmm7], [Rsi, Rdx], [Xmm0, Xmm1, Xmm2, Xmm3, Xmm4, Xmm5, Xmm6]),
                  c + [LoadElement(Xmm7, R11, R8, ElementShift)]);
    var s2 := Gen(Add1, c + [LoadElement(Xmm7, R11, R8, ElementShift), LoadElement(Xmm6, R10, R8, ElementShift)]);
    ElementStep([0, 1], R8, s0, [Xmm0, Xmm1, Xmm2, Xmm3, Xmm4, Xmm5, Xmm6], Xmm7, s1);
    assert [0, 1][1..] == [1];
    ElementStep([1], R8, s1, [Xmm0, Xmm1, Xmm2, Xmm3, Xmm4, Xmm5], Xmm6, s2);
    assert [1][1..] == [];
  }

  /** The addition emits nothing and binds nothing; `a` and `b` are dead
      after it, so their registers go back to the pool. */
  lemma AddEmits(c: seq<Instr>)
    requires WellFormed(AddGraph())
    ensures EmitOperation(AddGraph(), 0, Through(0), Gen(Add1, c)) == Ok(Gen(Add2, c))
  {
    AddUses();
    assert RegsOf(Add1.valueRegs, [0, 1]) == [Xmm7, Xmm6];
    PlannerFacts.UnsupportedEmitsNothing(AddGraph(), 0, Through(0), Gen(Add1, c), 2);
    AddPools();
  }

  lemma AddUses()
    ensures var g := AddGraph();
            && g.nodes[0].inputs == [0, 1] && DeadInputs(g, [0, 1], Through(0)) == [0, 1]
  {
  }

  lemma AddPools()
    ensures Add2 == Add1.(freeValue := Add1.freeValue + [Xmm7, Xmm6])
  {
  }

  lemma AddNode(c: seq<Instr>)
    requires WellFormed(AddGraph())
    ensures EmitNodes(AddGraph(), 0, Gen(Add1, c)) == Ok(Gen(Add2, c))
  {
    AddEmits(c);
    NodesStep(AddGraph(), 0, Gen(Add1, c), Gen(Add2, c));
  }

  /** Compilation of the graph fails with `c` unbound, whatever the
      element count: the output's address register exists, but no node
      ever gave it a value register. */
  lemma AddPlanFails(size: nat, ptr: PointerReg)
    ensures WellFormed(AddGraph()) && Plan(AddGraph(), size, ptr) == Fail(UnboundValue(2))
  {
    AddBuffers(ptr);
    AddLoopFails(size, ptr);
    PlanByParts(AddGraph(), size, ptr, AddStart(ptr), Fail(UnboundValue(2)));
  }

  /** The state after the pointer loads. */
  function AddStart(ptr: PointerReg): Gen {
    Gen(Manager(AddAddr, map[], [Rsi, Rdx, R8], ValuePool),
        [LoadPointer(R11, ptr, 0), LoadPointer(R10, ptr, 8), LoadPointer(R9, ptr, 16)])
  }

  /** The loop fails at the store of `c`. */
  lemma AddLoopFails(size: nat, ptr: PointerReg)
    ensures WellFormed(AddGraph()) && EmitLoop(AddGraph(), size, AddStart(ptr)) == Fail(UnboundValue(2))
  {
    AddGraphWellFormed();
    var g := AddGraph();
    assert g.inputs == [0, 1] && g.outputs == [2];
    var loads := [LoadPointer(R11, ptr, 0), LoadPointer(R10, ptr, 8), LoadPointer(R9, ptr, 16)];
    var s0 := AddStart(ptr);
    var m := Manager(AddAddr, map[], [Rsi, Rdx], ValuePool);
    assert [Rsi, Rdx, R8][..2] == [Rsi, Rdx];
    var hdr := loads + [SetImm(R8, 0), Bind(LoopLabel)];
    var el := [LoadElement(Xmm7, R11, R8, ElementShift), LoadElement(Xmm6, R10, R8, ElementShift)];
    AddHead(hdr);
    AddNode(hdr + el);
    assert 2 in Add2.addrRegs && 2 !in Add2.valueRegs;
    assert StoreOutputs([2], R8, Gen(Add2, hdr + el)) == Fail(UnboundValue(2));
    LoopFailsAtStores(g, size, s0, R8, m, Gen(Add1, hdr + el), Gen(Add2, hdr + el), UnboundValue(2));
  }

  /** The same failure through `compile`, for any two tensors of equal
      size: the operator is not rejected up front, and the backend is
      never reached. */
  lemma AddCompileFails(args: seq<IValue>, isWinOS: bool, backend: seq<Instr> -> bool)
    requires |args| == 2 && ValidArgs(args)
    ensures WellFormed(AddGraph()) && Compile(AddGraph(), args, isWinOS, backend) == Fail(UnboundValue(2))
  {
    AddPlanFails(args[0].numel, ArgPointer(isWinOS));
  }
}
