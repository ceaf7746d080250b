/**
  What a compiled routine does when the wrapper calls it: it loads the
  buffer pointers from the argument array, then goes round the loop once
  per element (and once even when there are no elements), reading element
  `c` of every input buffer and writing element `c` of every output
  buffer on pass `c`, and returns.
 */
module ExecFacts {
  import opened Isa
  import opened Ir
  import opened Registers
  import opened Host
  import opened Codegen
  import opened CodegenFacts
  import opened Runtime
  import opened Cpu

  /** Bytes per element: the buffers hold 32-bit floats. */
  const ElementBytes: int := 4

  /** The accesses of the pass with counter `c`, given the argument array
      `args` whose first `n` entries are input buffers and whose remaining
      entries are output buffers: element `c` of each input in turn, then
      element `c` of each output in turn. */
  function PassTrace(args: seq<int>, n: nat, c: int): seq<Access>
    requires n <= |args|
  {
    PassReads(args, n, c) + PassWrites(args, n, c)
  }

  function PassReads(args: seq<int>, n: nat, c: int): seq<Access>
    requires n <= |args|
  {
    seq(n, i requires 0 <= i < n => Read(args[i] + ElementBytes * c))
  }

  function PassWrites(args: seq<int>, n: nat, c: int): seq<Access>
    requires n <= |args|
  {
    seq(|args| - n, j requires 0 <= j < |args| - n => Write(args[n + j] + ElementBytes * c))
  }

  /** The accesses of passes `0 .. count - 1`, in order. */
  function Passes(args: seq<int>, n: nat, count: nat): seq<Access>
    requires n <= |args|
  {
    if count == 0 then [] else Passes(args, n, count - 1) + PassTrace(args, n, count - 1)
  }

  /** How many passes the loop makes for `size` elements: the test comes
      after the body, so at least one. */
  function PassCount(size: nat): nat {
    if size == 0 then 1 else size
  }

  /** The address registers hold the buffer pointers. */
  predicate Loaded(gp: map<AddrReg, int>, bases: seq<AddrReg>, args: seq<int>) {
    && |bases| == |args|
    && forall i | 0 <= i < |bases| :: bases[i] in gp && gp[bases[i]] == args[i]
  }

  lemma ShlElementShift(x: int)
    ensures Shl(x, ElementShift) == ElementBytes * x
  {
    assert Shl(x, 1) == 2 * x;
  }

  /** Where one pass sits: the label after the `k` pointer loads and the
      counter reset, then the body and the loop tail; a branch to the
      label lands on it. */
  predicate PassShape(code: seq<Instr>, k: nat, body: seq<Instr>, iter: AddrReg, size: nat) {
    var b := |body|;
    && k + b + 5 <= |code|
    && code[k + 1] == Bind(LoopLabel) && code[k + 2..k + 2 + b] == body
    && code[k + 2 + b] == AddImm(iter, 1) && code[k + 3 + b] == CmpImm(iter, size)
    && code[k + 4 + b] == Jb(LoopLabel)
    && FirstBind(code, LoopLabel, 0) == k + 1
  }

  /** Where each part of a routine sits: the pointer loads of `bases`,
      the counter reset, the pass, and the return. */
  predicate Layout(code: seq<Instr>, ptr: PointerReg, bases: seq<AddrReg>, iter: AddrReg, size: nat, body: seq<Instr>) {
    var k := |bases|;
    && |code| == k + |body| + 6
    && (forall i | 0 <= i < k :: code[i] == LoadPointer(bases[i], ptr, i * PointerBytes))
    && code[k] == SetImm(iter, 0)
    && PassShape(code, k, body, iter, size)
    && code[k + 5 + |body|] == Ret
  }

  /** A routine of the compiled shape is laid out as `Layout` says. */
  lemma SkeletonAt(code: seq<Instr>, ptr: PointerReg, inBases: seq<AddrReg>, outBases: seq<AddrReg>,
                   iter: AddrReg, size: nat, loads: seq<Instr>, ops: seq<Instr>, stores: seq<Instr>)
    requires Skeleton(code, ptr, inBases, outBases, iter, size, loads, ops, stores)
    ensures Layout(code, ptr, inBases + outBases, iter, size, loads + ops + stores)
  {
    var pre := PointerLoads(inBases + outBases, 0, ptr) + [SetImm(iter, 0), Bind(LoopLabel)];
    assert code == pre + (loads + ops + stores) + LoopTail(iter, size);
    ConcatLayout(code, ptr, inBases + outBases, iter, size, loads + ops + stores);
  }

  /** The pointer loads, the reset and the label, the body and the tail,
      one after the other, are laid out as `Layout` says. */
  lemma ConcatLayout(code: seq<Instr>, ptr: PointerReg, bases: seq<AddrReg>, iter: AddrReg, size: nat, body: seq<Instr>)
    requires code == PointerLoads(bases, 0, ptr) + [SetImm(iter, 0), Bind(LoopLabel)] + body + LoopTail(iter, size)
    ensures Layout(code, ptr, bases, iter, size, body)
  {
    var k := |bases|;
    var pre := PointerLoads(bases, 0, ptr) + [SetImm(iter, 0), Bind(LoopLabel)];
    assert code == pre + (body + LoopTail(iter, size));
    HeadLayout(code, pre, body + LoopTail(iter, size), ptr, bases, iter);
    TailLayout(code, k + 2, body, iter, size);
    FirstBindAt(code, LoopLabel, 0, k + 1);
  }

  lemma HeadLayout(code: seq<Instr>, pre: seq<Instr>, rest: seq<Instr>, ptr: PointerReg, bases: seq<AddrReg>, iter: AddrReg)
    requires pre == PointerLoads(bases, 0, ptr) + [SetImm(iter, 0), Bind(LoopLabel)] && code == pre + rest
    ensures |pre| == |bases| + 2
    ensures forall i | 0 <= i < |bases| :: code[i] == LoadPointer(bases[i], ptr, i * PointerBytes)
    ensures code[|bases|] == SetImm(iter, 0) && code[|bases| + 1] == Bind(LoopLabel)
    ensures forall i | 0 <= i < |bases| + 1 :: code[i] != Bind(LoopLabel)
  {
  }

  lemma TailLayout(code: seq<Instr>, p: nat, body: seq<Instr>, iter: AddrReg, size: nat)
    requires p <= |code| && code[p..] == body + LoopTail(iter, size)
    ensures |code| == p + |body| + 4 && code[p..p + |body|] == body
    ensures code[p + |body|] == AddImm(iter, 1) && code[p + |body| + 1] == CmpImm(iter, size)
    ensures code[p + |body| + 2] == Jb(LoopLabel) && code[p + |body| + 3] == Ret
  {
  }

  /** The body of the loop is plain code whose accesses, with the buffer
      pointers loaded and the counter at `c`, are exactly pass `c`. */
  lemma BodyAccesses(loads: seq<Instr>, ops: seq<Instr>, stores: seq<Instr>,
                     inBases: seq<AddrReg>, outBases: seq<AddrReg>, iter: AddrReg,
                     gp: map<AddrReg, int>, args: seq<int>, c: int)
    requires LoopBodyShape(loads, ops, stores, inBases, outBases, iter)
    requires Loaded(gp, inBases + outBases, args) && iter in gp && gp[iter] == c
    ensures AllPlain(loads + ops + stores, gp)
    ensures Accesses(loads + ops + stores, gp) == PassTrace(args, |inBases|, c)
  {
    LoadsAccess(loads, ops, stores, inBases, outBases, iter, gp, args, c);
    NoAccesses(ops, gp);
    StoresAccess(loads, ops, stores, inBases, outBases, iter, gp, args, c);
    AccessesAppend(loads, ops, gp);
    AccessesAppend(loads + ops, stores, gp);
    assert PassReads(args, |inBases|, c) + [] == PassReads(args, |inBases|, c);
    assert AllPlain(ops, gp);
    PlainAppend(loads, ops, gp);
    PlainAppend(loads + ops, stores, gp);
  }

  lemma LoadsAccess(loads: seq<Instr>, ops: seq<Instr>, stores: seq<Instr>,
                    inBases: seq<AddrReg>, outBases: seq<AddrReg>, iter: AddrReg,
                    gp: map<AddrReg, int>, args: seq<int>, c: int)
    requires LoopBodyShape(loads, ops, stores, inBases, outBases, iter)
    requires Loaded(gp, inBases + outBases, args) && iter in gp && gp[iter] == c
    ensures AllPlain(loads, gp)
    ensures Accesses(loads, gp) == PassReads(args, |inBases|, c)
  {
    var bases := inBases + outBases;
    var accs := PassReads(args, |inBases|, c);
    ShlElementShift(c);
    forall i | 0 <= i < |loads|
      ensures OperandsIn(loads[i], gp) && AccessOf(loads[i], gp) == [accs[i]]
    {
      assert bases[i] == inBases[i];
    }
    OneAccessEach(loads, gp, accs);
  }

  lemma StoresAccess(loads: seq<Instr>, ops: seq<Instr>, stores: seq<Instr>,
                     inBases: seq<AddrReg>, outBases: seq<AddrReg>, iter: AddrReg,
                     gp: map<AddrReg, int>, args: seq<int>, c: int)
    requires LoopBodyShape(loads, ops, stores, inBases, outBases, iter)
    requires Loaded(gp, inBases + outBases, args) && iter in gp && gp[iter] == c
    ensures AllPlain(stores, gp)
    ensures Accesses(stores, gp) == PassWrites(args, |inBases|, c)
  {
    var n := |inBases|;
    var bases := inBases + outBases;
    var accs := PassWrites(args, n, c);
    ShlElementShift(c);
    forall i | 0 <= i < |stores|
      ensures OperandsIn(stores[i], gp) && AccessOf(stores[i], gp) == [accs[i]]
    {
      assert bases[n + i] == outBases[i];
    }
    OneAccessEach(stores, gp, accs);
  }

  lemma PlainAppend(xs: seq<Instr>, ys: seq<Instr>, gp: map<AddrReg, int>)
    requires AllPlain(xs, gp) && AllPlain(ys, gp)
    ensures AllPlain(xs + ys, gp)
  {
  }

  /** Instructions that each make exactly one access make those accesses
      in order. */
  lemma {:induction false} OneAccessEach(xs: seq<Instr>, gp: map<AddrReg, int>, accs: seq<Access>)
    requires |accs| == |xs|
    requires forall i | 0 <= i < |xs| :: OperandsIn(xs[i], gp) && AccessOf(xs[i], gp) == [accs[i]]
    ensures Accesses(xs, gp) == accs
    decreases |xs|
  {
    if |xs| > 0 {
      forall i | 0 <= i < |xs| - 1
        ensures OperandsIn(xs[1..][i], gp) && AccessOf(xs[1..][i], gp) == [accs[1..][i]]
      {
        assert xs[1..][i] == xs[i + 1];
      }
      OneAccessEach(xs[1..], gp, accs[1..]);
      assert accs == [accs[0]] + accs[1..];
    }
  }

  /** Scalar instructions make no access. */
  lemma {:induction false} NoAccesses(xs: seq<Instr>, gp: map<AddrReg, int>)
    requires forall i | 0 <= i < |xs| :: ScalarOp(xs[i])
    ensures Accesses(xs, gp) == []
    decreases |xs|
  {
    if |xs| > 0 {
      forall i | 0 <= i < |xs| - 1
        ensures ScalarOp(xs[1..][i])
      {
        assert xs[1..][i] == xs[i + 1];
      }
      NoAccesses(xs[1..], gp);
    }
  }

  /** One step runs exactly one instruction. */
  lemma ExecOne(code: seq<Instr>, env: Env, m: Machine)
    requires m.status == Running
    ensures Exec(code, env, m, 1) == Step(code, env, m)
  {
  }

  /** The pointer loads, run from the entry, put entry `i` of the argument
      array into the i-th buffer register; zeroing the counter follows. */
  lemma {:induction false} PointerPrefix(code: seq<Instr>, env: Env, bases: seq<AddrReg>, j: nat)
    requires Distinct(bases) && |bases| == |env.args| && j <= |bases| <= |code|
    requires forall i | 0 <= i < |bases| :: code[i] == LoadPointer(bases[i], env.argReg, i * PointerBytes)
    ensures var m := Exec(code, env, Start(), j);
            && m.status == Running && m.pc == j && m.trace == [] && !m.below
            && forall i | 0 <= i < j :: bases[i] in m.gp && m.gp[bases[i]] == env.args[i]
  {
    if j > 0 {
      PointerPrefix(code, env, bases, j - 1);
      var m := Exec(code, env, Start(), j - 1);
      ExecAdd(code, env, Start(), j - 1, 1);
      ExecOne(code, env, m);
      assert (j - 1) * PointerBytes / PointerBytes == j - 1;
      assert forall i | 0 <= i < j - 1 :: bases[i] != bases[j - 1];
    }
  }

  /** The machine at the label before the first pass: nothing accessed
      yet, the buffer pointers loaded and the counter, a register of its
      own, at zero. */
  predicate AtLabel(m: Machine, bases: seq<AddrReg>, args: seq<int>, iter: AddrReg) {
    && m.status == Running && m.pc == |bases| + 1 && m.trace == []
    && Loaded(m.gp, bases, args) && iter !in bases && iter in m.gp && m.gp[iter] == 0
  }

  /** A routine of the shape `compile` emits, called with one pointer per
      buffer: the pointer loads into distinct buffer registers, then the
      loop whose body loads the inputs, runs the node code and stores the
      outputs, with a counter register of its own. */
  predicate CompiledShape(code: seq<Instr>, env: Env, inBases: seq<AddrReg>, outBases: seq<AddrReg>,
                          iter: AddrReg, size: nat, loads: seq<Instr>, ops: seq<Instr>, stores: seq<Instr>)
  {
    && Layout(code, env.argReg, inBases + outBases, iter, size, loads + ops + stores)
    && LoopBodyShape(loads, ops, stores, inBases, outBases, iter)
    && Distinct(inBases + outBases + [iter])
    && |env.args| == |inBases| + |outBases|
  }

  /** The machine at the loop label before pass 0. */
  lemma Entry(code: seq<Instr>, env: Env, inBases: seq<AddrReg>, outBases: seq<AddrReg>,
              iter: AddrReg, size: nat, loads: seq<Instr>, ops: seq<Instr>, stores: seq<Instr>)
    requires CompiledShape(code, env, inBases, outBases, iter, size, loads, ops, stores)
    ensures AtLabel(Exec(code, env, Start(), |inBases + outBases| + 1), inBases + outBases, env.args, iter)
  {
    var k := |inBases| + |outBases|;
    var bases := inBases + outBases;
    assert Distinct(bases) && iter !in bases by {
      DistinctSplit(bases, [iter]);
    }
    PointerPrefix(code, env, bases, k);
    var m := Exec(code, env, Start(), k);
    ExecAdd(code, env, Start(), k, 1);
    ExecOne(code, env, m);
  }

  /** The label and the body of one pass: the body's accesses, with the
      registers untouched. */
  lemma PassBody(code: seq<Instr>, env: Env, m: Machine, k: nat, body: seq<Instr>, t: seq<Access>)
    requires m.status == Running && m.pc == k + 1 && k + 2 + |body| <= |code|
    requires code[k + 1] == Bind(LoopLabel) && code[k + 2..k + 2 + |body|] == body
    requires AllPlain(body, m.gp) && t == m.trace + Accesses(body, m.gp)
    ensures Exec(code, env, m, |body| + 1) == m.(pc := m.pc + 1 + |body|, trace := t)
  {
    var b := |body|;
    var m1 := m.(pc := k + 2);
    ExecOne(code, env, m);
    StraightLine(code, env, m1, b);
    Join(code, env, m, m1, m.(pc := m.pc + 1 + b, trace := t), 1, b, b + 1);
  }

  /** A pass is its label and body followed by its tail. */
  lemma PassJoin(code: seq<Instr>, env: Env, m: Machine, k: nat, b: nat, iter: AddrReg, size: nat, c: int, t: seq<Access>)
    requires m.status == Running && m.pc == k + 1 && iter in m.gp && m.gp[iter] == c
    requires Exec(code, env, m, b + 1) == m.(pc := m.pc + 1 + b, trace := t)
    requires k + b + 5 <= |code| && FirstBind(code, LoopLabel, 0) == k + 1
    requires code[k + 2 + b] == AddImm(iter, 1) && code[k + 3 + b] == CmpImm(iter, size) && code[k + 4 + b] == Jb(LoopLabel)
    ensures Exec(code, env, m, b + 4)
            == m.(pc := if c + 1 < size then k + 1 else k + b + 5, gp := m.gp[iter := c + 1],
                  below := c + 1 < size, trace := t)
  {
    var three := 3;
    PassTailAt(code, env, m, k, b, iter, size, c, t, three);
    Join(code, env, m, m.(pc := k + 2 + b, trace := t),
         m.(pc := if c + 1 < size then k + 1 else k + b + 5, gp := m.gp[iter := c + 1], below := c + 1 < size, trace := t),
         b + 1, three, b + 4);
  }

  /** The loop tail after the body of the pass that started at `m`. */
  lemma PassTailAt(code: seq<Instr>, env: Env, m: Machine, k: nat, b: nat, iter: AddrReg, size: nat, c: int,
                   t: seq<Access>, steps: nat)
    requires steps == 3 && m.status == Running && iter in m.gp && m.gp[iter] == c
    requires k + b + 5 <= |code| && FirstBind(code, LoopLabel, 0) == k + 1
    requires code[k + 2 + b] == AddImm(iter, 1) && code[k + 3 + b] == CmpImm(iter, size) && code[k + 4 + b] == Jb(LoopLabel)
    ensures Exec(code, env, m.(pc := k + 2 + b, trace := t), steps)
            == m.(pc := if c + 1 < size then k + 1 else k + b + 5, gp := m.gp[iter := c + 1],
                  below := c + 1 < size, trace := t)
  {
    PassTail(code, env, m.(pc := k + 2 + b, trace := t), iter, size, c, steps);
  }

  lemma Join(code: seq<Instr>, env: Env, m: Machine, mid: Machine, end: Machine, a: nat, b: nat, total: nat)
    requires Exec(code, env, m, a) == mid && Exec(code, env, mid, b) == end && total == a + b
    ensures Exec(code, env, m, total) == end
  {
    ExecAdd(code, env, m, a, b);
  }


  /** The end of a pass: the counter step, the comparison with the element
      count, and the branch, which goes back to the label exactly when the
      advanced counter is still below the count. */
  lemma PassTail(code: seq<Instr>, env: Env, m: Machine, iter: AddrReg, size: nat, c: int, steps: nat)
    requires steps == 3
    requires m.status == Running && m.pc + 3 <= |code|
    requires code[m.pc] == AddImm(iter, 1) && code[m.pc + 1] == CmpImm(iter, size) && code[m.pc + 2] == Jb(LoopLabel)
    requires iter in m.gp && m.gp[iter] == c
    ensures Exec(code, env, m, steps)
            == m.(pc := if c + 1 < size then FirstBind(code, LoopLabel, 0) else m.pc + 3,
                  gp := m.gp[iter := c + 1], below := c + 1 < size)
  {
    var m1 := m.(pc := m.pc + 1, gp := m.gp[iter := c + 1]);
    var m2 := m1.(pc := m.pc + 2, below := c + 1 < size);
    var m3 := m2.(pc := if c + 1 < size then FirstBind(code, LoopLabel, 0) else m.pc + 3);
    AddStep(code, env, m, iter, c);
    CmpStep(code, env, m1, iter, size);
    JbStep(code, env, m2);
    Join(code, env, m1, m2, m3, 1, 1, 2);
    Join(code, env, m, m1, m3, 1, 2, steps);
  }

  lemma AddStep(code: seq<Instr>, env: Env, m: Machine, iter: AddrReg, c: int)
    requires m.status == Running && m.pc < |code| && code[m.pc] == AddImm(iter, 1)
    requires iter in m.gp && m.gp[iter] == c
    ensures Exec(code, env, m, 1) == m.(pc := m.pc + 1, gp := m.gp[iter := c + 1])
  {
  }

  lemma CmpStep(code: seq<Instr>, env: Env, m: Machine, iter: AddrReg, size: nat)
    requires m.status == Running && m.pc < |code| && code[m.pc] == CmpImm(iter, size) && iter in m.gp
    ensures Exec(code, env, m, 1) == m.(pc := m.pc + 1, below := m.gp[iter] < size)
  {
  }

  lemma JbStep(code: seq<Instr>, env: Env, m: Machine)
    requires m.status == Running && m.pc < |code| && code[m.pc] == Jb(LoopLabel)
    ensures Exec(code, env, m, 1) == m.(pc := if m.below then FirstBind(code, LoopLabel, 0) else m.pc + 1)
  {
  }

  /** The machine at the end of a pass from `m`, which is at the label of
      a routine with `k` buffers and a pass of `passLen` instructions,
      once the pass has left the trace `t`. */
  function PassEnd(m: Machine, k: nat, passLen: nat, iter: AddrReg, size: nat, t: seq<Access>): Machine
    requires iter in m.gp
  {
    var c := m.gp[iter];
    m.(pc := if c + 1 < size then k + 1 else k + passLen + 1, gp := m.gp[iter := c + 1],
       below := c + 1 < size, trace := t)
  }

  /** The machine after one pass from the label, with `n` of the `k`
      buffers read and the rest written at the counter. */
  function AfterPass(m: Machine, args: seq<int>, k: nat, n: nat, iter: AddrReg, size: nat, passLen: nat): Machine
    requires iter in m.gp && n <= |args|
  {
    PassEnd(m, k, passLen, iter, size, m.trace + PassTrace(args, n, m.gp[iter]))
  }

  /** Every pass from the label takes `passLen` steps and ends as
      `AfterPass` says. */
  ghost predicate PassLaw(code: seq<Instr>, env: Env, bases: seq<AddrReg>, n: nat, iter: AddrReg, size: nat, passLen: nat)
    requires n <= |env.args|
  {
    forall m: Machine {:trigger Exec(code, env, m, passLen)}
      | m.status == Running && m.pc == |bases| + 1 && Loaded(m.gp, bases, env.args) && iter in m.gp ::
      Exec(code, env, m, passLen) == AfterPass(m, env.args, |bases|, n, iter, size, passLen)
  }

  /** One pass, given where the label, the body and the tail sit: the
      body's accesses are appended to the trace and the tail decides
      where the pass ends. */
  lemma PassAt(code: seq<Instr>, env: Env, m: Machine, k: nat, body: seq<Instr>, iter: AddrReg, size: nat, t: seq<Access>)
    requires m.status == Running && m.pc == k + 1 && iter in m.gp
    requires PassShape(code, k, body, iter, size)
    requires AllPlain(body, m.gp)
    requires t == m.trace + Accesses(body, m.gp)
    ensures Exec(code, env, m, |body| + 4) == PassEnd(m, k, |body| + 4, iter, size, t)
  {
    PassBody(code, env, m, k, body, t);
    PassJoin(code, env, m, k, |body|, iter, size, m.gp[iter], t);
  }

  /** The pass law holds for every routine of the compiled shape. */
  lemma PassLawHolds(code: seq<Instr>, env: Env, inBases: seq<AddrReg>, outBases: seq<AddrReg>,
                     iter: AddrReg, size: nat, loads: seq<Instr>, ops: seq<Instr>, stores: seq<Instr>)
    requires CompiledShape(code, env, inBases, outBases, iter, size, loads, ops, stores)
    ensures PassLaw(code, env, inBases + outBases, |inBases|, iter, size, |loads| + |ops| + |stores| + 4)
    ensures |inBases + outBases| + (|loads| + |ops| + |stores| + 4) + 1 < |code|
    ensures code[|inBases + outBases| + (|loads| + |ops| + |stores| + 4) + 1] == Ret
  {
    var body := loads + ops + stores;
    assert |body| == |loads| + |ops| + |stores|;
    assert PassShape(code, |inBases| + |outBases|, body, iter, size);
    PassLawFromShape(code, env, inBases, outBases, iter, size, loads, ops, stores);
  }

  lemma PassLawFromShape(code: seq<Instr>, env: Env, inBases: seq<AddrReg>, outBases: seq<AddrReg>,
                         iter: AddrReg, size: nat, loads: seq<Instr>, ops: seq<Instr>, stores: seq<Instr>)
    requires PassShape(code, |inBases| + |outBases|, loads + ops + stores, iter, size)
    requires LoopBodyShape(loads, ops, stores, inBases, outBases, iter)
    requires |env.args| == |inBases| + |outBases|
    ensures PassLaw(code, env, inBases + outBases, |inBases|, iter, size, |loads| + |ops| + |stores| + 4)
  {
    var bases := inBases + outBases;
    forall m: Machine | m.status == Running && m.pc == |bases| + 1 && Loaded(m.gp, bases, env.args) && iter in m.gp
      ensures Exec(code, env, m, |loads| + |ops| + |stores| + 4)
              == AfterPass(m, env.args, |bases|, |inBases|, iter, size, |loads| + |ops| + |stores| + 4)
    {
      PassFrom(code, env, m, inBases, outBases, iter, size, loads, ops, stores);
    }
  }

  /** One pass of a routine of the compiled shape, from the label. */
  lemma PassFrom(code: seq<Instr>, env: Env, m: Machine, inBases: seq<AddrReg>, outBases: seq<AddrReg>,
                 iter: AddrReg, size: nat, loads: seq<Instr>, ops: seq<Instr>, stores: seq<Instr>)
    requires PassShape(code, |inBases| + |outBases|, loads + ops + stores, iter, size)
    requires LoopBodyShape(loads, ops, stores, inBases, outBases, iter)
    requires |env.args| == |inBases| + |outBases|
    requires m.status == Running && m.pc == |inBases| + |outBases| + 1
    requires Loaded(m.gp, inBases + outBases, env.args) && iter in m.gp
    ensures Exec(code, env, m, |loads| + |ops| + |stores| + 4)
            == AfterPass(m, env.args, |inBases| + |outBases|, |inBases|, iter, size, |loads| + |ops| + |stores| + 4)
  {
    var body := loads + ops + stores;
    BodyAccesses(loads, ops, stores, inBases, outBases, iter, m.gp, env.args, m.gp[iter]);
    PassAt(code, env, m, |inBases| + |outBases|, body, iter, size, m.trace + Accesses(body, m.gp));
  }

  /** Steps of `passes` passes of `passLen` instructions each, and the
      return. */
  function LoopSteps(passes: nat, passLen: nat): nat {
    if passes == 0 then 1 else passLen + LoopSteps(passes - 1, passLen)
  }

  /** From the label before pass `c`, the remaining passes run and the
      routine returns, having made the accesses of every pass in order. */
  lemma {:induction false} LoopFrom(code: seq<Instr>, env: Env, m: Machine, bases: seq<AddrReg>, n: nat,
                                    iter: AddrReg, size: nat, passLen: nat, c: nat)
    requires n <= |env.args| && PassLaw(code, env, bases, n, iter, size, passLen)
    requires |bases| + passLen + 1 < |code| && code[|bases| + passLen + 1] == Ret
    requires Loaded(m.gp, bases, env.args) && iter !in bases
    requires iter in m.gp && m.gp[iter] == c
    requires m.status == Running && m.pc == |bases| + 1
    requires c < PassCount(size) && m.trace == Passes(env.args, n, c)
    ensures var m' := Exec(code, env, m, LoopSteps(PassCount(size) - c, passLen));
            && m'.status == Halted && m'.trace == Passes(env.args, n, PassCount(size))
    decreases PassCount(size) - c
  {
    var r := PassCount(size) - c;
    var m1 := AfterPass(m, env.args, |bases|, n, iter, size, passLen);
    OnePass(code, env, m, bases, n, iter, size, passLen, c);
    var rest := LoopSteps(r - 1, passLen);
    var end := Exec(code, env, m1, rest);
    if c + 1 < PassCount(size) {
      LoadedAfterStep(m.gp, bases, env.args, iter, c + 1);
      LoopFrom(code, env, m1, bases, n, iter, size, passLen, c + 1);
    } else {
      AtReturn(code, env, m1, rest);
    }
    Join(code, env, m, m1, end, passLen, rest, LoopSteps(r, passLen));
  }

  /** Pass `c` under the pass law: the machine comes back to the label
      with the counter advanced while passes remain, and the trace grows
      by the pass. */
  lemma OnePass(code: seq<Instr>, env: Env, m: Machine, bases: seq<AddrReg>, n: nat,
                iter: AddrReg, size: nat, passLen: nat, c: nat)
    requires n <= |env.args| && PassLaw(code, env, bases, n, iter, size, passLen)
    requires Loaded(m.gp, bases, env.args) && iter in m.gp && m.gp[iter] == c
    requires m.status == Running && m.pc == |bases| + 1 && m.trace == Passes(env.args, n, c)
    ensures var m1 := AfterPass(m, env.args, |bases|, n, iter, size, passLen);
            && Exec(code, env, m, passLen) == m1
            && m1.trace == Passes(env.args, n, c + 1) && m1.status == Running
            && m1.gp == m.gp[iter := c + 1]
            && m1.pc == if c + 1 < size then |bases| + 1 else |bases| + passLen + 1
  {
  }

  /** The return halts the machine and records nothing. */
  lemma AtReturn(code: seq<Instr>, env: Env, m: Machine, steps: nat)
    requires m.status == Running && m.pc < |code| && code[m.pc] == Ret && steps == 1
    ensures Exec(code, env, m, steps) == m.(status := Halted)
  {
  }

  /** Advancing the counter leaves the buffer pointers in place. */
  lemma LoadedAfterStep(gp: map<AddrReg, int>, bases: seq<AddrReg>, args: seq<int>, iter: AddrReg, v: int)
    requires Loaded(gp, bases, args) && iter !in bases
    ensures Loaded(gp[iter := v], bases, args)
  {
  }

  /** Steps a routine with `k` buffers and `b` body instructions takes for
      `passes` passes: the pointer loads, the counter reset, each pass,
      and the return. */
  function RoutineSteps(k: nat, passLen: nat, passes: nat): nat {
    k + 1 + LoopSteps(passes, passLen)
  }

  /** From the label with the counter at zero and the pass law in force,
      the routine returns after every pass, and stays there. */
  ghost predicate LoopReady(code: seq<Instr>, env: Env, bases: seq<AddrReg>, n: nat, iter: AddrReg, size: nat, passLen: nat) {
    && n <= |env.args|
    && AtLabel(Exec(code, env, Start(), |bases| + 1), bases, env.args, iter)
    && PassLaw(code, env, bases, n, iter, size, passLen)
    && |bases| + passLen + 1 < |code|
    && code[|bases| + passLen + 1] == Ret
  }

  lemma LoopRun(code: seq<Instr>, env: Env, bases: seq<AddrReg>, n: nat, iter: AddrReg, size: nat, passLen: nat)
    requires LoopReady(code, env, bases, n, iter, size, passLen)
    ensures forall fuel: nat | fuel >= RoutineSteps(|bases|, passLen, PassCount(size)) ::
              && Exec(code, env, Start(), fuel).status == Halted
              && Exec(code, env, Start(), fuel).trace == Passes(env.args, n, PassCount(size))
  {
    var entry := |bases| + 1;
    var m := Exec(code, env, Start(), entry);
    LoopFrom(code, env, m, bases, n, iter, size, passLen, 0);
    var loop := LoopSteps(PassCount(size), passLen);
    var done := Exec(code, env, m, loop);
    var steps := entry + loop;
    Join(code, env, Start(), m, done, entry, loop, steps);
    forall fuel: nat | fuel >= steps
      ensures Exec(code, env, Start(), fuel) == done
    {
      ExecAdd(code, env, Start(), steps, fuel - steps);
      ExecHalted(code, env, done, fuel - steps);
    }
  }

  /** A routine of the compiled shape, called with an argument array that
      holds one pointer per buffer, returns after one pass per element
      (one pass when there are none), having read element `c` of every
      input and written element `c` of every output on pass `c`; running
      it longer changes nothing. */
  lemma RoutineRuns(code: seq<Instr>, env: Env, inBases: seq<AddrReg>, outBases: seq<AddrReg>,
                    iter: AddrReg, size: nat, loads: seq<Instr>, ops: seq<Instr>, stores: seq<Instr>)
    requires CompiledShape(code, env, inBases, outBases, iter, size, loads, ops, stores)
    ensures forall fuel: nat | fuel >= RoutineSteps(|inBases + outBases|, |loads| + |ops| + |stores| + 4, PassCount(size)) ::
              && Exec(code, env, Start(), fuel).status == Halted
              && Exec(code, env, Start(), fuel).trace == Passes(env.args, |inBases|, PassCount(size))
  {
    Ready(code, env, inBases, outBases, iter, size, loads, ops, stores);
    LoopRun(code, env, inBases + outBases, |inBases|, iter, size, |loads| + |ops| + |stores| + 4);
  }

  lemma Ready(code: seq<Instr>, env: Env, inBases: seq<AddrReg>, outBases: seq<AddrReg>,
              iter: AddrReg, size: nat, loads: seq<Instr>, ops: seq<Instr>, stores: seq<Instr>)
    requires CompiledShape(code, env, inBases, outBases, iter, size, loads, ops, stores)
    ensures LoopReady(code, env, inBases + outBases, |inBases|, iter, size, |loads| + |ops| + |stores| + 4)
  {
    Entry(code, env, inBases, outBases, iter, size, loads, ops, stores);
    PassLawHolds(code, env, inBases, outBases, iter, size, loads, ops, stores);
  }

  /** End to end: a routine `compile` accepted, called by the wrapper on
      usable inputs, returns after one pass per element (one when there
      are none), and pass `c` reads element `c` of every input buffer and
      then writes element `c` of every freshly allocated output buffer,
      in argument order. */
  lemma CompiledRoutineRuns(g: Graph, inputs: seq<IValue>, isWinOS: bool, backend: seq<Instr> -> bool, alloc: nat -> int)
    returns (steps: nat)
    requires WellFormed(g) && |inputs| == |g.inputs| && Distinct(g.inputs + g.outputs)
    requires Compile(g, inputs, isWinOS, backend).Ok?
    requires Invoke(Compile(g, inputs, isWinOS, backend).value, inputs, alloc).Ok?
    ensures var rt := Compile(g, inputs, isWinOS, backend).value;
            var inv := Invoke(rt, inputs, alloc).value;
            var env := Env(ArgPointer(isWinOS), inv.args);
            forall fuel: nat | fuel >= steps ::
              && Exec(rt.code, env, Start(), fuel).status == Halted
              && Exec(rt.code, env, Start(), fuel).trace == Passes(inv.args, |inputs|, PassCount(inputs[0].numel))
  {
    var rt := Compile(g, inputs, isWinOS, backend).value;
    var inBases, outBases, iter, st4, loads, ops, stores := CompiledLayout(g, inputs, isWinOS, backend);
    var inv := Invoke(rt, inputs, alloc).value;
    var env := Env(ArgPointer(isWinOS), inv.args);
    SkeletonAt(rt.code, env.argReg, inBases, outBases, iter, rt.size, loads, ops, stores);
    assert CompiledShape(rt.code, env, inBases, outBases, iter, rt.size, loads, ops, stores);
    RoutineRuns(rt.code, env, inBases, outBases, iter, rt.size, loads, ops, stores);
    steps := RoutineSteps(|inBases + outBases|, |loads| + |ops| + |stores| + 4, PassCount(rt.size));
  }
}
