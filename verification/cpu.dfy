/**
  What the emitted instructions do when the routine is called: a small
  machine over the address registers, the argument array and a
  comparison flag, which records every element access it makes. Values
  in the scalar registers and the floating-point arithmetic are not
  modelled; the machine tracks where the routine reads and writes, and
  how often it goes round the loop.
 */
module Cpu {
  import opened Isa
  import opened Seqs

  /** One element access of the routine, by address. */
  datatype Access = Read(readAt: int) | Write(writeAt: int)

  datatype Status = Running | Halted | Faulted

  /** The calling context: the register that holds the address of the
      argument array, and the array's entries. */
  datatype Env = Env(argReg: PointerReg, args: seq<int>)

  datatype Machine = Machine(pc: nat, gp: map<AddrReg, int>, below: bool, trace: seq<Access>, status: Status)

  /** The machine at the routine's entry. */
  function Start(): Machine {
    Machine(0, map[], false, [], Running)
  }

  /** `x` shifted left by `shift` bits. */
  function Shl(x: int, shift: nat): int {
    if shift == 0 then x else 2 * Shl(x, shift - 1)
  }

  /** The position of the first `Bind(l)` at or after `from`, or `|code|`
      when there is none: where a branch to label `l` lands. */
  function FirstBind(code: seq<Instr>, l: nat, from: nat): nat
    requires from <= |code|
    decreases |code| - from
  {
    if from == |code| then |code|
    else if code[from] == Bind(l) then from
    else FirstBind(code, l, from + 1)
  }

  /** A branch lands on the first binding of its label. */
  lemma {:induction false} FirstBindAt(code: seq<Instr>, l: nat, from: nat, p: nat)
    requires from <= p < |code| && code[p] == Bind(l)
    requires forall i | from <= i < p :: code[i] != Bind(l)
    ensures FirstBind(code, l, from) == p
    decreases p - from
  {
    if from < p {
      FirstBindAt(code, l, from + 1, p);
    }
  }

  /** The address a scaled-index operand names. */
  function Address(gp: map<AddrReg, int>, base: AddrReg, index: AddrReg, shift: nat): int
    requires base in gp && index in gp
  {
    gp[base] + Shl(gp[index], shift)
  }

  /** One instruction. A pointer load reads entry `offset / 8` of the
      argument array through the argument register; anything the model
      cannot give a meaning to (a missing register, a misaligned or
      out-of-range entry, running off the end of the code) faults. */
  function Step(code: seq<Instr>, env: Env, m: Machine): Machine
    requires m.status == Running
  {
    if m.pc >= |code| then m.(status := Faulted)
    else
      var next := m.pc + 1;
      match code[m.pc]
      case LoadPointer(d, p, off) =>
        if p == env.argReg && off % PointerBytes == 0 && off / PointerBytes < |env.args|
        then m.(pc := next, gp := m.gp[d := env.args[off / PointerBytes]])
        else m.(status := Faulted)
      case SetImm(d, v) => m.(pc := next, gp := m.gp[d := v])
      case Bind(_) => m.(pc := next)
      case LoadElement(_, b, i, sh) =>
        if b in m.gp && i in m.gp
        then m.(pc := next, trace := m.trace + [Read(Address(m.gp, b, i, sh))])
        else m.(status := Faulted)
      case Movaps(_, _) => m.(pc := next)
      case Mulss(_, _) => m.(pc := next)
      case StoreElement(b, i, sh, _) =>
        if b in m.gp && i in m.gp
        then m.(pc := next, trace := m.trace + [Write(Address(m.gp, b, i, sh))])
        else m.(status := Faulted)
      case AddImm(d, k) =>
        if d in m.gp then m.(pc := next, gp := m.gp[d := m.gp[d] + k]) else m.(status := Faulted)
      case CmpImm(r, bound) =>
        if r in m.gp then m.(pc := next, below := m.gp[r] < bound) else m.(status := Faulted)
      case Jb(l) => if m.below then m.(pc := FirstBind(code, l, 0)) else m.(pc := next)
      case Ret => m.(status := Halted)
  }

  /** At most `fuel` steps, stopping once the machine halts or faults. */
  function Exec(code: seq<Instr>, env: Env, m: Machine, fuel: nat): Machine
    decreases fuel
  {
    if fuel == 0 || m.status != Running then m
    else Exec(code, env, Step(code, env, m), fuel - 1)
  }

  /** Running `a` steps and then `b` more is running `a + b` steps. */
  lemma {:induction false} ExecAdd(code: seq<Instr>, env: Env, m: Machine, a: nat, b: nat)
    ensures Exec(code, env, m, a + b) == Exec(code, env, Exec(code, env, m, a), b)
    decreases a
  {
    if a > 0 && m.status == Running {
      ExecAdd(code, env, Step(code, env, m), a - 1, b);
    }
  }

  /** A halted machine stays as it is. */
  lemma ExecHalted(code: seq<Instr>, env: Env, m: Machine, fuel: nat)
    requires m.status == Halted
    ensures Exec(code, env, m, fuel) == m
  {
  }

  // ---------------------------------------------------------------------
  // Straight-line code
  // ---------------------------------------------------------------------

  /** Instructions that neither branch nor change an address register. */
  predicate Plain(i: Instr) {
    i.LoadElement? || ScalarOp(i) || i.StoreElement?
  }

  predicate OperandsIn(i: Instr, gp: map<AddrReg, int>) {
    && (i.LoadElement? ==> i.loadBase in gp && i.loadIndex in gp)
    && (i.StoreElement? ==> i.storeBase in gp && i.storeIndex in gp)
  }

  /** The accesses a plain instruction makes; an element access whose
      registers are not all set makes none here (the machine faults on
      it instead, and the lemmas below only ask about instructions whose
      operands are set). */
  function AccessOf(i: Instr, gp: map<AddrReg, int>): seq<Access> {
    match i
    case LoadElement(_, b, x, sh) => if b in gp && x in gp then [Read(Address(gp, b, x, sh))] else []
    case StoreElement(b, x, sh, _) => if b in gp && x in gp then [Write(Address(gp, b, x, sh))] else []
    case _ => []
  }

  /** A run of plain instructions whose operands are all available. */
  predicate AllPlain(xs: seq<Instr>, gp: map<AddrReg, int>) {
    forall i | 0 <= i < |xs| :: Plain(xs[i]) && OperandsIn(xs[i], gp)
  }

  /** The accesses a run of plain instructions makes, in order. */
  function Accesses(instrs: seq<Instr>, gp: map<AddrReg, int>): seq<Access>
    decreases |instrs|
  {
    if |instrs| == 0 then [] else AccessOf(instrs[0], gp) + Accesses(instrs[1..], gp)
  }

  lemma {:induction false} AccessesAppend(xs: seq<Instr>, ys: seq<Instr>, gp: map<AddrReg, int>)
    ensures Accesses(xs + ys, gp) == Accesses(xs, gp) + Accesses(ys, gp)
    decreases |xs|
  {
    if |xs| == 0 {
      assert xs + ys == ys;
    } else {
      assert (xs + ys)[0] == xs[0] && (xs + ys)[1..] == xs[1..] + ys;
      AccessesAppend(xs[1..], ys, gp);
      AppendAssoc(AccessOf(xs[0], gp), Accesses(xs[1..], gp), Accesses(ys, gp));
    }
  }

  /** A run of plain instructions executes one after the other, leaves
      the address registers alone and records exactly its accesses. */
  lemma {:induction false} StraightLine(code: seq<Instr>, env: Env, m: Machine, len: nat)
    requires m.status == Running && m.pc + len <= |code|
    requires AllPlain(code[m.pc..m.pc + len], m.gp)
    ensures Exec(code, env, m, len)
         == m.(pc := m.pc + len, trace := m.trace + Accesses(code[m.pc..m.pc + len], m.gp))
    decreases len
  {
    var seg := code[m.pc..m.pc + len];
    if len == 0 {
      assert m.trace + Accesses(seg, m.gp) == m.trace;
    } else {
      var i := code[m.pc];
      assert i == seg[0];
      var m1 := m.(pc := m.pc + 1, trace := m.trace + AccessOf(i, m.gp));
      PlainExec(code, env, m, len);
      assert seg[1..] == code[m1.pc..m1.pc + (len - 1)];
      PlainTail(seg, m.gp);
      StraightLine(code, env, m1, len - 1);
      AppendAssoc(m.trace, AccessOf(i, m.gp), Accesses(seg[1..], m.gp));
    }
  }

  /** A plain instruction moves on to the next one and records its
      access. */
  lemma PlainExec(code: seq<Instr>, env: Env, m: Machine, len: nat)
    requires m.status == Running && m.pc < |code| && Plain(code[m.pc]) && OperandsIn(code[m.pc], m.gp) && len > 0
    ensures Exec(code, env, m, len)
         == Exec(code, env, m.(pc := m.pc + 1, trace := m.trace + AccessOf(code[m.pc], m.gp)), len - 1)
  {
    assert Step(code, env, m) == m.(pc := m.pc + 1, trace := m.trace + AccessOf(code[m.pc], m.gp));
  }

  lemma PlainTail(xs: seq<Instr>, gp: map<AddrReg, int>)
    requires |xs| > 0 && AllPlain(xs, gp)
    ensures AllPlain(xs[1..], gp)
  {
  }

}
