/**
  What the loop body computes, element by element: a symbolic reading of
  the element loads, copies, products and stores, next to the value the
  graph assigns to each of its values. The machine of the `Cpu` module
  tracks addresses; this one tracks which product of input elements
  each scalar register holds.
 */
module Dataflow {
  import opened Isa
  import opened Ir

  /** A scalar as a product of input elements at the current index:
      `Elem(i)` is the element of argument buffer `i`; `Unknown` stands
      for a value the model gives no meaning to (an unbound register, or
      the result of an unsupported operator). */
  datatype Term = Elem(slot: nat) | Times(left: Term, right: Term) | Unknown

  /** The first position of `v` in `s`. */
  function Slot(s: seq<ValueId>, v: ValueId): (i: nat)
    requires v in s
    ensures i < |s| && s[i] == v
  {
    if s[0] == v then 0 else 1 + Slot(s[1..], v)
  }

  /** The value `v` stands for when only the nodes before position `k`
      have run: the element of its argument buffer for a graph input,
      the product of its operands' values for the result of a
      multiplication, and `Unknown` otherwise. */
  function Meaning(g: Graph, v: ValueId, k: nat): Term
    requires k <= |g.nodes|
    decreases k
  {
    if k == 0 then
      if v in g.inputs then Elem(Slot(g.inputs, v)) else Unknown
    else
      var n := g.nodes[k - 1];
      if v !in n.outputs then Meaning(g, v, k - 1)
      else if n.kind.Mul? && |n.inputs| == 2 then
        Times(Meaning(g, n.inputs[0], k - 1), Meaning(g, n.inputs[1], k - 1))
      else Unknown
  }

  /** The scalar registers' contents and the terms stored so far, by
      argument buffer. */
  datatype Flow = Flow(xmm: map<ValueReg, Term>, stored: map<nat, Term>)

  datatype Outcome = Stuck | Finished(flow: Flow)

  /** The body, with `bufs` telling which argument buffer each address
      register points to. Loads, copies, products and stores act on the
      terms; anything else, or a register that holds nothing, gets the
      body stuck. */
  function BodyFlow(body: seq<Instr>, bufs: map<AddrReg, nat>, f: Flow): Outcome
    decreases |body|
  {
    if |body| == 0 then Finished(f)
    else
      match FlowStep(body[0], bufs, f)
      case Stuck => Stuck
      case Finished(f1) => BodyFlow(body[1..], bufs, f1)
  }

  /** One instruction of the body. */
  function FlowStep(i: Instr, bufs: map<AddrReg, nat>, f: Flow): Outcome {
    match i
    case LoadElement(d, b, _, _) =>
      if b in bufs then Finished(f.(xmm := f.xmm[d := Elem(bufs[b])])) else Stuck
    case Movaps(d, s) =>
      if s in f.xmm then Finished(f.(xmm := f.xmm[d := f.xmm[s]])) else Stuck
    case Mulss(d, s) =>
      if d in f.xmm && s in f.xmm then Finished(f.(xmm := f.xmm[d := Times(f.xmm[d], f.xmm[s])])) else Stuck
    case StoreElement(b, _, _, s) =>
      if b in bufs && s in f.xmm then Finished(f.(stored := f.stored[bufs[b] := f.xmm[s]])) else Stuck
    case _ => Stuck
  }

  /** Running `p + q` is running `p`, then `q` from where `p` finished. */
  lemma {:induction false} FlowAppend(p: seq<Instr>, q: seq<Instr>, bufs: map<AddrReg, nat>, f: Flow)
    ensures BodyFlow(p + q, bufs, f)
         == match BodyFlow(p, bufs, f)
            case Stuck => Stuck
            case Finished(f1) => BodyFlow(q, bufs, f1)
    decreases |p|
  {
    if |p| == 0 {
      assert p + q == q;
    } else {
      assert (p + q)[0] == p[0] && (p + q)[1..] == p[1..] + q;
      match FlowStep(p[0], bufs, f)
      case Stuck =>
      case Finished(f1) => FlowAppend(p[1..], q, bufs, f1);
    }
  }

  /** The body stores, into the buffer of every graph output, the value
      the graph assigns to that output. Output `j`'s buffer is argument
      `|g.inputs| + j`. */
  predicate Computes(g: Graph, body: seq<Instr>, bufs: map<AddrReg, nat>) {
    var r := BodyFlow(body, bufs, Flow(map[], map[]));
    && r.Finished?
    && forall j | 0 <= j < |g.outputs| ::
         && |g.inputs| + j in r.flow.stored
         && r.flow.stored[|g.inputs| + j] == Meaning(g, g.outputs[j], |g.nodes|)
  }
}
