/**
  The dataflow graph the compiler consumes, as an arena: values are dense
  integer ids, nodes are addressed by their position in topological
  order, and every value carries its use-list.
 */
module Ir {

  type ValueId = nat
  type NodeId = nat

  /** Operator kinds. Only `Mul` (aten::mul) is code-generated; every
      other kind is carried by name. */
  datatype Kind = Mul | Other(name: string)

  datatype Node = Node(kind: Kind, inputs: seq<ValueId>, outputs: seq<ValueId>)

  /** One entry of a use-list: the node that reads the value, or the
      graph's return node, which reads every graph output and is never
      one of the graph's own nodes. */
  datatype User = Op(node: NodeId) | Return

  /** `uses[v]` is the use-list of value `v`, one entry per input slot
      that reads `v`; every value id is below `|uses|`. */
  datatype Graph = Graph(nodes: seq<Node>, inputs: seq<ValueId>, outputs: seq<ValueId>, uses: seq<seq<User>>)

  /** `PointwiseCompiler::supported`: the operator whitelist. */
  predicate Supported(k: Kind) {
    match k
    case Mul => true
    case Other(_) => false
  }

  predicate InArena(g: Graph, vs: seq<ValueId>) {
    forall i | 0 <= i < |vs| :: vs[i] < |g.uses|
  }

  /** A node refers only to values of the arena, and a multiplication has
      the two operands and one result of `aten::mul(Tensor, Tensor)`. */
  predicate NodeWellFormed(g: Graph, n: Node) {
    && InArena(g, n.inputs)
    && InArena(g, n.outputs)
    && (n.kind.Mul? ==> |n.inputs| == 2 && |n.outputs| == 1)
  }

  predicate WellFormed(g: Graph) {
    && InArena(g, g.inputs)
    && InArena(g, g.outputs)
    && forall k | 0 <= k < |g.nodes| :: NodeWellFormed(g, g.nodes[k])
  }

  /** The use-lists agree with the nodes: value `v` lists node `k` once
      per input slot of `k` that reads `v`, lists the return node once per
      graph output slot that is `v`, and lists nothing else. */
  predicate UsesConsistent(g: Graph)
    requires WellFormed(g)
  {
    && (forall v, k | 0 <= v < |g.uses| && 0 <= k < |g.nodes| ::
          multiset(g.uses[v])[Op(k)] == multiset(g.nodes[k].inputs)[v])
    && (forall v | 0 <= v < |g.uses| :: multiset(g.uses[v])[Return] == multiset(g.outputs)[v])
    && (forall v, i | 0 <= v < |g.uses| && 0 <= i < |g.uses[v]| ::
          g.uses[v][i].Op? ==> g.uses[v][i].node < |g.nodes|)
  }

  /** Value `v` is the result of some node before position `k`. */
  predicate DefinedBefore(g: Graph, v: ValueId, k: nat)
    requires k <= |g.nodes|
  {
    exists j | 0 <= j < k :: v in g.nodes[j].outputs
  }

  /** Every node input and every graph output is a graph input or the
      result of an earlier node. */
  predicate Topological(g: Graph) {
    && (forall k | 0 <= k < |g.nodes| ::
          forall v <- g.nodes[k].inputs :: v in g.inputs || DefinedBefore(g, v, k))
    && (forall v <- g.outputs :: v in g.inputs || DefinedBefore(g, v, |g.nodes|))
  }

  /** The nodes visited once the walk has inserted node `k`. */
  function Through(k: nat): (s: set<NodeId>)
    ensures forall j: nat :: j in s <==> j <= k
  {
    if k == 0 then {0} else Through(k - 1) + {k}
  }

  predicate SeenUser(u: User, seen: set<NodeId>) {
    u.Op? && u.node in seen
  }

  /** Every entry of a use-list names an already visited node. */
  predicate AllUsersSeen(uses: seq<User>, seen: set<NodeId>) {
    forall i | 0 <= i < |uses| :: SeenUser(uses[i], seen)
  }

  /** The number of use-list entries whose node has been visited. */
  function CountSeen(uses: seq<User>, seen: set<NodeId>): (n: nat)
    ensures n <= |uses|
  {
    if |uses| == 0 then 0
    else (if SeenUser(uses[0], seen) then 1 else 0) + CountSeen(uses[1..], seen)
  }
}
