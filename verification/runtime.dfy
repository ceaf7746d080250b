/**
  `PointwiseCompiler::run` and the wrapper `compile` returns: the cache of
  compiled routines keyed by argument spec, the checks the wrapper makes
  on every call, the argument array it hands to the routine, and the
  stack discipline of the operator.
 */
module Runtime {
  import opened Isa
  import opened Ir
  import opened Results
  import opened Host
  import opened Codegen

  /** The compiler object of one fused subgraph: the subgraph, the
      platform's calling convention and the cache of routines. */
  datatype Compiler = Compiler(graph: Graph, isWinOS: bool, cache: map<ArgSpec, Routine>)

  /** A well-formed compiler: its graph is one `compile` accepts. */
  predicate Valid(c: Compiler) {
    WellFormed(c.graph)
  }

  /** The wrapper's checks on one input, in order, and the data pointer it
      passes on. */
  function DataPointer(v: IValue): (r: Result<int>)
    ensures r.Ok? <==> v.Tensor? && v.contiguous && v.onCpu
    ensures r.Ok? ==> r.value == v.data
    ensures !v.Tensor? ==> r == Fail(NotTensor)
  {
    if !v.Tensor? then Fail(NotTensor)
    else if !v.contiguous then Fail(NotContiguous)
    else if !v.onCpu then Fail(NotOnCpu)
    else Ok(v.data)
  }

  /** An input the wrapper accepts. */
  predicate Usable(v: IValue) {
    v.Tensor? && v.contiguous && v.onCpu
  }

  /** The input half of the argument array: the data pointers of the
      inputs, in order; the first input that fails a check decides the
      error. */
  function InputPointers(inputs: seq<IValue>): (r: Result<seq<int>>)
    ensures r.Ok? <==> forall i | 0 <= i < |inputs| :: Usable(inputs[i])
    ensures r.Ok? ==> |r.value| == |inputs| && forall i | 0 <= i < |inputs| :: r.value[i] == inputs[i].data
    ensures r.Fail? ==> r.error in {NotTensor, NotContiguous, NotOnCpu}
    decreases |inputs|
  {
    if |inputs| == 0 then Ok([])
    else
      var p :- DataPointer(inputs[0]);
      var rest :- InputPointers(inputs[1..]);
      assert forall i | 1 <= i < |inputs| :: inputs[i] == inputs[1..][i - 1];
      Ok([p] + rest)
  }

  /** One call of the routine: the argument array and the tensors it
      returns. */
  datatype Invocation = Invocation(args: seq<int>, outputs: seq<IValue>)

  /** The output tensors the wrapper allocates: `numOutputs` fresh,
      contiguous CPU tensors of `size` elements; `alloc(j)` is the data
      address of the j-th. */
  function FreshOutputs(size: nat, numOutputs: nat, alloc: nat -> int): (outs: seq<IValue>)
    ensures |outs| == numOutputs
    ensures forall j | 0 <= j < numOutputs :: outs[j] == Tensor(size, true, true, alloc(j))
  {
    seq(numOutputs, j requires 0 <= j < numOutputs => Tensor(size, true, true, alloc(j)))
  }

  function DataOf(vs: seq<IValue>): (ds: seq<int>)
    requires forall j | 0 <= j < |vs| :: vs[j].Tensor?
    ensures |ds| == |vs| && forall j | 0 <= j < |vs| :: ds[j] == vs[j].data
  {
    seq(|vs|, j requires 0 <= j < |vs| => vs[j].data)
  }

  /** The wrapper `compile` returns, applied to `inputs`: check every
      input, allocate the outputs, and lay out the argument array as the
      input pointers followed by the output pointers. The routine's
      effect on memory is not part of this function. */
  function Invoke(rt: Routine, inputs: seq<IValue>, alloc: nat -> int): (r: Result<Invocation>)
    ensures r.Ok? <==> forall i | 0 <= i < |inputs| :: Usable(inputs[i])
    ensures r.Fail? ==> r.error in {NotTensor, NotContiguous, NotOnCpu}
    ensures r.Ok? ==>
              && |r.value.args| == |inputs| + rt.numOutputs
              && (forall i | 0 <= i < |inputs| :: r.value.args[i] == inputs[i].data)
              && (forall i | |inputs| <= i < |r.value.args| :: r.value.args[i] == alloc(i - |inputs|))
              && r.value.outputs == FreshOutputs(rt.size, rt.numOutputs, alloc)
  {
    var ptrs :- InputPointers(inputs);
    var outs := FreshOutputs(rt.size, rt.numOutputs, alloc);
    Ok(Invocation(ptrs + DataOf(outs), outs))
  }

  /** `run`: take the last `|graph.inputs|` stack entries as arguments,
      compile for their spec unless the cache holds it, call the routine
      and replace the arguments on the stack by its outputs. The new
      compiler is returned even when the call fails, since the cache
      entry is made before the wrapper's checks. */
  function Run(c: Compiler, stack: seq<IValue>, backend: seq<Instr> -> bool, alloc: nat -> int)
    : (Compiler, Result<seq<IValue>>)
    requires Valid(c) && |stack| >= |c.graph.inputs|
  {
    var n := |c.graph.inputs|;
    var inputs := stack[|stack| - n..];
    match Lookup(c, inputs, backend)
    case Fail(e) => (c, Fail(e))
    case Ok(rt) =>
      var c' := c.(cache := c.cache[SpecOf(inputs) := rt]);
      match Invoke(rt, inputs, alloc)
      case Fail(e) => (c', Fail(e))
      case Ok(inv) => (c', Ok(stack[..|stack| - n] + inv.outputs))
  }

  /** The routine for `inputs`: the cached one, or what `compile` returns. */
  function Lookup(c: Compiler, inputs: seq<IValue>, backend: seq<Instr> -> bool): Result<Routine>
    requires Valid(c) && |inputs| == |c.graph.inputs|
  {
    if SpecOf(inputs) in c.cache then Ok(c.cache[SpecOf(inputs)])
    else Compile(c.graph, inputs, c.isWinOS, backend)
  }

  /** `run` as if there were no cache: compile on every call. */
  function RunUncached(g: Graph, isWinOS: bool, stack: seq<IValue>, backend: seq<Instr> -> bool, alloc: nat -> int)
    : Result<seq<IValue>>
    requires WellFormed(g) && |stack| >= |g.inputs|
  {
    var inputs := stack[|stack| - |g.inputs|..];
    var rt :- Compile(g, inputs, isWinOS, backend);
    var inv :- Invoke(rt, inputs, alloc);
    Ok(stack[..|stack| - |g.inputs|] + inv.outputs)
  }

  // ---------------------------------------------------------------------
  // Properties of the cache and the stack
  // ---------------------------------------------------------------------

  /** The arguments `run` passes: the last `|graph.inputs|` stack entries. */
  function Arguments(c: Compiler, stack: seq<IValue>): (args: seq<IValue>)
    requires |stack| >= |c.graph.inputs|
    ensures |args| == |c.graph.inputs|
    ensures stack[..|stack| - |c.graph.inputs|] + args == stack
  {
    stack[|stack| - |c.graph.inputs|..]
  }

  /** `compile` is called only when the spec of the arguments is not
      cached: a hit leaves the compiler as it was; a miss inserts what
      `compile` returns, unless it fails, in which case nothing changes. */
  lemma CompileOnlyOnMiss(c: Compiler, stack: seq<IValue>, backend: seq<Instr> -> bool, alloc: nat -> int)
    requires Valid(c) && |stack| >= |c.graph.inputs|
    ensures var args := Arguments(c, stack);
            var r := Run(c, stack, backend, alloc);
            && (SpecOf(args) in c.cache ==> r.0 == c)
            && (SpecOf(args) !in c.cache ==>
                  var built := Compile(c.graph, args, c.isWinOS, backend);
                  && (built.Ok? ==> r.0 == c.(cache := c.cache[SpecOf(args) := built.value]))
                  && (built.Fail? ==> r == (c, Fail(built.error))))
  {
    var spec := SpecOf(Arguments(c, stack));
    if spec in c.cache {
      assert c.cache[spec := c.cache[spec]] == c.cache;
    }
  }

  /** Two argument lists with the same key are compiled to the same
      routine: `compile` reads nothing of its arguments but what the key
      records. */
  lemma CompileDependsOnlyOnSpec(g: Graph, a: seq<IValue>, b: seq<IValue>, isWinOS: bool, backend: seq<Instr> -> bool)
    requires WellFormed(g) && |a| == |b| == |g.inputs| && SpecOf(a) == SpecOf(b)
    ensures Compile(g, a, isWinOS, backend) == Compile(g, b, isWinOS, backend)
  {
    forall i | 0 <= i < |a| ensures a[i].Tensor? == b[i].Tensor? && (a[i].Tensor? ==> a[i].numel == b[i].numel) {
      assert KeyOf(a[i]) == SpecOf(a)[i] == SpecOf(b)[i] == KeyOf(b[i]);
    }
    assert CheckInputs(a) == CheckInputs(b) by {
      if |a| > 0 {
        assert (exists i | 0 <= i < |a| :: !a[i].Tensor?) <==> (exists i | 0 <= i < |b| :: !b[i].Tensor?);
        if forall i | 0 <= i < |a| :: a[i].Tensor? {
          assert (exists i | 0 <= i < |a| :: a[i].numel != a[0].numel)
             <==> (exists i | 0 <= i < |b| :: b[i].numel != b[0].numel);
        }
      }
    }
  }

  /** Every cached routine is what `compile` returns for any arguments
      with its key. */
  ghost predicate CacheSound(c: Compiler, backend: seq<Instr> -> bool)
    requires Valid(c)
  {
    forall args: seq<IValue> | |args| == |c.graph.inputs| && SpecOf(args) in c.cache ::
      Compile(c.graph, args, c.isWinOS, backend) == Ok(c.cache[SpecOf(args)])
  }

  /** `run` keeps the cache sound. */
  lemma RunKeepsCacheSound(c: Compiler, stack: seq<IValue>, backend: seq<Instr> -> bool, alloc: nat -> int)
    requires Valid(c) && |stack| >= |c.graph.inputs| && CacheSound(c, backend)
    ensures Valid(Run(c, stack, backend, alloc).0) && Run(c, stack, backend, alloc).0.graph == c.graph
    ensures CacheSound(Run(c, stack, backend, alloc).0, backend)
  {
    var inputs := Arguments(c, stack);
    var spec := SpecOf(inputs);
    CompileOnlyOnMiss(c, stack, backend, alloc);
    var c' := Run(c, stack, backend, alloc).0;
    forall args: seq<IValue> | |args| == |c.graph.inputs| && SpecOf(args) in c'.cache
      ensures Compile(c.graph, args, c.isWinOS, backend) == Ok(c'.cache[SpecOf(args)])
    {
      if SpecOf(args) == spec && spec !in c.cache {
        CompileDependsOnlyOnSpec(c.graph, args, inputs, c.isWinOS, backend);
      }
    }
  }

  /** With a sound cache, `run` returns what compiling afresh on every
      call would return: the cache changes how often `compile` runs, not
      what `run` computes. */
  lemma CacheTransparent(c: Compiler, stack: seq<IValue>, backend: seq<Instr> -> bool, alloc: nat -> int)
    requires Valid(c) && |stack| >= |c.graph.inputs| && CacheSound(c, backend)
    ensures Run(c, stack, backend, alloc).1 == RunUncached(c.graph, c.isWinOS, stack, backend, alloc)
  {
    var args := Arguments(c, stack);
    assert Lookup(c, args, backend) == Compile(c.graph, args, c.isWinOS, backend);
  }

  /** Repeated runs with arguments of one key compile once: after a run
      that found or compiled a routine, whether or not the wrapper then
      accepted the arguments, a run with the same key leaves the compiler
      unchanged. */
  lemma CompilesOncePerSpec(c: Compiler, s1: seq<IValue>, s2: seq<IValue>, backend: seq<Instr> -> bool, alloc: nat -> int)
    requires Valid(c) && |s1| >= |c.graph.inputs| && |s2| >= |c.graph.inputs|
    requires SpecOf(Arguments(c, s1)) == SpecOf(Arguments(c, s2))
    requires Lookup(c, Arguments(c, s1), backend).Ok?
    ensures var c1 := Run(c, s1, backend, alloc).0;
            Valid(c1) && |s2| >= |c1.graph.inputs| && Run(c1, s2, backend, alloc).0 == c1
  {
    var c1 := Run(c, s1, backend, alloc).0;
    assert SpecOf(Arguments(c, s1)) in c1.cache;
    CompileOnlyOnMiss(c1, s2, backend, alloc);
  }

  /** The stack after a successful `run`: the arguments are dropped and
      one fresh tensor of the arguments' element count is pushed per
      graph output, in order. */
  lemma StackDiscipline(c: Compiler, stack: seq<IValue>, backend: seq<Instr> -> bool, alloc: nat -> int)
    requires Valid(c) && |stack| >= |c.graph.inputs| && CacheSound(c, backend)
    requires Run(c, stack, backend, alloc).1.Ok?
    ensures var n := |c.graph.inputs|;
            var out := Run(c, stack, backend, alloc).1.value;
            && ValidArgs(Arguments(c, stack))
            && out == stack[..|stack| - n] + FreshOutputs(stack[|stack| - n].numel, |c.graph.outputs|, alloc)
  {
    CacheTransparent(c, stack, backend, alloc);
    UncachedStack(c.graph, c.isWinOS, stack, backend, alloc);
  }

  lemma UncachedStack(g: Graph, isWinOS: bool, stack: seq<IValue>, backend: seq<Instr> -> bool, alloc: nat -> int)
    requires WellFormed(g) && |stack| >= |g.inputs| && RunUncached(g, isWinOS, stack, backend, alloc).Ok?
    ensures var n := |g.inputs|;
            && ValidArgs(stack[|stack| - n..])
            && RunUncached(g, isWinOS, stack, backend, alloc).value
               == stack[..|stack| - n] + FreshOutputs(stack[|stack| - n].numel, |g.outputs|, alloc)
  {
    var n := |g.inputs|;
    var args := stack[|stack| - n..];
    var rt := Compile(g, args, isWinOS, backend).value;
    assert args[0] == stack[|stack| - n];
  }

  /** The wrapper checks contiguity and device only when it is called,
      after `compile` has run and its routine has been cached: an
      argument list that passes `compile`'s checks but holds a
      non-contiguous or non-CPU tensor makes `run` fail, and still leaves
      a new cache entry behind. */
  lemma WrapperChecksAfterCaching(c: Compiler, stack: seq<IValue>, backend: seq<Instr> -> bool, alloc: nat -> int)
    requires Valid(c) && |stack| >= |c.graph.inputs|
    requires SpecOf(Arguments(c, stack)) !in c.cache
    requires Compile(c.graph, Arguments(c, stack), c.isWinOS, backend).Ok?
    requires exists i | 0 <= i < |c.graph.inputs| :: !Usable(Arguments(c, stack)[i])
    ensures var r := Run(c, stack, backend, alloc);
            && r.1.Fail? && r.1.error in {NotContiguous, NotOnCpu}
            && SpecOf(Arguments(c, stack)) in r.0.cache && r.0.cache.Keys == c.cache.Keys + {SpecOf(Arguments(c, stack))}
  {
    var args := Arguments(c, stack);
    var rt := Compile(c.graph, args, c.isWinOS, backend).value;
    assert forall i | 0 <= i < |args| :: args[i].Tensor? by {
      assert ValidArgs(args);
    }
    InputPointersNoTensorError(args);
    RunAfterLookup(c, stack, backend, alloc, rt);
  }

  /** Once the routine for the arguments is known, `run` caches it and
      passes on the wrapper's error, if any. */
  lemma RunAfterLookup(c: Compiler, stack: seq<IValue>, backend: seq<Instr> -> bool, alloc: nat -> int, rt: Routine)
    requires Valid(c) && |stack| >= |c.graph.inputs|
    requires Lookup(c, Arguments(c, stack), backend) == Ok(rt)
    ensures var r := Run(c, stack, backend, alloc);
            && r.0 == c.(cache := c.cache[SpecOf(Arguments(c, stack)) := rt])
            && r.0.cache.Keys == c.cache.Keys + {SpecOf(Arguments(c, stack))}
            && (InputPointers(Arguments(c, stack)).Fail? ==> r.1 == Fail(InputPointers(Arguments(c, stack)).error))
  {
  }

  /** Inputs that are all tensors never fail the type check. */
  lemma {:induction false} InputPointersNoTensorError(inputs: seq<IValue>)
    requires forall i | 0 <= i < |inputs| :: inputs[i].Tensor?
    ensures InputPointers(inputs).Fail? ==> InputPointers(inputs).error != NotTensor
    decreases |inputs|
  {
    if |inputs| > 0 {
      assert forall i | 0 <= i < |inputs| - 1 :: inputs[1..][i] == inputs[i + 1];
      InputPointersNoTensorError(inputs[1..]);
    }
  }
}
