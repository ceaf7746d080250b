# Pointwise JIT compiler: a Dafny model

This project models the core of a small pointwise JIT compiler for
PyTorch graphs (`src/compiler.cpp`). The compiler takes a fused subgraph
of `aten::mul` nodes and emits an x86 loop. Each pass of the loop does
four things:
- it loads one element of every input buffer into an XMM register;
- it runs the products with `movaps`/`mulss`;
- it stores every output element;
- it advances a counter until the element count is reached.

Registers come from a `RegisterManager`, which has two LIFO free pools:
six address registers and eight value registers. The manager frees a
value's register once every user of the value has been visited. Compiled
routines are cached under a key of the argument shapes and flags.

The model is split into these modules:

- `Isa`, `Results`, `Ir`, `Host`: the data model.
  - `Isa` is the emitted instructions. Labels are symbolic and there is no encoding.
  - `Results` is the error results that stand in for `TORCH_CHECK`.
  - `Ir` is the graph as an arena of nodes, with a use-list per value. A `Return` user stands for the graph's return node.
  - `Host` is the interpreter values and the cache key.
- `Registers`: `RegisterManager`, as an immutable record.
- `Planner`: `emitOperation` and the node walk of `compile`.
- `Codegen`: the argument checks, the loop skeleton and `compile`. The
  backend (`jit_runtime_.add`) is a predicate parameter that may refuse
  the code.
- `Runtime`: `run`, the compiled-code cache and the wrapper lambda.
  - Output allocation (`at::empty`) is the parameter `alloc`.
  - The compiled routine's call is modelled by `Cpu`.
- `Cpu`: a machine for the emitted code. It tracks the address
  registers, the argument array, the comparison flag and a trace of
  element reads and writes.
- `Dataflow`: which product of input elements each XMM register holds,
  and what each graph value means. This is used to check whether a loop
  body stores the value the graph returns.
- `PlannerFacts`, `CodegenFacts`, `ExecFacts`: properties of the above.
  `Walk` holds the single-step lemmas used to follow concrete runs, and
  `Seqs` holds sequence concatenation facts and `Flatten`.
- `Ownership`: the allocator's invariant over the node walk, which the walk
  keeps when no node reads a value twice. A live value is one with a reader not
  yet visited. Under the invariant the value pool holds each register
  once, no live value's register is free, and no two live values share a
  register. `WalkOwnership` proves that `emitOperation`, and by induction
  the whole node walk, keeps the invariant, and that a successful plan
  emits every node from an owned state.
- `NodeCode`: the loop body of a routine is the code of every node's
  `emitOperation`, in graph order.
- `BenchmarkScenario`, `DoubleFreeScenario`, `UnsupportedScenario`:
  three concrete graphs, planned to the instruction.

## Behaviour of the code as written

The model follows the code. Where the code differs from the documented
design, the code wins:

- **The copy loop always copies at least once.** The copy loop in the
  `mul` case copies the first operand once for every *visited* entry of
  its use-list. The current node has already been inserted into `seen`,
  so there is always at least one copy (`PlannerFacts.MulDestination`).
  The design describes an in-place update when the node is the last use;
  the code never does that.
- **An unsupported operator is not rejected.** No error is raised for
  it. The operator emits nothing and binds nothing, so compilation fails
  later with an unbound value (`UnsupportedScenario.AddCompileFails`).
- **An element count of zero still runs one pass.** The loop is a
  do-while, so it runs once (`ExecFacts.RoutineRuns`, `PassCount`).
- **The wrapper checks after caching.** Contiguity and device are checked
  by the wrapper only after the routine has been compiled and cached. A
  failing call therefore still leaves a cache entry
  (`Runtime.WrapperChecksAfterCaching`).
- **`x * x` frees its register twice.** The free loop walks the node's
  input slots, so in `x * x` with `x` dead afterwards, `x`'s register is
  freed twice (`PlannerFacts.SquareFreedTwice`). The next two
  acquisitions then return the same register.
  - In `DoubleFreeScenario` this makes a later product overwrite a live
    value.
  - The planned routine stores `b` where the graph returns `(a * a) * b`
    (`DoubleFreeScenario.DoubleFreeMiscomputes`).
  - For graphs whose nodes read no value twice, register ownership is
    kept through the whole walk (`WalkOwnership.WalkKeepsOwnership`), from
    the first node of a plan on (`WalkOwnership.PlanOwned`). A
    multiplication then never writes a live value's register
    (`Ownership.MulWritesNoLiveRegister`). The `x * x` node is exactly
    where ownership breaks (`DoubleFreeScenario.DoubleFreeBreaksOwnership`).

## Model

| member | source | states |
|---|---|---|
| Registers.Init | src/compiler.cpp:52-74 | a new manager binds nothing and holds each of the six address and eight value registers exactly once |
| Registers.PoolsCoverClasses | src/compiler.cpp:56-74 | the initial pools list every register of their class |
| Registers.GetFreeAddrReg | src/compiler.cpp:12-17 | fails exactly on an empty address pool; otherwise returns the last pool entry and removes only that entry |
| Registers.GetFreeValueReg | src/compiler.cpp:19-24 | fails exactly on an empty value pool; otherwise returns the last pool entry and removes only that entry |
| Registers.GetAddrReg | src/compiler.cpp:26-29 | succeeds exactly when the value has an address binding, and returns it; otherwise fails with that value unbound |
| Registers.GetValueReg | src/compiler.cpp:31-34 | succeeds exactly when the value has a value-register binding, and returns it; otherwise fails with that value unbound |
| Registers.MapAddr | src/compiler.cpp:36-38 | binds the value, keeps every other address binding, and leaves the value map and both pools alone |
| Registers.MapValue | src/compiler.cpp:40-42 | binds the value, keeps every other value binding, and leaves the address map and both pools alone |
| Registers.FreeAddr | src/compiler.cpp:44-46 | adds one more copy of the register to the address pool, with no check that it was in use |
| Registers.FreeValue | src/compiler.cpp:48-50 | adds one more copy of the register to the value pool, with no check that it was in use |
| Registers.FreeThenAcquire | src/compiler.cpp:12-50 | the next acquisition returns the register just freed and restores the manager exactly (LIFO) |
| Registers.AcquireThenFree | src/compiler.cpp:12-50 | acquiring a register and then freeing it gives back the same manager |
| Registers.DoubleFreeDuplicates | src/compiler.cpp:19-50 | freeing a register twice leaves two extra copies of it, and the next two acquisitions both return it |
| Registers.MapThenGet | src/compiler.cpp:26-42 | a binding is read back by its lookup; other keys and the other register class are unaffected |
| Ir.Through | src/compiler.cpp:207-210 | once node k has been inserted, the visited set is exactly the nodes 0..k |
| Planner.CopyForSeenUses | src/compiler.cpp:121-126 | with n visited use-list entries: it fails exactly when n > 0 and the operand is unbound or the pool has fewer than n registers; otherwise it pops n registers, copies into each, and the last one popped is the destination |
| Planner.EmitMul | src/compiler.cpp:118-130 | succeeds exactly when both operands are bound and the pool covers the copies; emits the copies and then one mulss of the second operand into the destination, binds the result there, and pops exactly the copies |
| Planner.FreeIfDead | src/compiler.cpp:133-141 | a value all of whose users have been visited has its register pushed back; any other value changes nothing |
| Planner.FreeDeadInputs | src/compiler.cpp:132-142 | emits nothing, and pushes the registers of the dead inputs in slot order, repeats included; fails exactly when a dead input is unbound |
| Planner.EmitOperation | src/compiler.cpp:112-143 | fails only with an empty value pool or an unbound value; it never touches address bindings or the address pool, and appends only scalar instructions |
| Planner.EmitNodes | src/compiler.cpp:206-210 | the node walk, each node emitted with the visited set through itself, keeps the same guarantees as a single node |
| PlannerFacts.CountSeenAll | src/compiler.cpp:133-138 | the "used" flag holds exactly when every use-list entry has been visited |
| PlannerFacts.OutputNeverDead | src/compiler.cpp:132-142 | in a consistent graph a graph output is never dead, because the return node is one of its users and is never visited |
| PlannerFacts.LaterReaderKeepsAlive | src/compiler.cpp:194-210 | a value that a later node reads is not dead while an earlier node is emitted |
| PlannerFacts.DeadInputsCount | src/compiler.cpp:132-142 | the free loop releases each dead value once per input slot that reads it, and nothing else |
| PlannerFacts.LiveValueNotFreed | src/compiler.cpp:132-142 | a graph output, or a value a later node reads, is never released |
| PlannerFacts.SquareFreedTwice | src/compiler.cpp:132-142 | for x * x with x dead, the free loop pushes x's register twice |
| PlannerFacts.MulDestination | src/compiler.cpp:118-129 | in walk order the copy loop runs at least once, because the node itself is visited; the copies go to the registers popped, the `mulss` reads input 1's register, and the result lands in the last register popped |
| PlannerFacts.UnsupportedEmitsNothing | src/compiler.cpp:117-143 | a node of any other kind emits no instruction and binds no value, so a later lookup of its result fails; only the free loop runs |
| PlannerFacts.SupportedIffEmits | src/compiler.cpp:77-85 | a successful emission appends instructions exactly when the node's kind is on the whitelist, and a whitelisted node's result ends up bound |
| Ownership.PopBindKeeps | src/compiler.cpp:19-24 | popping registers and binding a value to the last one popped keeps ownership, because a free register belongs to no live value |
| Ownership.DeadInputsFacts | src/compiler.cpp:132-142 | the free loop releases only inputs of the node whose readers have all been visited, and none twice when the node reads no value twice |
| Ownership.FreeKeeps | src/compiler.cpp:132-142 | when a node reads no value twice and its inputs were live before it, the free loop pushes registers no live value holds, each once, so ownership is kept |
| WalkOwnership.EmitKeepsOwnership | src/compiler.cpp:112-143 | in a consistent graph whose nodes read no value twice, `emitOperation` takes ownership before node k to ownership once node k is visited |
| WalkOwnership.WalkKeepsOwnership | src/compiler.cpp:206-210 | in a consistent graph whose nodes read no value twice, the node walk from node k to the end keeps ownership: owned before node k, owned once every node is visited |
| Ownership.MulWritesNoLiveRegister | src/compiler.cpp:118-129 | when the node's inputs list it as a reader (every consistent graph) and ownership holds before it, a multiplication pops at least one register and writes only the registers it pops; none of them, the destination included, belongs to a live value, so neither operand's register is overwritten |
| Ownership.LoadElementsKeepOwnership | src/compiler.cpp:199-204 | the element-load loop keeps ownership: each input is bound to a freshly popped register |
| Ownership.BuffersLeaveValuesFree | src/compiler.cpp:171-186 | the pointer loads bind no value register and leave the full value pool, each register once |
| Ownership.WalkStartsOwned | src/compiler.cpp:199-210 | after the element loads from a fresh value side, ownership holds before the first node |
| WalkOwnership.PlanOwned | src/compiler.cpp:171-210 | for a consistent graph whose nodes read no value twice, a successful plan emits every node from an owned state, and at every multiplication the hypotheses of `Ownership.MulWritesNoLiveRegister` hold, so no multiplication of the plan overwrites a live value's register |
| Codegen.CheckInputs | src/compiler.cpp:149-158 | accepts exactly a non-empty list of tensors of one element count, and returns that count; no inputs and non-tensors are reported before a size mismatch |
| Codegen.Compile | src/compiler.cpp:145-258 | a compiled routine has valid arguments, the first input's element count, one output per graph output, and code the backend accepted |
| CodegenFacts.LoadPointersSpec | src/compiler.cpp:172-186 | the pointer-load loop fails exactly when the address pool runs out; otherwise each value is bound to the next popped register and loaded from consecutive pointer-array entries |
| CodegenFacts.LoadElementsSpec | src/compiler.cpp:199-204 | the element-load loop fails exactly when the value pool runs out or an input has no buffer register; otherwise it loads each input from its own buffer at the counter |
| CodegenFacts.StoreOutputsSpec | src/compiler.cpp:213-217 | the store loop fails exactly when an output lacks a buffer or a value register; otherwise it stores each output's register into its own buffer and changes no binding |
| CodegenFacts.PointerPhases | src/compiler.cpp:171-186 | from a pool with room for all of them, the input and output pointer loads both succeed, bind every input and output, and use consecutive entries of the pointer array |
| CodegenFacts.Buffers | src/compiler.cpp:171-186 | from a new manager, the buffers take the top registers of the pool in order; with distinct inputs and outputs each one gets its own register |
| CodegenFacts.EmitLoopFailures | src/compiler.cpp:188-217 | once the buffers are bound, the loop fails for lack of an address register exactly when none is left; any other failure is an empty value pool or an unbound value |
| CodegenFacts.PlanFailures | src/compiler.cpp:171-217 | planning runs out of address registers exactly when inputs + outputs + 1 exceeds six |
| CodegenFacts.CompileFailures | src/compiler.cpp:145-231 | invalid arguments fail with an argument error; valid ones run out of address registers exactly when inputs + outputs + 1 > 6; a refused binding carries the emitted code |
| CodegenFacts.EmitLoopLayout | src/compiler.cpp:188-223 | a successful loop is: zero the counter, the label, the loads of every input, then exactly the code the node walk appends from the state those loads leave (scalar instructions only), the stores of every output at the counter, then step, compare, branch and return |
| CodegenFacts.BasesDistinct | src/compiler.cpp:171-189 | the input buffers, the output buffers and the counter take pairwise distinct registers |
| CodegenFacts.PlanLayout | src/compiler.cpp:171-223 | a successful plan over distinct inputs and outputs is the full routine skeleton, with its pointer loads, loop body and tail; between the element loads and the stores sits exactly the code of the node walk that starts after the element loads |
| CodegenFacts.CompiledLayout | src/compiler.cpp:145-231 | a routine that compile returns has that skeleton, with the element count of its arguments and the node walk's code as its body |
| NodeCode.NodeSegments | src/compiler.cpp:206-210 | the code the node walk appends from node k on is, in graph order, the code each node's `emitOperation` appends, each node emitted from the state the node before it left, and nothing else |
| NodeCode.PlanWalk | src/compiler.cpp:171-210 | a successful plan loaded the buffer pointers, took the counter, loaded the inputs and completed the node walk |
| NodeCode.CompiledBody | src/compiler.cpp:145-223 | the body of a routine compile returns is, between the element loads and the stores, exactly the code of every node's `emitOperation` one after the other in graph order |
| Cpu.StraightLine | src/compiler.cpp:199-217 | a run of element loads, scalar operations and stores executes in order, leaves the address registers alone, and records exactly its element accesses |
| ExecFacts.PassTail | src/compiler.cpp:219-221 | the counter step, comparison and branch go back to the label exactly when the advanced counter is still below the element count |
| ExecFacts.PassFrom | src/compiler.cpp:192-221 | pass c reads element c of every input and then writes element c of every output |
| ExecFacts.LoopRun | src/compiler.cpp:188-223 | from the label with the counter at zero, the routine returns after the last pass, and every pass has made its accesses in order |
| ExecFacts.RoutineRuns | src/compiler.cpp:171-223 | a routine of the compiled shape halts after one pass per element (one pass when there are no elements) and stays halted |
| ExecFacts.CompiledRoutineRuns | src/compiler.cpp:235-252 | a routine that compile accepted, called by the wrapper on usable inputs, reads every input element and writes every element of each new output, pass by pass |
| Host.KeyForgetsOnlyData | src/compiler.cpp:97 | two arguments have the same cache key exactly when they agree on everything but their data address |
| Runtime.DataPointer | src/compiler.cpp:238-241 | an argument is accepted exactly when it is a contiguous CPU tensor, and its data address is passed on |
| Runtime.InputPointers | src/compiler.cpp:237-242 | all inputs are accepted exactly when each one is usable; the data addresses are passed in order |
| Runtime.InputPointersNoTensorError | src/compiler.cpp:237-240 | after compile has accepted the arguments, the wrapper's tensor check can never be the check that fails |
| Runtime.FreshOutputs | src/compiler.cpp:244-246 | one new contiguous CPU tensor of the compiled element count for each graph output |
| Runtime.Invoke | src/compiler.cpp:235-255 | the argument array is the input data addresses followed by the new outputs' addresses; it fails exactly when some input is unusable |
| Runtime.Arguments | src/compiler.cpp:89-93 | the last n stack entries are the arguments, where n is the number of graph inputs |
| Runtime.CompileOnlyOnMiss | src/compiler.cpp:97-100 | a hit leaves the compiler unchanged; a miss caches the compiled routine, or changes nothing when compile fails |
| Runtime.CompileDependsOnlyOnSpec | src/compiler.cpp:97-99 | arguments with equal keys compile to the same result, so the key is a sound cache index |
| Runtime.RunKeepsCacheSound | src/compiler.cpp:98-100 | every cache entry stays what compile returns for its key |
| Runtime.CacheTransparent | src/compiler.cpp:87-110 | with a sound cache, run returns what it would return without any cache |
| Runtime.CompilesOncePerSpec | src/compiler.cpp:97-100 | after a call that found or compiled a routine, even one the wrapper then rejected, a call with the same key neither compiles nor changes the compiler |
| Runtime.StackDiscipline | src/compiler.cpp:103-109 | a successful run replaces the arguments on the stack with one new tensor per graph output |
| Runtime.UncachedStack | src/compiler.cpp:103-109 | the same stack effect holds for the uncached reference run, whose arguments are valid |
| Runtime.WrapperChecksAfterCaching | src/compiler.cpp:98-103 | on a miss with compilable but unusable arguments, the call fails in the wrapper, yet the routine stays cached |
| Runtime.RunAfterLookup | src/compiler.cpp:98-105 | run caches the routine it looked up, whatever the wrapper then does, and reports the wrapper's first failing check |
| BenchmarkScenario.BenchmarkConsistent | test.py:18-23 | the benchmark graph `c = a*b; a = c*c; a = c*a` is well formed, its use-lists agree with its nodes, and it is topologically ordered |
| BenchmarkScenario.BenchmarkPlans | src/compiler.cpp:171-223 | for the benchmark graph, planning succeeds with the given routine: counter R8, result in Xmm2 |
| BenchmarkScenario.BenchmarkComputes | test.py:40-43 | the benchmark's loop body stores `(a*b) * ((a*b)*(a*b))` into the output buffer, which is the value the graph returns |
| DoubleFreeScenario.DoubleFreePlans | src/compiler.cpp:132-142 | a consistent graph whose first node is `x * x`, with `x` dead after it, plans without error to the given routine |
| DoubleFreeScenario.DoubleFreeBreaksOwnership | src/compiler.cpp:121-142 | for `x * x`, ownership holds before the node and fails after it (Xmm7 pooled twice); the live `d` then holds a free register, and node 2's copies pop it |
| DoubleFreeScenario.DoubleFreeMiscomputes | src/compiler.cpp:132-142 | that routine's body stores `b` where the graph returns `(a*a)*b`, so it does not compute the graph |
| UnsupportedScenario.AddPlanFails | src/compiler.cpp:207-217 | a graph holding one `aten::add` fails at the output store with its result unbound, for any element count |
| UnsupportedScenario.AddCompileFails | src/compiler.cpp:145-217 | compile on two tensors of the same size fails in the same way, and the backend is never reached |

## Left out

- x86 encoding and asmjit: instructions are symbolic, the label is a
  number, and the logger's text is the instruction list.
- Floating-point values: `Cpu` records addresses only. `Dataflow` reads
  products as symbolic terms, not IEEE single-precision arithmetic.
- Element type and strides: a tensor is an element count, a contiguity
  flag, a device flag and a data address. Elements are 4 bytes
  (`movd` with scale 2).
- The counter's 64-bit width and the 32-bit immediate of `cmp`: counters
  are unbounded integers.
- Autograd wrapping of outputs (`make_variable`, line 107): the outputs
  are pushed as the tensors themselves.
- Concurrency: the cache is a value, and `run` is a function from one
  compiler state to the next.
- Compiler construction and graph discovery (`src/register.cpp`): `src/register.cpp` is not part of this model.
- `emitOperation` is declared to return a `CompiledCode` but returns
  nothing. The model returns the updated generation state instead.
- `CompleteArgumentSpec` hashing: the key is the sequence of per-argument
  (element count, contiguity, device) records. Equality of keys is all
  the cache uses. The real key also records sizes, strides and the
  element type, so it is finer: shapes [6] and [2,3] have one key here
  and two keys in the source, and `Runtime.CompilesOncePerSpec` predicts
  one compilation where the source compiles twice. Both compilations
  emit the same routine, so the results agree.
- Runtime.CompileOnlyOnMiss: assumes `cache_[spec] = compile(inputs)`
  (line 99) evaluates `compile` before it creates the map entry. C++17
  guarantees this order. Under C++11/14 a compiler may create the entry
  first. A throwing `compile` would then leave an empty routine cached,
  and the next run with that key would call it. The model does not cover
  that case.
- Codegen.Compile: a graph input that is also a graph output, or a value
  listed twice, is allowed by the model. The layout lemmas
  (`CodegenFacts.PlanLayout`, `CodegenFacts.CompiledLayout`,
  `ExecFacts.CompiledRoutineRuns`) assume the inputs and outputs are
  pairwise distinct values.
- ExecFacts.CompiledRoutineRuns: states where the routine reads and
  writes, not the values it writes. The values are covered by `Dataflow`
  for the benchmark and double-free graphs, not for every graph.
