/**
  `RegisterManager`: two LIFO free pools (address and value registers)
  and two independent maps from values to the register they live in.
  The manager is an immutable record; every operation returns the
  updated record.
 */
module Registers {
  import opened Isa
  import opened Ir
  import opened Results

  datatype Manager = Manager(
    addrRegs: map<ValueId, AddrReg>,
    valueRegs: map<ValueId, ValueReg>,
    freeAddr: seq<AddrReg>,
    freeValue: seq<ValueReg>)

  predicate Distinct<T(==)>(s: seq<T>) {
    forall i, j | 0 <= i < j < |s| :: s[i] != s[j]
  }

  const AddrPool: seq<AddrReg> := [Rsi, Rdx, R8, R9, R10, R11]
  const ValuePool: seq<ValueReg> := [Xmm0, Xmm1, Xmm2, Xmm3, Xmm4, Xmm5, Xmm6, Xmm7]

  /** The initial pools hold every register of their class. */
  lemma PoolsCoverClasses()
    ensures forall r: AddrReg :: r in AddrPool
    ensures forall r: ValueReg :: r in ValuePool
  {
    forall r: AddrReg ensures r in AddrPool {
      match r
      case Rsi => assert AddrPool[0] == r;
      case Rdx => assert AddrPool[1] == r;
      case R8 => assert AddrPool[2] == r;
      case R9 => assert AddrPool[3] == r;
      case R10 => assert AddrPool[4] == r;
      case R11 => assert AddrPool[5] == r;
    }
    forall r: ValueReg ensures r in ValuePool {
      match r
      case Xmm0 => assert ValuePool[0] == r;
      case Xmm1 => assert ValuePool[1] == r;
      case Xmm2 => assert ValuePool[2] == r;
      case Xmm3 => assert ValuePool[3] == r;
      case Xmm4 => assert ValuePool[4] == r;
      case Xmm5 => assert ValuePool[5] == r;
      case Xmm6 => assert ValuePool[6] == r;
      case Xmm7 => assert ValuePool[7] == r;
    }
  }

  /** A fresh manager: nothing bound, every register of each class free
      exactly once. */
  function Init(): (m: Manager)
    ensures m.addrRegs == map[] && m.valueRegs == map[]
    ensures |m.freeAddr| == 6 && Distinct(m.freeAddr)
    ensures forall r: AddrReg :: r in m.freeAddr
    ensures |m.freeValue| == 8 && Distinct(m.freeValue)
    ensures forall r: ValueReg :: r in m.freeValue
  {
    PoolsCoverClasses();
    Manager(map[], map[], AddrPool, ValuePool)
  }

  /** `getFreeAddrReg`: pops the most recently freed address register. */
  function GetFreeAddrReg(m: Manager): (r: Result<(AddrReg, Manager)>)
    ensures r.Fail? <==> |m.freeAddr| == 0
    ensures r.Fail? ==> r.error == AddrPoolEmpty
    ensures r.Ok? ==> r.value.1 == m.(freeAddr := r.value.1.freeAddr)
    ensures r.Ok? ==> r.value.1.freeAddr + [r.value.0] == m.freeAddr
  {
    if |m.freeAddr| == 0 then Fail(AddrPoolEmpty)
    else
      var last := |m.freeAddr| - 1;
      Ok((m.freeAddr[last], m.(freeAddr := m.freeAddr[..last])))
  }

  /** `getFreeValueReg`: pops the most recently freed value register. */
  function GetFreeValueReg(m: Manager): (r: Result<(ValueReg, Manager)>)
    ensures r.Fail? <==> |m.freeValue| == 0
    ensures r.Fail? ==> r.error == ValuePoolEmpty
    ensures r.Ok? ==> r.value.1 == m.(freeValue := r.value.1.freeValue)
    ensures r.Ok? ==> r.value.1.freeValue + [r.value.0] == m.freeValue
  {
    if |m.freeValue| == 0 then Fail(ValuePoolEmpty)
    else
      var last := |m.freeValue| - 1;
      Ok((m.freeValue[last], m.(freeValue := m.freeValue[..last])))
  }

  /** `getAddrReg`: the address register bound to `v`, if any. */
  function GetAddrReg(m: Manager, v: ValueId): (r: Result<AddrReg>)
    ensures r.Ok? <==> v in m.addrRegs
    ensures r.Ok? ==> r.value == m.addrRegs[v]
    ensures r.Fail? ==> r.error == UnboundAddr(v)
  {
    if v in m.addrRegs then Ok(m.addrRegs[v]) else Fail(UnboundAddr(v))
  }

  /** `getValueReg`: the value register bound to `v`, if any. */
  function GetValueReg(m: Manager, v: ValueId): (r: Result<ValueReg>)
    ensures r.Ok? <==> v in m.valueRegs
    ensures r.Ok? ==> r.value == m.valueRegs[v]
    ensures r.Fail? ==> r.error == UnboundValue(v)
  {
    if v in m.valueRegs then Ok(m.valueRegs[v]) else Fail(UnboundValue(v))
  }

  /** `mapReg(v, gp)`: (re)binds `v` in the address map only. */
  function MapAddr(m: Manager, v: ValueId, reg: AddrReg): (r: Manager)
    ensures r.addrRegs.Keys == m.addrRegs.Keys + {v} && r.addrRegs[v] == reg
    ensures forall u | u in m.addrRegs && u != v :: r.addrRegs[u] == m.addrRegs[u]
    ensures r == m.(addrRegs := r.addrRegs)
  {
    m.(addrRegs := m.addrRegs[v := reg])
  }

  /** `mapReg(v, xmm)`: (re)binds `v` in the value map only. */
  function MapValue(m: Manager, v: ValueId, reg: ValueReg): (r: Manager)
    ensures r.valueRegs.Keys == m.valueRegs.Keys + {v} && r.valueRegs[v] == reg
    ensures forall u | u in m.valueRegs && u != v :: r.valueRegs[u] == m.valueRegs[u]
    ensures r == m.(valueRegs := r.valueRegs)
  {
    m.(valueRegs := m.valueRegs[v := reg])
  }

  /** `free(gp)`: pushes onto the address pool without checking whether
      the register is already free; the maps keep their bindings. */
  function FreeAddr(m: Manager, reg: AddrReg): (r: Manager)
    ensures multiset(r.freeAddr) == multiset(m.freeAddr) + multiset{reg}
    ensures r == m.(freeAddr := r.freeAddr)
  {
    m.(freeAddr := m.freeAddr + [reg])
  }

  /** `free(xmm)`: pushes onto the value pool without checking whether
      the register is already free; the maps keep their bindings. */
  function FreeValue(m: Manager, reg: ValueReg): (r: Manager)
    ensures multiset(r.freeValue) == multiset(m.freeValue) + multiset{reg}
    ensures r == m.(freeValue := r.freeValue)
  {
    m.(freeValue := m.freeValue + [reg])
  }

  // ---------------------------------------------------------------------
  // Properties of the pools and maps
  // ---------------------------------------------------------------------

  /** The next acquisition of a class returns the register just freed in
      that class and restores the manager exactly. */
  lemma FreeThenAcquire(m: Manager, a: AddrReg, x: ValueReg)
    ensures GetFreeAddrReg(FreeAddr(m, a)) == Ok((a, m))
    ensures GetFreeValueReg(FreeValue(m, x)) == Ok((x, m))
  {
  }

  /** Acquiring and then freeing the same register is the identity. */
  lemma AcquireThenFree(m: Manager)
    ensures GetFreeAddrReg(m).Ok? ==>
      FreeAddr(GetFreeAddrReg(m).value.1, GetFreeAddrReg(m).value.0) == m
    ensures GetFreeValueReg(m).Ok? ==>
      FreeValue(GetFreeValueReg(m).value.1, GetFreeValueReg(m).value.0) == m
  {
  }

  /** Freeing a register twice leaves two copies of it on top of the pool,
      so the next two acquisitions both return it. */
  lemma DoubleFreeDuplicates(m: Manager, x: ValueReg)
    ensures multiset(FreeValue(FreeValue(m, x), x).freeValue)[x] == multiset(m.freeValue)[x] + 2
    ensures var m2 := FreeValue(FreeValue(m, x), x);
            GetFreeValueReg(m2).Ok? && GetFreeValueReg(m2).value.0 == x
            && GetFreeValueReg(GetFreeValueReg(m2).value.1) == Ok((x, m))
  {
  }

  /** A binding is read back by the lookup of its class, leaves the other
      keys and the other class untouched. */
  lemma MapThenGet(m: Manager, v: ValueId, u: ValueId, a: AddrReg, x: ValueReg)
    ensures GetAddrReg(MapAddr(m, v, a), v) == Ok(a)
    ensures GetValueReg(MapValue(m, v, x), v) == Ok(x)
    ensures u != v ==> GetAddrReg(MapAddr(m, v, a), u) == GetAddrReg(m, u)
    ensures u != v ==> GetValueReg(MapValue(m, v, x), u) == GetValueReg(m, u)
    ensures GetValueReg(MapAddr(m, v, a), u) == GetValueReg(m, u)
    ensures GetAddrReg(MapValue(m, v, x), u) == GetAddrReg(m, u)
  {
  }
}
