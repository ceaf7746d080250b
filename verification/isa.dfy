/**
  The symbolic x86-64 instruction set the pointwise compiler emits.

  Only the instructions the planner actually produces are modelled, and
  only their register operands, memory offsets and immediates: the
  encoding and the floating-point semantics of `movd`, `movaps` and
  `mulss` are not part of this model.
 */
module Isa {

  /** General-purpose registers the register manager hands out for
      buffer base addresses and for the loop counter. */
  datatype AddrReg = Rsi | Rdx | R8 | R9 | R10 | R11

  /** SSE registers the register manager hands out for scalar values. */
  datatype ValueReg = Xmm0 | Xmm1 | Xmm2 | Xmm3 | Xmm4 | Xmm5 | Xmm6 | Xmm7

  /** The register holding the routine's only argument, the array of
      buffer pointers: `rcx` under the Windows calling convention,
      `rdi` under the System V one. */
  datatype PointerReg = Rdi | Rcx

  /** Width of one entry of the pointer array (`sizeof(void*)`). */
  const PointerBytes: nat := 8

  /** Elements are addressed as `base + index << ElementShift`, i.e. with
      4-byte (single-precision) elements. */
  const ElementShift: nat := 2

  /** The single label the loop skeleton binds and jumps back to. */
  const LoopLabel: nat := 0

  datatype Instr =
    | LoadPointer(ptrDst: AddrReg, ptrBase: PointerReg, offset: nat)
      // mov ptrDst, [ptrBase + offset]
    | SetImm(immDst: AddrReg, imm: int)
      // mov immDst, imm
    | Bind(labelId: nat)
      // the position a label stands for; no machine effect
    | LoadElement(elemDst: ValueReg, loadBase: AddrReg, loadIndex: AddrReg, loadShift: nat)
      // movd elemDst, [loadBase + loadIndex << loadShift]
    | Movaps(copyDst: ValueReg, copySrc: ValueReg)
    | Mulss(mulDst: ValueReg, mulSrc: ValueReg)
    | StoreElement(storeBase: AddrReg, storeIndex: AddrReg, storeShift: nat, storeSrc: ValueReg)
      // movd [storeBase + storeIndex << storeShift], storeSrc
    | AddImm(addDst: AddrReg, addend: int)
    | CmpImm(cmpReg: AddrReg, bound: int)
    | Jb(target: nat)
      // jump to the label when the last comparison found "below"
    | Ret

  /** Instructions that only move or combine scalars held in value
      registers: they neither touch memory nor the address registers. */
  predicate ScalarOp(i: Instr) {
    i.Movaps? || i.Mulss?
  }
}
