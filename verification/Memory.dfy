/** The sizes of the RISC-V address spaces (kernel/riscv.h, kernel/memlayout.h). */
module Memory {
  const PGSIZE := 4096
  const MAXVA := 0x40_0000_0000   // 2^38
  const VPNS := 0x400_0000        // MAXVA / PGSIZE
  const PHYSTOP := 0x8800_0000

  /** Numbers that a PTE has room for as a swap slot. */
  const SLOTS := 0x40000

  /** A page-aligned physical address below PHYSTOP. */
  predicate GoodPage(pa: nat) { pa % PGSIZE == 0 && 0 < pa < PHYSTOP }
}
