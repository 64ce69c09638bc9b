/** The constants of kernel/memlayout.h and kernel/riscv.h that several components use. */
module MemLayout {
  const PGSIZE := 4096
  const PHYSTOP := 0x8800_0000
}
