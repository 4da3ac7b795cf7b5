/** Compile-time constants of the kernel (include/kernel/param.h). */
module Params {
  const BSIZE: nat := 512
  const NBUF: nat := 30
  const MAXOPBLOCKS: nat := 10
  const LOGSIZE: nat := MAXOPBLOCKS * 3
  const NDIRECT: nat := 12
  const NINDIRECT: nat := BSIZE / 4
  const MAXFILE: nat := NDIRECT + NINDIRECT
  const UINT32: nat := 0x1_0000_0000
}
