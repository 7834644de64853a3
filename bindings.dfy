/**
 The fixed-layout records and constants of the io_uring ABI that the driver
 exchanges with the kernel.  Fixed-width integer fields are integer newtypes
 bounded to their width; where the driver's arithmetic on them wraps, the
 wrap-around is written out (Wrap32).

 Each union of the submission entry is a single field holding the member the
 driver writes (`off`, `addr`) or the raw bits of the union.
 */
module Bindings {

  newtype U8 = x: int | 0 <= x < 0x100
  newtype U16 = x: int | 0 <= x < 0x1_0000
  newtype U32 = x: int | 0 <= x < 0x1_0000_0000
  newtype U64 = x: int | 0 <= x < 0x1_0000_0000_0000_0000
  newtype I32 = x: int | -0x8000_0000 <= x < 0x8000_0000

  /** The C `long` that the libc `syscall` wrapper returns: the call's result,
      or -1 on failure with the error left in `errno`. */
  newtype I64 = x: int | -0x8000_0000_0000_0000 <= x < 0x8000_0000_0000_0000

  /** `usize` on the 64-bit targets the driver is built for. */
  type Usize = U64

  /** The value an unsigned 32-bit operation leaves: the low 32 bits of `x`,
      which is also what `as u32` keeps of a wider or signed integer. */
  function Wrap32(x: int): (r: U32)
    ensures (x - r as int) % 0x1_0000_0000 == 0
    ensures 0 <= x < 0x1_0000_0000 ==> r as int == x
  {
    (x % 0x1_0000_0000) as U32
  }

  /** The low 8 bits of `x`: what `as u8` keeps. */
  function Wrap8(x: int): (r: U8)
    ensures (x - r as int) % 0x100 == 0
    ensures 0 <= x < 0x100 ==> r as int == x
  {
    (x % 0x100) as U8
  }

  /** A value that already fits is kept as it is. */
  lemma Wrap32Fits(x: int)
    requires 0 <= x < 0x1_0000_0000
    ensures Wrap32(x) as int == x
  {
  }

  /** A negative value that fits in 32 bits becomes 2^32 + x, so it is never 0. */
  lemma Wrap32Negative(x: int)
    requires -0x1_0000_0000 < x < 0
    ensures Wrap32(x) as int == 0x1_0000_0000 + x
    ensures Wrap32(x) != 0
  {
  }

  /** The wrapper's failure value reaches the caller of `submit` as the
      largest u32. */
  lemma Wrap32MinusOne()
    ensures Wrap32(-1) == 0xFFFF_FFFF
  {
    Wrap32Negative(-1);
  }

  // Feature bit reported by setup: the two rings may share one mapping.
  const FeatSingleMmap: U32 := 1
  // Flag for the enter call: also wait for completions.
  const EnterGetEvents: U32 := 1

  // Operation codes.
  const OpNop: U8 := 0
  const OpRead: U8 := 22

  // Offsets that select which region a mapping covers.
  const OffSqRing: U64 := 0x0
  const OffCqRing: U64 := 0x800_0000
  const OffSqes: U64 := 0x1000_0000

  // Byte sizes of the records as laid out by the kernel ABI.
  const U32Size: U32 := 4
  const CqeSize: U32 := 16
  const SqeSize: U32 := 64

  /** A completion entry: the tag of the submission it answers, a result code and flags. */
  datatype Cqe = Cqe(userData: U64, res: I32, flags: U32)

  /** A submission entry. `off` is the first union (also `addr2`), `addr` the
      second (also `splice_off_in`), `opFlags` the raw bits of the third,
      `bufIndex` of the fourth and `spliceFdIn` of the fifth. */
  datatype Sqe = Sqe(
    opcode: U8,
    flags: U8,
    ioprio: U16,
    fd: I32,
    off: U64,
    addr: U64,
    len: U32,
    opFlags: U32,
    userData: U64,
    bufIndex: U16,
    personality: U16,
    spliceFdIn: U32,
    pad0: U64,
    pad1: U64)

  /** The all-zero submission entry that `Default` produces. */
  function ZeroSqe(): (e: Sqe)
    ensures IsZeroSqe(e)
  {
    Sqe(0, 0, 0, 0, 0, 0, 0, 0, 0, 0, 0, 0, 0, 0)
  }

  /** True when every field of `e` is zero. */
  predicate IsZeroSqe(e: Sqe) {
    && e.opcode == 0 && e.flags == 0 && e.ioprio == 0 && e.fd == 0
    && e.off == 0 && e.addr == 0 && e.len == 0 && e.opFlags == 0
    && e.userData == 0 && e.bufIndex == 0 && e.personality == 0
    && e.spliceFdIn == 0 && e.pad0 == 0 && e.pad1 == 0
  }

  /** Byte offsets of the submission ring's fields within its mapping. */
  datatype SqRingOffsets = SqRingOffsets(
    head: U32, tail: U32, ringMask: U32, ringEntries: U32,
    flags: U32, dropped: U32, indexArray: U32, resv1: U32, resv2: U64)

  /** Byte offsets of the completion ring's fields within its mapping. */
  datatype CqRingOffsets = CqRingOffsets(
    head: U32, tail: U32, ringMask: U32, ringEntries: U32,
    overflow: U32, cqes: U32, flags: U32, resv1: U32, resv2: U64)

  /** The parameters the setup call fills in. */
  datatype Params = Params(
    sqEntries: U32, cqEntries: U32, flags: U32,
    sqThreadCpu: U32, sqThreadIdle: U32, features: U32, wqFd: U32,
    resv0: U32, resv1: U32, resv2: U32,
    sqOff: SqRingOffsets, cqOff: CqRingOffsets)
}
