/**
 The operation builder: a value that accumulates the fields of one submission
 entry, starting from the all-zero entry, and a terminal `Build` that wraps the
 entry into an operation ready to be added to the ring.  Every setter takes the
 builder by value and returns it with one field overwritten, so the builder is
 modelled as a datatype whose setters are functions.
 */
module Ops {
  import opened Bindings

  /** The operation kinds the driver knows. */
  datatype Opcode = Nop | Read {
    /** The kernel's number for the operation. */
    function Code(): (c: U8)
      ensures c == OpNop <==> Nop?
      ensures c == OpRead <==> Read?
    {
      match this
      case Nop => OpNop
      case Read => OpRead
    }
  }

  /** A built operation: a complete submission entry. */
  datatype RingOp = RingOp(sqe: Sqe)

  datatype RingOpBuilder = RingOpBuilder(sqe: Sqe) {

    /** Sets the target file descriptor. */
    function Fd(fd: I32): (b: RingOpBuilder)
      ensures b.sqe.fd == fd
      ensures b.sqe.(fd := sqe.fd) == sqe
    {
      this.(sqe := sqe.(fd := fd))
    }

    /** Sets the entry flags; only the low 8 bits of the argument are kept. */
    function Flags(flags: U32): (b: RingOpBuilder)
      ensures b.sqe.flags as int == flags as int % 0x100
      ensures flags < 0x100 ==> b.sqe.flags as int == flags as int
      ensures b.sqe.(flags := sqe.flags) == sqe
    {
      this.(sqe := sqe.(flags := Wrap8(flags as int)))
    }

    /** Sets the operation code. */
    function SetOpcode(opcode: Opcode): (b: RingOpBuilder)
      ensures b.sqe.opcode == opcode.Code()
      ensures b.sqe.(opcode := sqe.opcode) == sqe
    {
      this.(sqe := sqe.(opcode := opcode.Code()))
    }

    /** Sets the buffer address (the `addr` member of the second union). */
    function Addr(addr: Usize): (b: RingOpBuilder)
      ensures b.sqe.addr == addr
      ensures b.sqe.(addr := sqe.addr) == sqe
    {
      this.(sqe := sqe.(addr := addr))
    }

    /** Sets the length; only the low 32 bits of the argument are kept. */
    function Len(len: Usize): (b: RingOpBuilder)
      ensures b.sqe.len as int == len as int % 0x1_0000_0000
      ensures len < 0x1_0000_0000 ==> b.sqe.len as int == len as int
      ensures b.sqe.(len := sqe.len) == sqe
    {
      this.(sqe := sqe.(len := Wrap32(len as int)))
    }

    /** Sets the file offset (the `off` member of the first union). */
    function Off(off: Usize): (b: RingOpBuilder)
      ensures b.sqe.off == off
      ensures b.sqe.(off := sqe.off) == sqe
    {
      this.(sqe := sqe.(off := off))
    }

    /** Sets the correlation tag.  The driver stores the address of a value;
        here the tag is the 64-bit number that address converts to. */
    function UserData(tag: U64): (b: RingOpBuilder)
      ensures b.sqe.userData == tag
      ensures b.sqe.(userData := sqe.userData) == sqe
    {
      this.(sqe := sqe.(userData := tag))
    }

    /** Ends the building: the operation carries the accumulated entry as it is. */
    function Build(): (op: RingOp)
      ensures op.sqe == sqe
    {
      RingOp(sqe)
    }
  }

  /** `RingOp::builder`: a builder over the all-zero entry. */
  function DefaultBuilder(): (b: RingOpBuilder)
    ensures IsZeroSqe(b.sqe)
  {
    RingOpBuilder(ZeroSqe())
  }

  /** A builder over the all-zero entry with only the operation code set. */
  function BuilderWithOp(opcode: Opcode): (b: RingOpBuilder)
    ensures b.sqe.opcode == opcode.Code()
    ensures IsZeroSqe(b.sqe.(opcode := 0))
  {
    DefaultBuilder().SetOpcode(opcode)
  }

  /** `RingOp::read_builder`: the all-zero entry with the read operation code. */
  function ReadBuilder(): (b: RingOpBuilder)
    ensures b.sqe.opcode == 22
    ensures IsZeroSqe(b.sqe.(opcode := 0))
  {
    BuilderWithOp(Read)
  }

  /** Setting the same field twice keeps only the second value. */
  lemma LastWriteWins(b: RingOpBuilder, fd1: I32, fd2: I32, fl1: U32, fl2: U32,
                      op1: Opcode, op2: Opcode, a1: Usize, a2: Usize,
                      l1: Usize, l2: Usize, o1: Usize, o2: Usize, t1: U64, t2: U64)
    ensures b.Fd(fd1).Fd(fd2) == b.Fd(fd2)
    ensures b.Flags(fl1).Flags(fl2) == b.Flags(fl2)
    ensures b.SetOpcode(op1).SetOpcode(op2) == b.SetOpcode(op2)
    ensures b.Addr(a1).Addr(a2) == b.Addr(a2)
    ensures b.Len(l1).Len(l2) == b.Len(l2)
    ensures b.Off(o1).Off(o2) == b.Off(o2)
    ensures b.UserData(t1).UserData(t2) == b.UserData(t2)
  {
  }

  /** Setters of different fields may be called in either order. */
  lemma SettersCommute(b: RingOpBuilder, fd: I32, fl: U32, op: Opcode, a: Usize,
                       l: Usize, o: Usize, t: U64)
    ensures b.Fd(fd).Flags(fl) == b.Flags(fl).Fd(fd)
    ensures b.Fd(fd).SetOpcode(op) == b.SetOpcode(op).Fd(fd)
    ensures b.Fd(fd).Addr(a) == b.Addr(a).Fd(fd)
    ensures b.Fd(fd).Len(l) == b.Len(l).Fd(fd)
    ensures b.Fd(fd).Off(o) == b.Off(o).Fd(fd)
    ensures b.Fd(fd).UserData(t) == b.UserData(t).Fd(fd)
    ensures b.Flags(fl).SetOpcode(op) == b.SetOpcode(op).Flags(fl)
    ensures b.Flags(fl).Addr(a) == b.Addr(a).Flags(fl)
    ensures b.Flags(fl).Len(l) == b.Len(l).Flags(fl)
    ensures b.Flags(fl).Off(o) == b.Off(o).Flags(fl)
    ensures b.Flags(fl).UserData(t) == b.UserData(t).Flags(fl)
    ensures b.SetOpcode(op).Addr(a) == b.Addr(a).SetOpcode(op)
    ensures b.SetOpcode(op).Len(l) == b.Len(l).SetOpcode(op)
    ensures b.SetOpcode(op).Off(o) == b.Off(o).SetOpcode(op)
    ensures b.SetOpcode(op).UserData(t) == b.UserData(t).SetOpcode(op)
    ensures b.Addr(a).Len(l) == b.Len(l).Addr(a)
    ensures b.Addr(a).Off(o) == b.Off(o).Addr(a)
    ensures b.Addr(a).UserData(t) == b.UserData(t).Addr(a)
    ensures b.Len(l).Off(o) == b.Off(o).Len(l)
    ensures b.Len(l).UserData(t) == b.UserData(t).Len(l)
    ensures b.Off(o).UserData(t) == b.UserData(t).Off(o)
  {
  }

  /** The read operation the example client builds: every field it sets holds
      the (truncated) argument, every other field is zero. */
  lemma ReadOpFields(fd: I32, addr: Usize, len: Usize, off: Usize, flags: U32, tag: U64)
    ensures ReadBuilder().Fd(fd).Addr(addr).Len(len).Off(off).Flags(flags).UserData(tag).Build().sqe
            == Sqe(OpRead, Wrap8(flags as int), 0, fd, off, addr, Wrap32(len as int), 0, tag, 0, 0, 0, 0, 0)
  {
  }
}
