/**
 Runs of the driver from a caller's point of view, as the example client uses
 it, and what the ring contracts let a caller conclude about them.

 `KernelCompletesOne` is NOT driver code: it stands in for the kernel's side of
 the protocol between two driver calls, so that a run can go all the way from
 adding an operation to draining its completion.
 */
module Scenarios {
  import opened Bindings
  import opened Ops
  import opened Bits
  import opened Rings

  /** Kernel stand-in: consumes the submission at the submission head and
      posts its completion, with result `res` and the submission's tag, at the
      completion tail. */
  method KernelCompletesOne(ring: Ring, res: I32)
    requires ring.Valid()
    requires ring.sq.indexArray[SlotOf(ring.sq.head, ring.sq.mask)] as int < ring.sq.sqes.Length
    modifies ring.sq`head, ring.cq`tail, ring.cq.cqes
    ensures ring.Valid()
    ensures ring.cq.cqes[SlotOf(old(ring.cq.tail), ring.cq.mask)]
            == Cqe(old(ring.sq.sqes[ring.sq.indexArray[SlotOf(ring.sq.head, ring.sq.mask)]]).userData, res, 0)
    ensures ring.sq.head == Wrap32(old(ring.sq.head) as int + 1)
    ensures ring.cq.tail == Wrap32(old(ring.cq.tail) as int + 1)
  {
    var sqe := ring.sq.sqes[ring.sq.indexArray[SlotOf(ring.sq.head, ring.sq.mask)]];
    ring.cq.cqes[SlotOf(ring.cq.tail, ring.cq.mask)] := Cqe(sqe.userData, res, 0);
    ring.sq.head := Wrap32(ring.sq.head as int + 1);
    ring.cq.tail := Wrap32(ring.cq.tail as int + 1);
  }

  /** The example client's run on a one-entry submission ring: a read of a 13-byte file
      with tag 7 is added and submitted, the driver handing the kernel one
      entry to submit; the kernel's answer (one accepted) is supplied by the
      run.  The kernel completes it, and one drain sees exactly that
      completion.  The completion-ring size is chosen by the run (one entry);
      for this request setup would report two, which changes nothing here
      since only one completion is posted. */
  method ReadOneFile(fd: I32, buffer: Usize) returns (toSubmit: U32, accepted: U32, drained: U32, cqe: Cqe)
    ensures toSubmit == 1
    ensures accepted == 1 && drained == 1
    ensures cqe.userData == 7 && cqe.res == 13
  {
    var op := ReadBuilder().Fd(fd).Addr(buffer).Len(13).Off(0).Flags(0).UserData(7).Build();
    assert op.sqe.opcode == OpRead && op.sqe.len == 13 && op.sqe.userData == 7;
    assert IsPow2(1);
    var ring := new Ring.Over(fd, 1, 1);
    ring.Add(op);
    assert ring.sq.sqes[0] == op.sqe && ring.sq.indexArray[0] == 0;
    toSubmit := ring.pending;
    accepted := ring.Submit(1);
    assert ring.enterCalls == [EnterCall(fd, toSubmit, 0, EnterGetEvents)];
    KernelCompletesOne(ring, 13);
    drained := ring.Wait();
    cqe := ring.cq.cqes[0];
  }

  /** Two operations added to a one-entry ring without draining in between:
      both land in slot 0, so the second overwrites the first, and both are
      counted as pending. */
  method OverrunOneEntryRing(first: RingOp, second: RingOp) returns (stored: Sqe, pending: U32)
    ensures stored == second.sqe
    ensures pending == 2
  {
    assert IsPow2(1);
    var ring := new Ring.Over(3, 1, 1);
    ring.Add(first);
    ring.Add(second);
    stored := ring.sq.sqes[0];
    pending := ring.pending;
  }
}
