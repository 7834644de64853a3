/**
 The submission and completion rings and the `Ring` facade over them.

 The shared words of each ring (head, tail, mask, entries, flags) are plain
 fields and the shared arrays (the index array, the submission entries, the
 completion entries) are Dafny arrays.  Counters are u32: `tail + 1` and
 `head + 1` wrap at 2^32 as in the release build, and `tail & mask` is the
 bitwise and (BitAnd).  The kernel's side of the protocol and the
 fences are not part of this model: between two calls of the driver the kernel
 may change the shared words, but during one call nothing else does.
 */
module Rings {
  import opened Bindings
  import opened Ops
  import opened Bits

  /** The slot a ring counter designates: `counter & mask`.  For a ring of
      a power-of-two number of entries this is the counter modulo the number
      of entries. */
  function SlotOf(counter: U32, mask: U32): (slot: U32)
    ensures slot <= mask && slot <= counter
    ensures IsPow2(mask as int + 1) ==> slot as int == counter as int % (mask as int + 1)
  {
    var r := BitAnd(counter as nat, mask as nat);
    if IsPow2(mask as int + 1) then
      BitAndLowMask(counter as nat, mask as nat);
      r as U32
    else
      r as U32
  }

  /** Counters that follow one another select slots that follow one another
      round the ring, also where the counter itself wraps from 2^32 - 1 to 0. */
  lemma SlotSuccessor(counter: U32, mask: U32)
    requires IsPow2(mask as int + 1)
    ensures SlotOf(Wrap32(counter as int + 1), mask)
            == if SlotOf(counter, mask) == mask then 0 else SlotOf(counter, mask) + 1
  {
    var n := mask as int + 1;
    var c := counter as int;
    WordThenMod(c + 1, n);
    var q, s := c / n, c % n;
    if s == n - 1 {
      ModUnique(c + 1, n, q + 1, 0);
    } else {
      ModUnique(c + 1, n, q, s + 1);
    }
  }

  /** Up to `mask + 1` (the number of entries) successive counters select
      pairwise different slots. */
  lemma SlotsDistinctWithinCapacity(counter: U32, mask: U32, i: nat, j: nat)
    requires IsPow2(mask as int + 1)
    requires i < j <= mask as int
    ensures SlotOf(Wrap32(counter as int + i), mask) != SlotOf(Wrap32(counter as int + j), mask)
  {
    var n := mask as int + 1;
    var x := counter as int + i;
    WordThenMod(x, n);
    WordThenMod(x + (j - i), n);
    ModShiftDiffers(x, n, j - i);
  }

  /** After a full turn of `mask + 1` counters the same slot comes round again. */
  lemma SlotReusedAfterFullTurn(counter: U32, mask: U32, k: nat)
    requires IsPow2(mask as int + 1)
    ensures SlotOf(Wrap32(counter as int + (mask as int + 1) + k), mask)
            == SlotOf(Wrap32(counter as int + k), mask)
  {
    var n := mask as int + 1;
    var x := counter as int + k;
    WordThenMod(x, n);
    WordThenMod(x + n, n);
    ModAddMultiple(x, n, 1);
  }

  /** The number of steps the drain loop takes from `head` to reach `tail`,
      one wrapping increment at a time: the distance modulo 2^32. */
  function DrainSteps(head: U32, tail: U32): (n: nat)
    ensures n == (tail as int - head as int) % Word
    decreases (tail as int - head as int) % Word
  {
    if head == tail then 0 else 1 + DrainSteps(Wrap32(head as int + 1), tail)
  }

  /** One more step of the drain loop keeps its count equal to the distance
      the local head has moved. */
  lemma DrainCountStep(start: U32, head: U32, results: U32)
    requires results as int == (head as int - start as int) % Word
    ensures Wrap32(results as int + 1) as int
            == (Wrap32(head as int + 1) as int - start as int) % Word
  {
  }

  /** The producer side of the submission ring. */
  class SubmissionRing {
    var head: U32
    var tail: U32
    var mask: U32
    var entries: U32
    var flags: U32
    const indexArray: array<U32>
    const sqes: array<Sqe>

    /** The ring geometry the setup call guarantees: a power-of-two number of
        entries, the mask one less, and both arrays that long. */
    ghost predicate Valid()
      reads this
    {
      && IsPow2(entries as int)
      && mask as int == entries as int - 1
      && indexArray.Length == entries as int
      && sqes.Length == entries as int
    }

    /** A submission ring of `entries` entries as the setup call leaves it. */
    constructor Mapped(entries: U32)
      requires IsPow2(entries as int)
      ensures Valid()
      ensures this.entries == entries && head == 0 && tail == 0 && flags == 0
      ensures fresh(indexArray) && fresh(sqes)
      ensures forall i :: 0 <= i < sqes.Length ==> sqes[i] == ZeroSqe()
    {
      head, tail, mask, this.entries, flags := 0, 0, entries - 1, entries, 0;
      indexArray := new U32[entries as int];
      sqes := new Sqe[entries as int](_ => ZeroSqe());
    }

    /** Publishes the next slot: records the identity indirection for the slot
        the current tail designates, advances the tail by one and returns the
        slot, whose entry the caller then fills. */
    method Next() returns (index: U32)
      requires Valid()
      modifies this`tail, indexArray
      ensures Valid()
      ensures index == SlotOf(old(tail), mask)
      ensures index as int == old(tail) as int % entries as int
      ensures index <= mask && index as int < sqes.Length
      ensures indexArray[..] == old(indexArray[..])[index as int := index]
      ensures tail == Wrap32(old(tail) as int + 1)
    {
      var t := tail;
      index := SlotOf(t, mask);
      indexArray[index as int] := index;
      t := Wrap32(t as int + 1);
      assert tail != t;
      if tail != t {
        tail := t;
      }
    }
  }

  /** The consumer side of the completion ring. */
  class CompletionRing {
    var head: U32
    var tail: U32
    var mask: U32
    var entries: U32
    const cqes: array<Cqe>

    /** The geometry the setup call guarantees, as for the submission ring. */
    ghost predicate Valid()
      reads this
    {
      && IsPow2(entries as int)
      && mask as int == entries as int - 1
      && cqes.Length == entries as int
    }

    /** A completion ring of `entries` entries as the setup call leaves it. */
    constructor Mapped(entries: U32)
      requires IsPow2(entries as int)
      ensures Valid()
      ensures this.entries == entries && head == 0 && tail == 0
      ensures fresh(cqes)
    {
      head, tail, mask, this.entries := 0, 0, entries - 1, entries;
      cqes := new Cqe[entries as int](_ => Cqe(0, 0, 0));
    }
  }

  /** The arguments of one enter call. */
  datatype EnterCall = EnterCall(fd: I32, toSubmit: U32, minComplete: U32, flags: U32)

  /** The facade: the kernel handle, both rings and the number of entries
      added since the last submit.  `enterCalls` records, in order, the
      arguments of every enter call made through this ring. */
  class Ring {
    const fd: I32
    const sq: SubmissionRing
    const cq: CompletionRing
    var pending: U32
    ghost var enterCalls: seq<EnterCall>

    ghost predicate Valid()
      reads this, sq, cq
    {
      sq.Valid() && cq.Valid()
    }

    /** A ring over freshly set-up shared memory. */
    constructor Over(fd: I32, sqEntries: U32, cqEntries: U32)
      requires IsPow2(sqEntries as int) && IsPow2(cqEntries as int)
      ensures Valid() && fresh(sq) && fresh(cq)
      ensures fresh(sq.indexArray) && fresh(sq.sqes) && fresh(cq.cqes)
      ensures this.fd == fd && pending == 0 && enterCalls == []
      ensures sq.entries == sqEntries && sq.head == 0 && sq.tail == 0
      ensures cq.entries == cqEntries && cq.head == 0 && cq.tail == 0
    {
      this.fd := fd;
      sq := new SubmissionRing.Mapped(sqEntries);
      cq := new CompletionRing.Mapped(cqEntries);
      pending := 0;
      enterCalls := [];
    }

    /** Copies the operation's entry into the slot the submission ring hands
        out and counts it as pending.  Nothing checks that the ring has room. */
    method Add(op: RingOp)
      requires Valid()
      modifies this`pending, sq`tail, sq.indexArray, sq.sqes
      ensures Valid()
      ensures var slot := SlotOf(old(sq.tail), sq.mask);
              && sq.sqes[..] == old(sq.sqes[..])[slot as int := op.sqe]
              && sq.indexArray[..] == old(sq.indexArray[..])[slot as int := slot]
      ensures sq.tail == Wrap32(old(sq.tail) as int + 1)
      ensures pending == Wrap32(old(pending) as int + 1)
    {
      var index := sq.Next();
      sq.sqes[index as int] := op.sqe;
      pending := Wrap32(pending as int + 1);
    }

    /** Makes the enter call with the pending count, no minimum number of
        completions and the get-events flag, then clears the pending count.
        `enterResult` is what the `syscall` wrapper returns (-1 on any
        failure); the caller gets its low 32 bits.  The kernel's own work
        during the call is not modelled. */
    method Submit(enterResult: I64) returns (accepted: U32)
      requires Valid()
      modifies this`pending, this`enterCalls
      ensures Valid()
      ensures enterCalls == old(enterCalls) + [EnterCall(fd, old(pending), 0, EnterGetEvents)]
      ensures pending == 0
      ensures accepted == Wrap32(enterResult as int)
    {
      enterCalls := enterCalls + [EnterCall(fd, pending, 0, EnterGetEvents)];
      var res := enterResult;
      pending := 0;
      accepted := Wrap32(res as int);
    }

    /** Consumes every completion between the completion head and tail and
        returns how many there were. */
    method Wait() returns (results: U32)
      requires Valid()
      modifies cq`head
      ensures Valid()
      ensures cq.head == cq.tail
      ensures results as int == DrainSteps(old(cq.head), cq.tail)
      ensures results as int == (cq.tail as int - old(cq.head) as int) % Word
      ensures old(cq.head) == cq.tail ==> results == 0
    {
      results := 0;
      var head := cq.head;
      var mask := cq.mask;
      while true
        invariant results as int == (head as int - old(cq.head) as int) % Word
        decreases DrainSteps(head, cq.tail)
      {
        if head == cq.tail {
          break;
        }
        // The entry at this slot is where a fuller driver would read the completion.
        var slot := SlotOf(head, mask);
        assert slot as int < cq.cqes.Length;
        DrainCountStep(old(cq.head), head, results);
        head := Wrap32(head as int + 1);
        results := Wrap32(results as int + 1);
      }
      cq.head := head;
    }
  }
}
