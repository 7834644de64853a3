# io_uring driver core, modelled in Dafny

This project models the core of a small single-threaded user-space driver for
the Linux io_uring interface. The driver has two rings in memory it shares with
the kernel. It adds submission entries to the submission ring. It tells the
kernel about them with the enter call. It drains the completion ring by moving
its head up to the kernel's tail. The project models:

- the **submission-ring producer** (`SubmissionRing::next`, `Ring::add`). The
  slot is `tail & mask`. The index array gets the identity entry. The tail
  moves on by one, with wrap-around at 2^32.
- the **submit bookkeeping** (`Ring::submit`). It records the enter call's
  arguments, clears the pending count and returns the kernel's result cast to
  u32.
- the **completion drain** (`Ring::wait`). A loop counts the entries from head
  to tail, then the new head is stored.
- the **mapping-size arithmetic** of `Ring::mem_map`. This covers the three
  region sizes, the single-mapping decision and which mapping calls are made.
- the **operation builder** (`RingOp`, `RingOpBuilder`). Every setter
  overwrites one field of an all-zero submission entry, and `build` wraps the
  entry unchanged.

Files:

- `bindings.dfy` (module `Bindings`): the ABI records (sqe, cqe, ring offsets,
  setup parameters), the constants, fixed-width integer types and u32/u8
  truncation.
- `bits.dfy` (module `Bits`): bitwise and on integers. It also proves that
  `t & (2^k - 1) == t % 2^k`, plus the modular-arithmetic facts that rest on it.
- `memmap.dfy` (module `MemMap`): the size arithmetic and the mapping decision.
- `ops.dfy` (module `Ops`): the builder, as a datatype with one function per
  setter.
- `rings.dfy` (module `Rings`): the classes `SubmissionRing`, `CompletionRing`
  and `Ring`. They hold the shared words as fields and the shared arrays as
  Dafny arrays. The module also has the slot lemmas and the drain count.
- `scenarios.dfy` (module `Scenarios`): two caller runs.
  `KernelCompletesOne` in that module stands in for the kernel. It is not
  driver code.

Integer choices:

- Counters and other u32 words are the integer newtype `U32`.
- Every increment the driver makes is written as `Wrap32(x + 1)`, which is
  modulo 2^32. This matches the release build. A debug build would panic on
  overflow instead.
- `&` is the recursive function `Bits.BitAnd`.

Three behaviours of the code that a caller may not expect:

- `submit` passes `min_complete = 0`. The enter call therefore does not wait
  for a completion, even though it sets the get-events flag.
- `submit` returns the result of the libc `syscall` wrapper cast to u32. On
  failure the wrapper returns -1 and sets `errno`, so every failed enter call
  reaches the caller as 4294967295 (`Bindings.Wrap32MinusOne`), not as an
  error, and which error it was is lost.
- The submission-entry region size is computed with an addition
  (`sq_entries + 64`), not with a product. See Findings.

## Model

| member | source | states |
|---|---|---|
| `Bits.BitAnd` | src/uring.rs:127 | the bitwise and of two values is at most either of them, so a slot never exceeds the mask |
| `Bits.BitAndLowMask` | src/uring.rs:127 | when mask + 1 is a power of two, `t & mask` equals `t` modulo the number of entries |
| `Rings.SlotOf` | src/uring.rs:127 | the slot chosen for a counter is at most the mask; for a power-of-two ring it is the counter modulo the number of entries |
| `Rings.SlotSuccessor` | src/uring.rs:127-129 | the slot after a wrapping increment is the next slot round the ring, including where the counter wraps from 2^32 - 1 to 0 |
| `Rings.SlotsDistinctWithinCapacity` | src/uring.rs:124-135 | up to `entries` successive tails choose pairwise different slots, so that many adds without draining overwrite nothing |
| `Rings.SlotReusedAfterFullTurn` | src/uring.rs:124-135 | the tail `entries + k` places further on chooses the same slot as `k` places further on |
| `Rings.DrainSteps` | src/uring.rs:62-70 | the drain loop's step count from head to tail is `(tail - head) mod 2^32`; it is 0 exactly when head equals tail |
| `Rings.SubmissionRing.Mapped` | src/uring.rs:140-154 | a submission ring as setup leaves it: head and tail 0, mask one less than the power-of-two entry count, arrays of that length, all entries zero |
| `Rings.SubmissionRing.Next` | src/uring.rs:124-135 | returns `old tail & mask`, which is old tail modulo entries and at most mask; writes the slot number into the index array at that slot and nowhere else; leaves the tail at old tail + 1 mod 2^32; the tail-differs guard always holds; nothing else changes |
| `Rings.CompletionRing.Mapped` | src/uring.rs:167-175 | a completion ring as setup leaves it: head and tail 0, mask one less than the entry count, an entry array of that length |
| `Rings.Ring.Over` | src/uring.rs:27-32 | the ring `Ring::new` assembles from set-up rings starts with no pending entries (and no enter calls yet) |
| `Rings.Ring.Add` | src/uring.rs:36-42 | the op's entry is stored verbatim at the slot `next` chose and every other entry is unchanged; the index array gets the identity entry there; the tail moves on by one; pending grows by one mod 2^32 |
| `Rings.Ring.Submit` | src/uring.rs:44-55 | exactly one enter call is recorded, with the handle, the pre-call pending count, min_complete 0 and the get-events flag (1); pending becomes 0; the result is the kernel result truncated to u32 |
| `Rings.Ring.Wait` | src/uring.rs:57-75 | returns `(tail - head) mod 2^32` (the loop's step count) and leaves the shared head equal to the tail; returns 0 with the head unchanged when head already equals tail; tail, mask and entries are untouched |
| `Bindings.Wrap32` | src/uring.rs:54 | the u32 truncation (also the release-build wrap of each `+= 1`): the result agrees with the argument modulo 2^32 and equals it when it already fits |
| `Bindings.Wrap8` | src/uring.rs:214 | the u8 truncation: the result agrees with the argument modulo 2^8 and equals it when it already fits |
| `Bindings.ZeroSqe` | src/bindings.rs:110-118 | the default submission entry has every field zero |
| `Bindings.Wrap32Fits` | src/uring.rs:54 | a kernel result in the u32 range reaches the caller unchanged |
| `Bindings.Wrap32Negative` | src/uring.rs:54 | any negative result reaches the caller as 2^32 + res, never as 0 |
| `Bindings.Wrap32MinusOne` | src/uring.rs:54 | the wrapper's failure value -1 reaches the caller as 4294967295 |
| `MemMap.Region.Offset` | src/bindings.rs:30-34 | each region is selected by its own mapping offset: 0x0, 0x8000000 and 0x10000000, one per region in both directions |
| `MemMap.SqRingBytes` | src/uring.rs:78 | the submission-ring size is at most `array offset + 4 * sq_entries` and equal to it when the u32 sum does not wrap |
| `MemMap.CqRingBytes` | src/uring.rs:79 | the completion-ring size is at most `cqes offset + 16 * cq_entries` and equal to it when the u32 sum does not wrap |
| `MemMap.SqeArrayBytes` | src/uring.rs:80 | the entry-array size as written is at most `sq_entries + 64` and equal to it when that does not wrap |
| `MemMap.MemMapSizes` | src/uring.rs:77-88 | single mapping iff feature bit 0 is set; then both ring sizes are equal, at least each computed ring size, and one of them; otherwise each ring keeps its own size; the entry-array size is `sq_entries + 64` mod 2^32 |
| `MemMap.MmapCalls` | src/uring.rs:90-95 | every mapping call uses the ring handle; the submission ring is mapped first at offset 0x0 and the entry array last at 0x10000000; a call at the completion-ring offset is made exactly when the rings are not single-mapped |
| `MemMap.CqRingRegion` | src/uring.rs:91-94 | the completion-ring pointer aliases the submission-ring mapping exactly when single-mapped |
| `MemMap.RingSizesExact` | src/uring.rs:78-79 | when the u32 arithmetic does not wrap, the ring sizes are `array offset + 4 * sq_entries` and `cqes offset + 16 * cq_entries` |
| `MemMap.SingleMapCoversBothRings` | src/uring.rs:82-92 | with the feature set, two mappings are made and the first is long enough for both rings |
| `MemMap.SeparateMapsKeepSizes` | src/uring.rs:82-95 | without the feature, three mappings are made with the two ring sizes unchanged |
| `MemMap.SqeArrayTooSmall` | src/uring.rs:80 | the entry-array size as written is smaller than 64 bytes per entry whenever there are at least two entries |
| `MemMap.SqeArrayShortAt128` | src/uring.rs:80 | for 128 entries the request is 192 bytes where the entries take 8192 |
| `MemMap.IntendedSqeArrayBytes` | src/uring.rs:80 | the corrected entry-array size is exactly `64 * sq_entries` whenever that fits in a u32 |
| `MemMap.IntendedSqeArrayHoldsEntries` | src/uring.rs:80 | with the product `sq_entries * 64`, every entry's 64 bytes lie inside the region |
| `Ops.Opcode.Code` | src/bindings.rs:36-40 | no-op is code 0 and read is code 22, and they differ |
| `Ops.RingOpBuilder.Fd` | src/uring.rs:208-211 | sets the file descriptor and leaves every other field as it was |
| `Ops.RingOpBuilder.Flags` | src/uring.rs:213-216 | sets the flags to the argument truncated to 8 bits and leaves every other field as it was |
| `Ops.RingOpBuilder.SetOpcode` | src/uring.rs:218-221 | sets the opcode to the operation's code and leaves every other field as it was |
| `Ops.RingOpBuilder.Addr` | src/uring.rs:223-226 | sets the buffer address and leaves every other field as it was |
| `Ops.RingOpBuilder.Len` | src/uring.rs:228-231 | sets the length to the argument truncated to 32 bits and leaves every other field as it was |
| `Ops.RingOpBuilder.Off` | src/uring.rs:233-236 | sets the file offset and leaves every other field as it was |
| `Ops.RingOpBuilder.UserData` | src/uring.rs:238-241 | sets the correlation tag and leaves every other field as it was |
| `Ops.RingOpBuilder.Build` | src/uring.rs:243-245 | the built operation carries the accumulated entry unchanged |
| `Ops.DefaultBuilder` | src/uring.rs:189-191 | the default builder holds the all-zero entry |
| `Ops.BuilderWithOp` | src/uring.rs:197-199 | the entry has the given opcode and every other field zero |
| `Ops.ReadBuilder` | src/uring.rs:193-195 | the entry has opcode 22 and every other field zero |
| `Ops.LastWriteWins` | src/uring.rs:208-241 | setting the same field twice equals setting it once with the second value, for every setter |
| `Ops.SettersCommute` | src/uring.rs:208-241 | setters of different fields give the same builder in either order, for all 21 pairs |
| `Ops.ReadOpFields` | examples/cat.rs:19-26 | the client's read chain yields opcode 22, the given fd, address, offset and tag, the truncated length and flags, and zero elsewhere |
| `Scenarios.ReadOneFile` | examples/cat.rs:18-31 | on a one-entry ring, a 13-byte read with tag 7 is added and the driver hands the kernel 1 entry to submit; with the kernel's answer of 1 accepted, which the run supplies, and after the kernel completes the read, one drain returns 1 and the completion carries tag 7 and result 13 |
| `Scenarios.OverrunOneEntryRing` | src/uring.rs:124-135 | two adds to a one-entry ring without draining both go to slot 0: the second overwrites the first and pending is 2 |

## Findings

| source | as written | input that shows it | evidently intended | confidence | as-written member | corrected member |
|---|---|---|---|---|---|---|
| src/uring.rs:80 | `sq_entries + size_of::<io_uring_sqe>()` | sq_entries = 128: the request is 192 bytes, one 4096-byte page after rounding, but 128 entries take 8192 bytes | `sq_entries * size_of::<io_uring_sqe>()` | high (not executed) | `MemMap.SqeArrayTooSmall`, `MemMap.SqeArrayShortAt128` | `MemMap.IntendedSqeArrayBytes`, `MemMap.IntendedSqeArrayHoldsEntries` |

`MemMap.MemMapSizes` keeps the sum, because it models `mem_map` as it is
written. `MemMap.IntendedSqeArrayBytes` is the corrected size beside it. For
up to 64 entries the sum still fits in one page, which holds all their entries.
The example client's one-entry ring is one such case.

## Left out

- The system calls `io_uring_setup`, `io_uring_enter`, `mmap` and `close` are foreign calls.
  - The setup parameters are inputs.
  - The enter call's result is the `enterResult` parameter of `Ring.Submit`, and its arguments go to the ghost log `enterCalls`.
  - The mappings are described by `MemMap.MmapCalls` and are not performed.
- `Ring::new` is not modelled. It calls setup, never checks the result and feeds the parameters to `mem_map`. `Ring.Over` only builds the state that follows from it: rings of given power-of-two sizes with zero counters.
- Pointer construction in `SubmissionRing::new` and `CompletionRing::new` is left out. The byte offsets into the mapped regions become plain fields and arrays, so the offset tables are not used by the rings.
- Memory fences and the kernel's concurrent updates are left out. Apart from the enter call inside `submit`, the shared words change only through the driver during one driver call. `Scenarios.KernelCompletesOne` is a stand-in for the kernel between calls and is not driver code. It is an ordinary method because it writes non-ghost fields, which a ghost method may not do.
- Teardown (`Drop`) is left out.
- Union layout, `#[repr(C, packed)]` and the `memset`-based `Default` are left out.
  - Each union is the one field the driver writes, or its raw bits.
  - The default is the all-zero record (`Bindings.ZeroSqe`).
- The driver's `user_data` stores the address of a value. Here the tag is an opaque u64 and pointer provenance is not modelled.
- `Ring::wait` forms the address of each completion entry and discards it. The model only checks that this slot lies inside the completion array. Copying completions out is not modelled, because the driver does not do it either.
- Ring.Submit: the enter call does its work before it returns. It consumes the submitted entries, which moves the submission head, and with the get-events flag it may post completions, which moves the completion tail and writes completion entries. That effect on the shared ring words is not modelled: `Submit` records only the call's arguments, and its frame keeps those words unchanged. `Scenarios.ReadOneFile` performs the kernel's part after the call instead.
- `Ring.Wait` assumes the completion tail does not move during the call; the kernel may move it concurrently, which is not modelled.
- There are no ring-full checks or back-pressure, and completions are not correlated with submitters, because the driver has none. `Scenarios.OverrunOneEntryRing` shows the consequence.
- Debug-build overflow panics are left out. All u32 increments wrap as in a release build.
- The builder's `opcode` setter is named `SetOpcode`, because the name `Opcode` is already the operation-kind type.
- The single-mapping test `features & IORING_FEAT_SINGLE_MMAP != 0` is written as "bit 0 is set" (`features % 2 == 1`), because the feature value is 1.
- In the example client, file opening, metadata, the buffer and printing are I/O and are left out. The busy-wait `while ring.wait() != 1` becomes a single drain after a single kernel step.
