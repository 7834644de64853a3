/**
 The size arithmetic of `Ring::mem_map`: how long each of the three shared
 regions is, whether the completion ring gets a mapping of its own, and which
 mapping calls are made.  The calls themselves are not modelled, only their
 arguments.  All sizes are u32 and wrap as in the release build.
 */
module MemMap {
  import opened Bindings

  /** The three regions the setup call makes available for mapping. */
  datatype Region = SqRing | CqRing | Sqes {
    /** The mapping offset that selects the region; each region has its own. */
    function Offset(): (off: U64)
      ensures off == OffSqRing <==> SqRing?
      ensures off == OffCqRing <==> CqRing?
      ensures off == OffSqes <==> Sqes?
    {
      match this
      case SqRing => OffSqRing
      case CqRing => OffCqRing
      case Sqes => OffSqes
    }
  }

  /** The arguments of one call of the mapping primitive that vary: the ring
      handle, the length and the offset that selects the region. */
  datatype MmapCall = MmapCall(fd: I32, len: U32, offset: U64)

  /** The three region sizes and the single-mapping decision. */
  datatype Layout = Layout(sqRingSize: U32, cqRingSize: U32, sqeArraySize: U32, singleMap: bool)

  /** Submission ring: everything up to the index array, then one u32 per entry. */
  function SqRingBytes(p: Params): (n: U32)
    ensures var exact := p.sqOff.indexArray as int + 4 * p.sqEntries as int;
            && n as int <= exact
            && (exact < 0x1_0000_0000 ==> n as int == exact)
  {
    Wrap32(p.sqOff.indexArray as int + p.sqEntries as int * U32Size as int)
  }

  /** Completion ring: everything up to the entries, then one cqe per entry. */
  function CqRingBytes(p: Params): (n: U32)
    ensures var exact := p.cqOff.cqes as int + 16 * p.cqEntries as int;
            && n as int <= exact
            && (exact < 0x1_0000_0000 ==> n as int == exact)
  {
    Wrap32(p.cqOff.cqes as int + p.cqEntries as int * CqeSize as int)
  }

  /** Submission-entry array, as the driver computes it: an addition, not a product. */
  function SqeArrayBytes(p: Params): (n: U32)
    ensures n as int <= p.sqEntries as int + 64
    ensures p.sqEntries as int < 0x1_0000_0000 - 64 ==> n as int == p.sqEntries as int + 64
  {
    Wrap32(p.sqEntries as int + SqeSize as int)
  }

  /** `features & IORING_FEAT_SINGLE_MMAP != 0`: the feature is bit 0. */
  predicate SingleMmap(features: U32) {
    features % 2 == 1
  }

  /** The sizes `mem_map` asks for.  With the single-mapping feature both
      ring sizes become the larger of the two; otherwise each keeps its own. */
  function MemMapSizes(p: Params): (r: Layout)
    ensures r.singleMap <==> SingleMmap(p.features)
    ensures r.sqeArraySize as int == (p.sqEntries as int + 64) % 0x1_0000_0000
    ensures r.singleMap ==>
              && r.sqRingSize == r.cqRingSize
              && SqRingBytes(p) <= r.sqRingSize
              && CqRingBytes(p) <= r.sqRingSize
              && (r.sqRingSize == SqRingBytes(p) || r.sqRingSize == CqRingBytes(p))
    ensures !r.singleMap ==> r.sqRingSize == SqRingBytes(p) && r.cqRingSize == CqRingBytes(p)
  {
    var sq := SqRingBytes(p);
    var cq := CqRingBytes(p);
    var single := SingleMmap(p.features);
    var sq' := if single && cq > sq then cq else sq;
    var cq' := if single then sq' else cq;
    Layout(sq', cq', SqeArrayBytes(p), single)
  }

  /** The mapping calls `mem_map` makes, in order: the submission ring, the
      completion ring unless it shares the first mapping, then the entries. */
  function MmapCalls(fd: I32, l: Layout): (calls: seq<MmapCall>)
    ensures |calls| == if l.singleMap then 2 else 3
    ensures forall i :: 0 <= i < |calls| ==> calls[i].fd == fd
    ensures calls[0] == MmapCall(fd, l.sqRingSize, OffSqRing)
    ensures calls[|calls| - 1] == MmapCall(fd, l.sqeArraySize, OffSqes)
    ensures (exists i :: 0 <= i < |calls| && calls[i].offset == OffCqRing) <==> !l.singleMap
    ensures !l.singleMap ==> calls[1] == MmapCall(fd, l.cqRingSize, OffCqRing)
  {
    var sq := [MmapCall(fd, l.sqRingSize, SqRing.Offset())];
    var cq := if l.singleMap then [] else [MmapCall(fd, l.cqRingSize, CqRing.Offset())];
    var calls := sq + cq + [MmapCall(fd, l.sqeArraySize, Sqes.Offset())];
    assert !l.singleMap ==> calls[1].offset == OffCqRing;
    calls
  }

  /** The region the completion-ring pointer points into. */
  function CqRingRegion(l: Layout): (r: Region)
    ensures r == SqRing <==> l.singleMap
    ensures r == SqRing || r == CqRing
  {
    if l.singleMap then SqRing else CqRing
  }

  /** When the u32 arithmetic does not wrap, the ring sizes are the exact byte counts. */
  lemma RingSizesExact(p: Params)
    requires p.sqOff.indexArray as int + 4 * p.sqEntries as int < 0x1_0000_0000
    requires p.cqOff.cqes as int + 16 * p.cqEntries as int < 0x1_0000_0000
    ensures SqRingBytes(p) as int == p.sqOff.indexArray as int + 4 * p.sqEntries as int
    ensures CqRingBytes(p) as int == p.cqOff.cqes as int + 16 * p.cqEntries as int
  {
  }

  /** The single mapping is long enough for both rings: every byte either ring
      needs lies inside it. */
  lemma SingleMapCoversBothRings(fd: I32, p: Params)
    requires SingleMmap(p.features)
    ensures var l := MemMapSizes(p);
            && |MmapCalls(fd, l)| == 2
            && CqRingRegion(l) == SqRing
            && MmapCalls(fd, l)[0].len >= SqRingBytes(p)
            && MmapCalls(fd, l)[0].len >= CqRingBytes(p)
  {
  }

  /** Without the feature each ring is mapped on its own, with its own size. */
  lemma SeparateMapsKeepSizes(fd: I32, p: Params)
    requires !SingleMmap(p.features)
    ensures var l := MemMapSizes(p);
            && MmapCalls(fd, l) == [MmapCall(fd, SqRingBytes(p), OffSqRing),
                                    MmapCall(fd, CqRingBytes(p), OffCqRing),
                                    MmapCall(fd, SqeArrayBytes(p), OffSqes)]
            && CqRingRegion(l) == CqRing
  {
  }

  /** The submission-entry array size as written is smaller than the entries it
      must hold as soon as there are two or more of them. */
  lemma SqeArrayTooSmall(p: Params)
    requires 2 <= p.sqEntries as int < 0x400_0000
    ensures SqeArrayBytes(p) as int < 64 * p.sqEntries as int
  {
  }

  /** A concrete instance: 128 entries get a 192-byte request for 8192 bytes of entries. */
  lemma SqeArrayShortAt128(p: Params)
    requires p.sqEntries == 128
    ensures MemMapSizes(p).sqeArraySize == 192
    ensures IntendedSqeArrayBytes(p) == 8192
  {
  }

  /** The submission-entry array size with the product the layout calls for. */
  function IntendedSqeArrayBytes(p: Params): (n: U32)
    ensures p.sqEntries as int < 0x400_0000 ==> n as int == 64 * p.sqEntries as int
  {
    Wrap32(p.sqEntries as int * SqeSize as int)
  }

  /** Every entry of an array of `sqEntries` entries lies inside the intended region. */
  lemma IntendedSqeArrayHoldsEntries(p: Params, i: int)
    requires p.sqEntries as int < 0x400_0000
    requires 0 <= i < p.sqEntries as int
    ensures 64 * i + 64 <= IntendedSqeArrayBytes(p) as int
  {
  }
}
