/** The transmit buffers of the virtio network and socket devices: packets gathered through reads of guest
    memory whose failure the source does not notice. */
module VirtioPackets {
  import opened Arith
  import opened Common
  import Ram = GuestRamModel
  import opened RamTouch
  import opened VirtioGather

  // ----- one read

  ghost predicate MemoryOk(ms: seq<Mapping>, pages: Pages) { Laid(ms) && Backed(ms, pages) }

  /** The byte at an address, 0 where nothing is mapped. */
  function MemByte(ms: seq<Mapping>, pages: Pages, a: Address): byte
    requires MemoryOk(ms, pages)
  {
    if PageAt(ms, a).Some? then ByteAt(ms, pages, a) else 0
  }

  function ContentsOf(ms: seq<Mapping>, pages: Pages): Contents
    requires MemoryOk(ms, pages)
  {
    (a: Address) => MemByte(ms, pages, a)
  }

  /** What a read of `n` bytes copies into the buffer. */
  function Copied(rs: seq<Ram.Region>, ms: seq<Mapping>, pages: Pages, addr: Address, n: Length): seq<byte>
    requires MemoryOk(ms, pages)
  {
    match ReadGuest(rs, ms, pages, addr, n)
    case None => []
    case Some(got) => got.data
  }

  /** The read copies everything and no more: nothing was asked for, or all of it is in RAM and mapped below the
      top page. */
  predicate Readable(rs: seq<Ram.Region>, ms: seq<Mapping>, addr: Address, n: Length) {
    n == 0 || (InRam(rs, addr, n) && addr + n < WORD && Reach(ms, addr, n) == n)
  }

  predicate Mapped(ms: seq<Mapping>, addr: nat, n: nat) {
    forall a: nat | addr <= a < addr + n :: PageAt(ms, a).Some?
  }

  lemma {:induction false} ReachIsMapped(ms: seq<Mapping>, addr: nat, n: nat)
    requires Laid(ms) && Reserved(ms)
    ensures Reach(ms, addr, n) == n <==> Mapped(ms, addr, n)
  {
    var k := Reach(ms, addr, n);
    ReservedIsSafe(ms, addr + k);
    if k == n {
      forall a: nat | addr <= a < addr + n ensures PageAt(ms, a).Some? { assert Safe(ms, a); }
    }
  }

  /** With the reservations the library makes, exactly if it is mapped. */
  lemma {:induction false} ReadableIff(rs: seq<Ram.Region>, ms: seq<Mapping>, addr: Address, n: Length)
    requires Laid(ms) && Reserved(ms)
    ensures Readable(rs, ms, addr, n) <==> n == 0 || (InRam(rs, addr, n) && Mapped(ms, addr, n))
  {
    ReachIsMapped(ms, addr, n);
    if n > 0 && Mapped(ms, addr, n) {
      ReservedBelowTop(ms);
      MappedBelow(ms, addr + n - 1, WORD - 1);
    }
  }

  lemma {:induction false} MappedBelow(ms: seq<Mapping>, a: nat, top: nat)
    requires PageAt(ms, a).Some? && forall m | m in ms :: m.addr + m.size <= top
    ensures a < top
  {
    assert ms[0] in ms;
    if !Covers(ms[0], a) {
      MappedBelow(ms[1..], a, top);
    }
  }

  lemma {:induction false} CopiedBelowTop(rs: seq<Ram.Region>, ms: seq<Mapping>, pages: Pages, addr: Address, n: Length)
    requires MemoryOk(ms, pages) && 0 < n && addr + n < WORD && InRam(rs, addr, n)
    ensures |Copied(rs, ms, pages, addr, n)| == Reach(ms, addr, n)
    ensures Reach(ms, addr, n) == n ==> Copied(rs, ms, pages, addr, n) == Bytes(ContentsOf(ms, pages), addr, n)
  {
    WholeRangeIff(addr, n);
    ReadEffect(ms, pages, addr, n);
    var b := Copied(rs, ms, pages, addr, n);
    forall i | 0 <= i < |b| ensures b[i] == MemByte(ms, pages, Plus(addr, i)) {
      assert Safe(ms, addr + i);
    }
  }

  lemma {:induction false} CopiedAtTop(rs: seq<Ram.Region>, ms: seq<Mapping>, pages: Pages, addr: Address, n: Length)
    requires MemoryOk(ms, pages) && addr + n >= WORD
    ensures Copied(rs, ms, pages, addr, n) == []
  {
    DivUnique(addr + n, 1, addr + n - WORD, WORD);
    assert LoopBytes(addr, n) == 0;
  }

  /** A read copies exactly the contents of memory, or less than was asked for. */
  lemma {:induction false} CopiedIs(rs: seq<Ram.Region>, ms: seq<Mapping>, pages: Pages, addr: Address, n: Length)
    requires MemoryOk(ms, pages)
    ensures if Readable(rs, ms, addr, n) then Copied(rs, ms, pages, addr, n) == Bytes(ContentsOf(ms, pages), addr, n)
            else |Copied(rs, ms, pages, addr, n)| < n
  {
    if addr + n >= WORD {
      CopiedAtTop(rs, ms, pages, addr, n);
    } else if n > 0 && InRam(rs, addr, n) {
      CopiedBelowTop(rs, ms, pages, addr, n);
    }
  }

  // ----- packets

  /** What the reads of the gather loop copy. */
  function CopiesOf(rs: seq<Ram.Region>, ms: seq<Mapping>, pages: Pages, ds: seq<Desc>, header: nat, room: nat): (copies: seq<seq<byte>>)
    requires MemoryOk(ms, pages)
    ensures |copies| == |ds|
    ensures forall i | 0 <= i < |ds| :: var p := PartOf(ds, i, header, room); copies[i] == Copied(rs, ms, pages, p.addr, p.n)
  {
    seq(|ds|, i requires 0 <= i < |ds| => var p := PartOf(ds, i, header, room); Copied(rs, ms, pages, p.addr, p.n))
  }

  /** The packet: what the buffer, which held `stale`, holds after the loop. */
  function Sent(rs: seq<Ram.Region>, ms: seq<Mapping>, pages: Pages, ds: seq<Desc>, header: nat, stale: seq<byte>): seq<byte>
    requires MemoryOk(ms, pages)
  {
    Gather(ds, header, CopiesOf(rs, ms, pages, ds, header, |stale|), stale)
  }

  predicate PartReadable(rs: seq<Ram.Region>, ms: seq<Mapping>, ds: seq<Desc>, header: nat, room: nat, i: nat)
    requires i < |ds|
  {
    var p := PartOf(ds, i, header, room);
    Readable(rs, ms, p.addr, p.n)
  }

  predicate AllReadable(rs: seq<Ram.Region>, ms: seq<Mapping>, ds: seq<Desc>, header: nat, room: nat) {
    forall i | 0 <= i < |ds| :: PartReadable(rs, ms, ds, header, room, i)
  }

  lemma {:induction false} CopyIs(rs: seq<Ram.Region>, ms: seq<Mapping>, pages: Pages, ds: seq<Desc>, header: nat, room: nat, i: nat)
    requires MemoryOk(ms, pages) && i < |ds|
    ensures var p, copy := PartOf(ds, i, header, room), CopiesOf(rs, ms, pages, ds, header, room)[i];
            if PartReadable(rs, ms, ds, header, room, i) then copy == Bytes(ContentsOf(ms, pages), p.addr, p.n) else |copy| < p.n
  {
    var p := PartOf(ds, i, header, room);
    CopiedIs(rs, ms, pages, p.addr, p.n);
  }

  lemma {:induction false} ReadableIsWhole(rs: seq<Ram.Region>, ms: seq<Mapping>, pages: Pages, ds: seq<Desc>, header: nat, room: nat)
    requires MemoryOk(ms, pages) && AllReadable(rs, ms, ds, header, room)
    ensures Whole(ContentsOf(ms, pages), ds, header, room, CopiesOf(rs, ms, pages, ds, header, room))
  {
    forall i | 0 <= i < |ds|
      ensures var p := PartOf(ds, i, header, room);
              CopiesOf(rs, ms, pages, ds, header, room)[i] == Bytes(ContentsOf(ms, pages), p.addr, p.n)
    {
      assert PartReadable(rs, ms, ds, header, room, i);
      CopyIs(rs, ms, pages, ds, header, room, i);
    }
  }

  /** If every non-empty part is in RAM and mapped, the packet is the bytes of the chain behind the header, as
      many as fit, however header and payload are split over descriptors. */
  lemma {:induction false} SendsChain(rs: seq<Ram.Region>, ms: seq<Mapping>, pages: Pages, ds: seq<Desc>, header: nat, stale: seq<byte>)
    requires MemoryOk(ms, pages) && AllReadable(rs, ms, ds, header, |stale|)
    ensures Sent(rs, ms, pages, ds, header, stale) == Wanted(ContentsOf(ms, pages), ds, |ds|, header, |stale|)
  {
    ReadableIsWhole(rs, ms, pages, ds, header, |stale|);
    GatherIs(ContentsOf(ms, pages), ds, header, CopiesOf(rs, ms, pages, ds, header, |stale|), stale);
  }

  lemma {:induction false} SendsStale(rs: seq<Ram.Region>, ms: seq<Mapping>, pages: Pages, ds: seq<Desc>, header: nat, room: nat, i: nat)
    requires MemoryOk(ms, pages) && i < |ds| && !PartReadable(rs, ms, ds, header, room, i)
    ensures Sent(rs, ms, pages, ds, header, Filled(0, room)) != Sent(rs, ms, pages, ds, header, Filled(1, room))
  {
    CopyIs(rs, ms, pages, ds, header, room, i);
    PartsAreOffsets(ds, header, room);
    PacketDepends(PartEnds(ds, header, room), room, CopiesOf(rs, ms, pages, ds, header, room), i);
  }

  /** With the reservations the library makes, the packet does not depend on what was in the buffer before exactly
      if every non-empty part is in RAM and mapped. */
  lemma {:induction false} StaleIrrelevantIff(rs: seq<Ram.Region>, ms: seq<Mapping>, pages: Pages, ds: seq<Desc>, header: nat, room: nat)
    requires MemoryOk(ms, pages) && Reserved(ms)
    ensures AllReadable(rs, ms, ds, header, room) <==>
            forall a: seq<byte>, b: seq<byte> | |a| == room && |b| == room ::
              Sent(rs, ms, pages, ds, header, a) == Sent(rs, ms, pages, ds, header, b)
  {
    if AllReadable(rs, ms, ds, header, room) {
      forall a: seq<byte>, b: seq<byte> | |a| == room && |b| == room
        ensures Sent(rs, ms, pages, ds, header, a) == Sent(rs, ms, pages, ds, header, b)
      {
        SendsChain(rs, ms, pages, ds, header, a);
        SendsChain(rs, ms, pages, ds, header, b);
      }
    } else {
      var i :| 0 <= i < |ds| && !PartReadable(rs, ms, ds, header, room, i);
      SendsStale(rs, ms, pages, ds, header, room, i);
    }
  }

  // ----- the loops

  /** A read into the buffer at `at`; a failure goes unnoticed. */
  method FetchInto(mem: GuestMemory, rs: seq<Ram.Region>, buf: array<byte>, at: nat, addr: Address, n: Length)
    requires mem.Valid() && at + n <= buf.Length
    modifies buf
    ensures Reads(Copied(rs, mem.mappings, mem.pages, addr, n), at, at + n, old(buf[..]), buf[..])
  {
    CopiedIs(rs, mem.mappings, mem.pages, addr, n);
    var got := mem.ReadGuestMem(rs, addr, n);
    var data := if got.None? then [] else got.value.data;
    assert data == Copied(rs, mem.mappings, mem.pages, addr, n);
    CopyInto(buf, at, n, data);
  }

  method CopyInto(buf: array<byte>, at: nat, n: nat, data: seq<byte>)
    requires |data| <= n && at + n <= buf.Length
    modifies buf
    ensures Reads(data, at, at + n, old(buf[..]), buf[..])
  {
    for i := 0 to |data|
      invariant forall k | 0 <= k < buf.Length :: buf[k] == if at <= k < at + i then data[k - at] else old(buf[k])
    {
      buf[at + i] := data[i];
    }
  }

  /** One turn of either loop, for descriptor `k`. */
  method GatherOne(mem: GuestMemory, rs: seq<Ram.Region>, d: Desc, buf: array<byte>, len: nat, skip: Length,
                   ghost ds: seq<Desc>, ghost k: nat, ghost header: nat, ghost copies: seq<seq<byte>>, ghost was: seq<byte>)
    returns (newLen: nat)
    requires mem.Valid() && k < |ds| && d == ds[k] && buf.Length == |was|
    requires copies == CopiesOf(rs, mem.mappings, mem.pages, ds, header, |was|)
    requires skip == Min(header - Skipped(ds, k, header), d.len) && len == Len(ds, k, header, |was|)
    requires Offsets(PartEnds(ds, header, |was|), |was|) && FilledTo(PartEnds(ds, header, |was|), k, copies, was, buf[..])
    modifies buf
    ensures newLen == Len(ds, k + 1, header, |was|) && FilledTo(PartEnds(ds, header, |was|), k + 1, copies, was, buf[..])
  {
    var n := Min(buf.Length - len, d.len - skip);
    ghost var p, now := PartOf(ds, k, header, |was|), buf[..];
    PlusInWords(d.addr, skip);
    var addr: Address := (d.addr + skip) % WORD;
    assert p == Part(addr, n);
    FetchInto(mem, rs, buf, len, addr, n);
    newLen := len + n;
    FilledNext(PartEnds(ds, header, |was|), k, copies, was, now, buf[..]);
  }

  const HEADER: nat := 10
  const BUF_SIZE: nat := 2048

  /** The descriptor walk of emul_notify_tx; `ds` witnesses that the chain is finite. */
  method GatherNet(mem: GuestMemory, rs: seq<Ram.Region>, table: seq<Desc>, head: nat, buf: array<byte>, ghost ds: seq<Desc>)
    returns (len: nat)
    requires mem.Valid() && IsChain(table, head, ds) && buf.Length == BUF_SIZE
    modifies buf
    ensures len <= BUF_SIZE && buf[..len] == Sent(rs, mem.mappings, mem.pages, ds, HEADER, old(buf[..]))
    ensures forall j | len <= j < BUF_SIZE :: buf[j] == old(buf[j])
  {
    ghost var k, was, copies := 0, buf[..], CopiesOf(rs, mem.mappings, mem.pages, ds, HEADER, BUF_SIZE);
    PartsAreOffsets(ds, HEADER, BUF_SIZE);
    var skipped: nat, idx: nat, more := 0, head, true;
    len := 0;
    while more
      invariant mem.Valid() && copies == CopiesOf(rs, mem.mappings, mem.pages, ds, HEADER, BUF_SIZE)
      invariant k <= |ds| && if more then k < |ds| && idx < |table| && table[idx] == ds[k] else k == |ds|
      invariant skipped == Skipped(ds, k, HEADER) && len == Len(ds, k, HEADER, BUF_SIZE)
      invariant FilledTo(PartEnds(ds, HEADER, BUF_SIZE), k, copies, was, buf[..])
      decreases |ds| - k
    {
      var d := table[idx];
      var skip: Length := 0;
      if skipped < HEADER {
        skip := Min(HEADER - skipped, d.len);
      }
      len := GatherOne(mem, rs, d, buf, len, skip, ds, k, HEADER, copies, was);
      skipped := skipped + skip;
      idx, more, k := d.next, d.more, k + 1;
    }
  }

  /** Stopping at a full buffer leaves nothing out. */
  lemma {:induction false} FullAtEnd(ds: seq<Desc>, k: nat, copies: seq<seq<byte>>, was: seq<byte>, now: seq<byte>)
    requires k <= |ds| == |copies| && Offsets(PartEnds(ds, 0, |was|), |was|) && (k == |ds| || Len(ds, k, 0, |was|) == |was|)
    requires FilledTo(PartEnds(ds, 0, |was|), k, copies, was, now)
    ensures Len(ds, k, 0, |was|) == Len(ds, |ds|, 0, |was|) && FilledTo(PartEnds(ds, 0, |was|), |ds|, copies, was, now)
  {
    if k < |ds| {
      FilledOn(PartEnds(ds, 0, |was|), k, |ds|, copies, was, now);
      LenGrows(ds, k, |ds|, 0, |was|);
    }
  }

  lemma {:induction false} VsockEnd(ds: seq<Desc>, k: nat, copies: seq<seq<byte>>, was: seq<byte>, now: seq<byte>, len: nat)
    requires k <= |ds| == |copies| && Offsets(PartEnds(ds, 0, |was|), |was|) && (k == |ds| || len == |was|)
    requires len == Len(ds, k, 0, |was|) && FilledTo(PartEnds(ds, 0, |was|), k, copies, was, now)
    ensures now[..len] == Gather(ds, 0, copies, was) && forall j | len <= j < |was| :: now[j] == was[j]
  {
    FullAtEnd(ds, k, copies, was, now);
  }

  /** Its loop, which stops when the buffer is full. */
  method WalkVsock(mem: GuestMemory, rs: seq<Ram.Region>, table: seq<Desc>, head: nat, buf: array<byte>,
                   ghost ds: seq<Desc>, ghost copies: seq<seq<byte>>, ghost was: seq<byte>)
    returns (len: nat, ghost k: nat)
    requires mem.Valid() && IsChain(table, head, ds) && was == buf[..]
    requires copies == CopiesOf(rs, mem.mappings, mem.pages, ds, 0, |was|) && Offsets(PartEnds(ds, 0, |was|), |was|)
    modifies buf
    ensures k <= |ds| && len == Len(ds, k, 0, |was|) && (k == |ds| || len == |was|)
    ensures FilledTo(PartEnds(ds, 0, |was|), k, copies, was, buf[..])
  {
    k, len := 0, 0;
    var idx: nat, more := head, true;
    while more
      invariant mem.Valid() && copies == CopiesOf(rs, mem.mappings, mem.pages, ds, 0, |was|)
      invariant k <= |ds| && len == Len(ds, k, 0, |was|)
      invariant if more then k < |ds| && idx < |table| && table[idx] == ds[k] else k == |ds| || len == |was|
      invariant FilledTo(PartEnds(ds, 0, |was|), k, copies, was, buf[..])
      decreases |ds| - k
    {
      var d := table[idx];
      len := GatherOne(mem, rs, d, buf, len, 0, ds, k, 0, copies, was);
      idx, more, k := d.next, d.more && len < buf.Length, k + 1;
    }
  }

  /** The descriptor walk of emul_vsock_notify_tx, which skips nothing. */
  method GatherVsock(mem: GuestMemory, rs: seq<Ram.Region>, table: seq<Desc>, head: nat, buf: array<byte>, ghost ds: seq<Desc>)
    returns (len: nat)
    requires mem.Valid() && IsChain(table, head, ds)
    modifies buf
    ensures len <= buf.Length && buf[..len] == Sent(rs, mem.mappings, mem.pages, ds, 0, old(buf[..]))
    ensures forall j | len <= j < buf.Length :: buf[j] == old(buf[j])
  {
    ghost var was, copies := buf[..], CopiesOf(rs, mem.mappings, mem.pages, ds, 0, buf.Length);
    ghost var k;
    PartsAreOffsets(ds, 0, |was|);
    len, k := WalkVsock(mem, rs, table, head, buf, ds, copies, was);
    VsockEnd(ds, k, copies, was, buf[..], len);
  }
}
