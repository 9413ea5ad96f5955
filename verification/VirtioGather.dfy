/** The parts of a chain of virtio descriptors that make up a packet, and the packet that results when reading a
    part copies only some of it. */
module VirtioGather {
  import opened Arith
  import opened Common

  type Address = a: nat | a < WORD

  /** uint32_t */
  type Length = n: nat | n < 0x1_0000_0000

  /** `more`: the NEXT flag. */
  datatype Desc = Desc(addr: Address, len: Length, more: bool, next: nat)

  /** The descriptors from `head` on, following the NEXT flags to the end. */
  predicate IsChain(table: seq<Desc>, head: nat, ds: seq<Desc>) {
    && ds != [] && head < |table| && ds[0] == table[head]
    && (forall i | 0 <= i < |ds| :: ds[i].more == (i + 1 < |ds|))
    && (forall i | 0 <= i < |ds| - 1 :: ds[i].next < |table| && table[ds[i].next] == ds[i + 1])
  }

  /** Addition of addresses, in the word. */
  function Plus(a: Address, i: Length): Address { if a + i < WORD then a + i else a + i - WORD }

  lemma {:induction false} PlusInWords(a: Address, i: Length)
    ensures Plus(a, i) == (a + i) % WORD
  {
    DivUnique(a + i, if a + i < WORD then 0 else 1, Plus(a, i), WORD);
  }

  // ----- the parts of a packet

  /** How many bytes the first `k` descriptors describe. */
  function Before(ds: seq<Desc>, k: nat): nat
    requires k <= |ds|
  {
    if k == 0 then 0 else Before(ds, k - 1) + ds[k - 1].len
  }

  /** How much of them belongs to the header of `header` bytes, and how much of the rest fits into `room`. */
  function Skipped(ds: seq<Desc>, k: nat, header: nat): nat
    requires k <= |ds|
  {
    Min(header, Before(ds, k))
  }

  function Len(ds: seq<Desc>, k: nat, header: nat, room: nat): nat
    requires k <= |ds|
  {
    Min(room, Before(ds, k) - Skipped(ds, k, header))
  }

  /** A stretch of guest memory to be read. */
  datatype Part = Part(addr: Address, n: Length)

  /** What the loop reads for descriptor `k`. */
  function PartOf(ds: seq<Desc>, k: nat, header: nat, room: nat): (p: Part)
    requires k < |ds|
    ensures p.n == Len(ds, k + 1, header, room) - Len(ds, k, header, room)
  {
    var skip := Min(header - Skipped(ds, k, header), ds[k].len);
    Part(Plus(ds[k].addr, skip), Min(room - Len(ds, k, header, room), ds[k].len - skip))
  }

  // ----- what a packet should be

  type Contents = Address -> byte

  function Bytes(m: Contents, addr: Address, n: Length): (b: seq<byte>)
    ensures |b| == n && forall i | 0 <= i < n :: b[i] == m(Plus(addr, i))
  {
    seq(n, i requires 0 <= i < n => m(Plus(addr, i)))
  }

  /** The bytes of the first `k` descriptors. */
  function Concat(m: Contents, ds: seq<Desc>, k: nat): (b: seq<byte>)
    requires k <= |ds|
    ensures |b| == Before(ds, k)
  {
    if k == 0 then [] else Concat(m, ds, k - 1) + Bytes(m, ds[k - 1].addr, ds[k - 1].len)
  }

  /** Those behind the header, as many as fit. */
  function Wanted(m: Contents, ds: seq<Desc>, k: nat, header: nat, room: nat): (b: seq<byte>)
    requires k <= |ds|
    ensures |b| == Len(ds, k, header, room) && forall i | 0 <= i < |b| :: b[i] == Concat(m, ds, k)[header + i]
  {
    var all := Concat(m, ds, k);
    seq(Len(ds, k, header, room), i requires 0 <= i < Len(ds, k, header, room) => all[header + i])
  }

  /** That is the chain from the end of the header on, cut at the room there is. */
  lemma {:induction false} WantedIs(m: Contents, ds: seq<Desc>, header: nat, room: nat)
    ensures var all := Concat(m, ds, |ds|);
            var from := Min(header, |all|);
            Wanted(m, ds, |ds|, header, room) == all[from..Min(from + room, |all|)]
  {
  }

  lemma {:induction false} NewByte(m: Contents, ds: seq<Desc>, k: nat, header: nat, room: nat, i: nat)
    requires k < |ds| && i < PartOf(ds, k, header, room).n
    ensures var p, pos := PartOf(ds, k, header, room), header + Len(ds, k, header, room) + i;
            pos < Before(ds, k + 1) && Concat(m, ds, k + 1)[pos] == Bytes(m, p.addr, p.n)[i]
  {
    var p, pos := PartOf(ds, k, header, room), header + Len(ds, k, header, room) + i;
    var skip := Min(header - Skipped(ds, k, header), ds[k].len);
    assert pos == Before(ds, k) + skip + i;
    assert Plus(Plus(ds[k].addr, skip), i) == Plus(ds[k].addr, skip + i);
  }

  // ----- reading parts into a buffer

  /** Where the parts begin in a buffer of `room` bytes, and where the last one ends. */
  predicate Offsets(at: seq<nat>, room: nat) {
    at != [] && at[0] == 0 && forall i, j | 0 <= i <= j < |at| :: at[i] <= at[j] <= room
  }

  /** The part, among the first `k`, that byte `j` of the packet belongs to. */
  function Owner(at: seq<nat>, k: nat, j: nat): (i: nat)
    requires k < |at| && at[0] <= j < at[k]
    ensures i < k && at[i] <= j < at[i + 1]
  {
    if at[k - 1] <= j then k - 1 else Owner(at, k - 1, j)
  }

  lemma {:induction false} OwnerIs(at: seq<nat>, room: nat, k: nat, j: nat, i: nat)
    requires Offsets(at, room) && i < k < |at| && at[i] <= j < at[i + 1]
    ensures j < at[k] && Owner(at, k, j) == i
  {
    if i + 1 < k {
      OwnerIs(at, room, k - 1, j, i);
    }
  }

  /** Byte `j` after `k` parts, of which the reads copied `copies`, in a buffer that held `stale`. */
  function ByteOf(at: seq<nat>, k: nat, copies: seq<seq<byte>>, stale: seq<byte>, j: nat): byte
    requires Offsets(at, |stale|) && |copies| == |at| - 1 && k < |at| && j < at[k]
  {
    var i := Owner(at, k, j);
    if j - at[i] < |copies[i]| then copies[i][j - at[i]] else stale[j]
  }

  function Packet(at: seq<nat>, copies: seq<seq<byte>>, stale: seq<byte>): (b: seq<byte>)
    requires Offsets(at, |stale|) && |copies| == |at| - 1
    ensures |b| == at[|at| - 1] && forall j | 0 <= j < |b| :: b[j] == ByteOf(at, |at| - 1, copies, stale, j)
  {
    seq(at[|at| - 1], j requires 0 <= j < at[|at| - 1] => ByteOf(at, |at| - 1, copies, stale, j))
  }

  /** Behind a copy that falls short, the packet shows what was in the buffer. */
  lemma {:induction false} StaleShows(at: seq<nat>, copies: seq<seq<byte>>, stale: seq<byte>, i: nat)
    requires Offsets(at, |stale|) && i < |copies| == |at| - 1 && at[i] + |copies[i]| < at[i + 1]
    ensures var last := at[i + 1] - 1;
            last < |Packet(at, copies, stale)| && Packet(at, copies, stale)[last] == stale[last]
  {
    OwnerIs(at, |stale|, |at| - 1, at[i + 1] - 1, i);
  }

  function Filled(b: byte, n: nat): (s: seq<byte>)
    ensures |s| == n && forall i | 0 <= i < n :: s[i] == b
  {
    seq(n, i => b)
  }

  lemma {:induction false} PacketDepends(at: seq<nat>, room: nat, copies: seq<seq<byte>>, i: nat)
    requires Offsets(at, room) && i < |copies| == |at| - 1 && at[i] + |copies[i]| < at[i + 1]
    ensures Packet(at, copies, Filled(0, room)) != Packet(at, copies, Filled(1, room))
  {
    StaleShows(at, copies, Filled(0, room), i);
    StaleShows(at, copies, Filled(1, room), i);
  }

  /** The buffer `now` holds the packet after `k` parts, and is as it `was` behind it. */
  predicate FilledTo(at: seq<nat>, k: nat, copies: seq<seq<byte>>, was: seq<byte>, now: seq<byte>)
    requires Offsets(at, |was|) && |copies| == |at| - 1 && k < |at|
  {
    && |now| == |was|
    && (forall j | 0 <= j < at[k] :: now[j] == ByteOf(at, k, copies, was, j))
    && (forall j | at[k] <= j < |was| :: now[j] == was[j])
  }

  /** What a read into the buffer at `from` does that was to fill it up to `end` and copied `copy`. */
  predicate Reads(copy: seq<byte>, from: nat, end: nat, now: seq<byte>, next: seq<byte>) {
    && |next| == |now|
    && forall j | 0 <= j < |now| :: next[j] == if from <= j < end && j - from < |copy| then copy[j - from] else now[j]
  }

  lemma {:induction false} FilledNext(at: seq<nat>, k: nat, copies: seq<seq<byte>>, was: seq<byte>, now: seq<byte>, next: seq<byte>)
    requires Offsets(at, |was|) && |copies| == |at| - 1 && k + 1 < |at|
    requires FilledTo(at, k, copies, was, now) && Reads(copies[k], at[k], at[k + 1], now, next)
    ensures FilledTo(at, k + 1, copies, was, next)
  {
  }

  /** A full buffer stays as it is. */
  lemma {:induction false} FilledOn(at: seq<nat>, j: nat, k: nat, copies: seq<seq<byte>>, was: seq<byte>, now: seq<byte>)
    requires Offsets(at, |was|) && |copies| == |at| - 1 && j <= k < |at|
    requires at[j] == |was| && FilledTo(at, j, copies, was, now)
    ensures FilledTo(at, k, copies, was, now)
  {
    if j < k {
      FilledOn(at, j, k - 1, copies, was, now);
    }
  }

  // ----- the packet of a chain

  function PartEnds(ds: seq<Desc>, header: nat, room: nat): (at: seq<nat>)
    ensures |at| == |ds| + 1 && forall k | 0 <= k < |at| :: at[k] == Len(ds, k, header, room)
  {
    seq(|ds| + 1, k requires 0 <= k <= |ds| => Len(ds, k, header, room))
  }

  lemma {:induction false} LenGrows(ds: seq<Desc>, j: nat, k: nat, header: nat, room: nat)
    requires j <= k <= |ds|
    ensures Len(ds, j, header, room) <= Len(ds, k, header, room)
  {
    if k > j {
      LenGrows(ds, j, k - 1, header, room);
    }
  }

  lemma {:induction false} PartsAreOffsets(ds: seq<Desc>, header: nat, room: nat)
    ensures Offsets(PartEnds(ds, header, room), room)
  {
    var at := PartEnds(ds, header, room);
    forall i, j | 0 <= i <= j < |at| ensures at[i] <= at[j] <= room {
      LenGrows(ds, i, j, header, room);
    }
  }

  /** The packet gathered from a chain into a buffer that held `stale`. */
  function Gather(ds: seq<Desc>, header: nat, copies: seq<seq<byte>>, stale: seq<byte>): (b: seq<byte>)
    requires |copies| == |ds|
    ensures |b| == Len(ds, |ds|, header, |stale|)
  {
    PartsAreOffsets(ds, header, |stale|);
    Packet(PartEnds(ds, header, |stale|), copies, stale)
  }

  /** All parts are copied whole. */
  ghost predicate Whole(m: Contents, ds: seq<Desc>, header: nat, room: nat, copies: seq<seq<byte>>) {
    && |copies| == |ds|
    && forall i | 0 <= i < |ds| :: var p := PartOf(ds, i, header, room); copies[i] == Bytes(m, p.addr, p.n)
  }

  lemma {:induction false} ConcatAt(m: Contents, ds: seq<Desc>, j: nat, k: nat, pos: nat)
    requires j <= k <= |ds| && pos < Before(ds, j)
    ensures pos < Before(ds, k) && Concat(m, ds, k)[pos] == Concat(m, ds, j)[pos]
  {
    if j < k {
      ConcatAt(m, ds, j, k - 1, pos);
    }
  }

  lemma {:induction false} WholeByte(m: Contents, ds: seq<Desc>, header: nat, room: nat, copies: seq<seq<byte>>, i: nat, j: nat)
    requires Whole(m, ds, header, room, copies) && i < |ds| && Len(ds, i, header, room) <= j < Len(ds, i + 1, header, room)
    ensures var off := j - Len(ds, i, header, room);
            && off < |copies[i]| && header + j < Before(ds, |ds|) && copies[i][off] == Concat(m, ds, |ds|)[header + j]
  {
    var p, off := PartOf(ds, i, header, room), j - Len(ds, i, header, room);
    assert copies[i] == Bytes(m, p.addr, p.n);
    NewByte(m, ds, i, header, room, off);
    ConcatAt(m, ds, i + 1, |ds|, header + j);
  }

  lemma {:induction false} OwnerOf(ds: seq<Desc>, header: nat, room: nat, j: nat) returns (i: nat)
    requires j < Len(ds, |ds|, header, room)
    ensures i < |ds| && Len(ds, i, header, room) <= j < Len(ds, i + 1, header, room)
  {
    i := Owner(PartEnds(ds, header, room), |ds|, j);
  }

  lemma {:induction false} GatherAt(ds: seq<Desc>, header: nat, copies: seq<seq<byte>>, stale: seq<byte>, j: nat, i: nat)
    requires i < |ds| == |copies| && Len(ds, i, header, |stale|) <= j < Len(ds, i + 1, header, |stale|)
    requires j - Len(ds, i, header, |stale|) < |copies[i]|
    ensures j < |Gather(ds, header, copies, stale)|
    ensures Gather(ds, header, copies, stale)[j] == copies[i][j - Len(ds, i, header, |stale|)]
  {
    PartsAreOffsets(ds, header, |stale|);
    OwnerIs(PartEnds(ds, header, |stale|), |stale|, |ds|, j, i);
  }

  lemma {:induction false} GatherByte(m: Contents, ds: seq<Desc>, header: nat, copies: seq<seq<byte>>, stale: seq<byte>, j: nat, b: byte)
    requires Whole(m, ds, header, |stale|, copies) && j < Len(ds, |ds|, header, |stale|) && b == Gather(ds, header, copies, stale)[j]
    ensures header + j < Before(ds, |ds|) && b == Concat(m, ds, |ds|)[header + j]
  {
    var i := OwnerOf(ds, header, |stale|, j);
    WholeByte(m, ds, header, |stale|, copies, i, j);
    GatherAt(ds, header, copies, stale, j, i);
  }

  /** If so, the packet is the bytes of the chain behind the header, as many as fit. */
  lemma {:induction false} GatherIs(m: Contents, ds: seq<Desc>, header: nat, copies: seq<seq<byte>>, stale: seq<byte>)
    requires Whole(m, ds, header, |stale|, copies)
    ensures Gather(ds, header, copies, stale) == Wanted(m, ds, |ds|, header, |stale|)
  {
    var packet, wanted := Gather(ds, header, copies, stale), Wanted(m, ds, |ds|, header, |stale|);
    forall j | 0 <= j < |packet| ensures packet[j] == wanted[j] {
      GatherByte(m, ds, header, copies, stale, j, packet[j]);
    }
  }
}
