/** Touching guest memory page by page: reads and writes of any range over mapped reservations with
    pages of different sizes. */
module RamTouch {
  import opened Common
  import opened Arith
  import Ram = GuestRamModel
  import opened Reservations

  /** A mapped reservation with pages of `page` bytes. */
  datatype Mapping = Mapping(addr: nat, size: nat, page: nat)

  predicate Covers(m: Mapping, a: nat) { m.addr <= a < m.addr + m.size }

  /** The page size of the reservation an address is in. */
  function PageAt(ms: seq<Mapping>, a: nat): Option<nat> {
    if ms == [] then None else if Covers(ms[0], a) then Some(ms[0].page) else PageAt(ms[1..], a)
  }

  /** Reservations are disjoint, inside the address space and made of whole pages. */
  predicate Laid(ms: seq<Mapping>) {
    ms == [] || (
      && 0 < ms[0].page < WORD && ms[0].size < WORD && ms[0].addr + ms[0].size <= WORD && ms[0].addr % ms[0].page == 0 && ms[0].size % ms[0].page == 0
      && (forall m | m in ms[1..] :: ms[0].addr + ms[0].size <= m.addr || m.addr + m.size <= ms[0].addr)
      && Laid(ms[1..]))
  }

  /** The bytes of every page, by the address where the page begins. */
  type Pages = map<nat, seq<byte>>

  function Base(a: nat, p: nat): nat
    requires p > 0
  {
    a - a % p
  }

  ghost predicate Backed(ms: seq<Mapping>, pages: Pages) {
    forall a: nat | PageAt(ms, a).Some? ::
      var p := PageAt(ms, a).value; p > 0 && Base(a, p) in pages && |pages[Base(a, p)]| == p
  }

  function ByteAt(ms: seq<Mapping>, pages: Pages, a: nat): byte
    requires Backed(ms, pages) && PageAt(ms, a).Some?
  {
    var p := PageAt(ms, a).value;
    pages[Base(a, p)][a % p]
  }

  // ----- the loop of vm_ram_touch

  /** The bytes handed to the callback at `addr`: up to the end of the page or of the range.  In a page that ends
      at the top of the address space the chunk reaches to the top. */
  function ChunkSize(addr: nat, size: nat, p: nat): (n: nat)
    requires p > 0 && size > 0 && addr + size < WORD && Base(addr, p) + p <= WORD
    ensures Base(addr, p) + p < WORD ==> 0 < n <= size && addr % p + n <= p
    ensures Base(addr, p) + p == WORD ==> n > size
  {
    if Base(addr, p) + p < WORD then Min(size, p - addr % p) else WORD - addr
  }

  /** The same as the source computes it: the end of a page at the top is 0 in words, and so is the next address. */
  function ChunkInWords(addr: nat, end: nat, p: nat): nat
    requires p > 0
  {
    var nextPageStart := (Base(addr, p) + p) % WORD;
    var next := Min(end, nextPageStart);
    (next - addr) % WORD
  }

  lemma {:induction false} ChunkSizeInWords(addr: nat, size: nat, p: nat)
    requires 0 < p < WORD && size > 0 && addr + size < WORD && Base(addr, p) + p <= WORD
    ensures ChunkInWords(addr, addr + size, p) == ChunkSize(addr, size, p)
  {
    var pageEnd, n := Base(addr, p) + p, ChunkSize(addr, size, p);
    if pageEnd < WORD {
      DivUnique(pageEnd, 0, pageEnd, WORD);
      DivUnique(n, 0, n, WORD);
    } else {
      MultipleMod(1, WORD);
      DivUnique(n - WORD, -1, n, WORD);
    }
  }

  /** How a touch ends: over the whole range, at an address that cannot be mapped, or in the page at the top of
      the address space, where the callback is asked for more than the range. */
  datatype Status = Done | Unmapped | Overrun

  function Splice(page: seq<byte>, off: nat, data: seq<byte>): seq<byte>
    requires off + |data| <= |page|
  {
    page[..off] + data + page[off + |data|..]
  }

  datatype Written = Written(pages: Pages, status: Status)

  /** The loop with the write callback: an address without a mapping stops it half way. */
  function Write(ms: seq<Mapping>, pages: Pages, addr: nat, data: seq<byte>): Written
    requires Laid(ms) && Backed(ms, pages) && addr + |data| < WORD
    decreases |data|
  {
    if data == [] then Written(pages, Done)
    else match PageAt(ms, addr)
      case None => Written(pages, Unmapped)
      case Some(p) =>
        PageBelowTop(ms, addr);
        var n := ChunkSize(addr, |data|, p);
        if n > |data| then Written(pages, Overrun)
        else
          WriteChunkBacked(ms, pages, addr, data[..n]);
          Write(ms, WriteChunk(ms, pages, addr, data[..n]), addr + n, data[n..])
  }

  /** One chunk, inside one page. */
  function WriteChunk(ms: seq<Mapping>, pages: Pages, addr: nat, data: seq<byte>): Pages
    requires Backed(ms, pages) && PageAt(ms, addr).Some? && addr % PageAt(ms, addr).value + |data| <= PageAt(ms, addr).value
  {
    var p := PageAt(ms, addr).value;
    pages[Base(addr, p) := Splice(pages[Base(addr, p)], addr % p, data)]
  }

  datatype Got = Got(data: seq<byte>, status: Status)

  /** The loop with the read callback. */
  function Read(ms: seq<Mapping>, pages: Pages, addr: nat, size: nat): Got
    requires Laid(ms) && Backed(ms, pages) && addr + size < WORD
    decreases size
  {
    if size == 0 then Got([], Done)
    else match PageAt(ms, addr)
      case None => Got([], Unmapped)
      case Some(p) =>
        PageBelowTop(ms, addr);
        var n := ChunkSize(addr, size, p);
        if n > size then Got([], Overrun)
        else
          var rest := Read(ms, pages, addr + n, size - n);
          rest.(data := ReadChunk(ms, pages, addr, n) + rest.data)
  }

  function ReadChunk(ms: seq<Mapping>, pages: Pages, addr: nat, n: nat): (chunk: seq<byte>)
    requires Backed(ms, pages) && PageAt(ms, addr).Some? && addr % PageAt(ms, addr).value + n <= PageAt(ms, addr).value
    ensures |chunk| == n
  {
    var p := PageAt(ms, addr).value;
    pages[Base(addr, p)][addr % p..addr % p + n]
  }

  // ----- pages

  /** A page lies in one reservation. */
  lemma {:induction false} PageInside(m: Mapping, a: nat)
    requires m.page > 0 && m.addr % m.page == 0 && m.size % m.page == 0 && Covers(m, a)
    ensures m.addr <= Base(a, m.page) && Base(a, m.page) + m.page <= m.addr + m.size
  {
    var p := m.page;
    var first, count := m.addr / p, m.size / p;
    assert m.addr == first * p && m.size == count * p;
    assert (first + count) * p == m.addr + m.size;
    BetweenMultiples(first, first + count, a, p);
  }

  /** Multiples of the page size around an address are multiples around its page. */
  lemma {:induction false} BetweenMultiples(lo: nat, hi: nat, a: nat, p: nat)
    requires p > 0 && lo * p <= a < hi * p
    ensures lo * p <= Base(a, p) && Base(a, p) + p <= hi * p
  {
    var k := a / p;
    assert Base(a, p) == k * p && (k + 1) * p == k * p + p;
    if k < lo {
      MulMonotone(k + 1, lo, p);
    } else {
      MulMonotone(lo, k, p);
    }
    if k >= hi {
      MulMonotone(hi, k, p);
    } else {
      MulMonotone(k + 1, hi, p);
    }
  }

  lemma {:induction false} SamePage(ms: seq<Mapping>, a: nat, b: nat)
    requires Laid(ms) && PageAt(ms, a).Some?
    ensures PageAt(ms, a).value > 0
    ensures var p := PageAt(ms, a).value;
            Base(a, p) <= b < Base(a, p) + p ==> PageAt(ms, b) == Some(p)
  {
    if Covers(ms[0], a) {
      PageInside(ms[0], a);
    } else {
      SamePage(ms[1..], a, b);
      var p := PageAt(ms, a).value;
      if Base(a, p) <= b < Base(a, p) + p {
        InTail(ms[1..], b);
      }
    }
  }

  lemma {:induction false} PageBelowTop(ms: seq<Mapping>, a: nat)
    requires Laid(ms) && PageAt(ms, a).Some?
    ensures 0 < PageAt(ms, a).value < WORD && Base(a, PageAt(ms, a).value) + PageAt(ms, a).value <= WORD
  {
    if Covers(ms[0], a) {
      PageInside(ms[0], a);
    } else {
      PageBelowTop(ms[1..], a);
    }
  }

  lemma {:induction false} InTail(ms: seq<Mapping>, a: nat)
    ensures PageAt(ms, a).Some? ==> exists m :: m in ms && Covers(m, a)
  {
    if ms != [] && PageAt(ms, a).Some? && !Covers(ms[0], a) {
      InTail(ms[1..], a);
    }
  }

  /** Offsets in a page. */
  lemma {:induction false} Offset(a: nat, b: nat, p: nat)
    requires p > 0 && Base(a, p) <= b < Base(a, p) + p
    ensures Base(b, p) == Base(a, p) && b % p == b - Base(a, p)
  {
    assert Base(a, p) == a / p * p;
    DivUnique(b, a / p, b - Base(a, p), p);
  }

  /** Two addresses whose pages begin together are in the same page. */
  lemma {:induction false} BasePage(ms: seq<Mapping>, a: nat, b: nat)
    requires Laid(ms) && PageAt(ms, a).Some? && PageAt(ms, b).Some?
    requires PageAt(ms, a).value > 0 && PageAt(ms, b).value > 0
    requires Base(a, PageAt(ms, a).value) == Base(b, PageAt(ms, b).value)
    ensures PageAt(ms, a) == PageAt(ms, b)
  {
    SamePage(ms, a, Base(a, PageAt(ms, a).value));
    SamePage(ms, b, Base(b, PageAt(ms, b).value));
  }

  // ----- one chunk

  lemma {:induction false} WriteChunkBacked(ms: seq<Mapping>, pages: Pages, addr: nat, data: seq<byte>)
    requires Laid(ms) && Backed(ms, pages) && PageAt(ms, addr).Some?
    requires addr % PageAt(ms, addr).value + |data| <= PageAt(ms, addr).value
    ensures Backed(ms, WriteChunk(ms, pages, addr, data))
  {
    forall a: nat | PageAt(ms, a).Some?
      ensures var p := PageAt(ms, a).value; p > 0 && Base(a, p) in WriteChunk(ms, pages, addr, data) && |WriteChunk(ms, pages, addr, data)[Base(a, p)]| == p
    {
      if Base(a, PageAt(ms, a).value) == Base(addr, PageAt(ms, addr).value) {
        BasePage(ms, a, addr);
      }
    }
  }

  /** A chunk changes exactly the bytes it names. */
  lemma {:induction false} WriteChunkAt(ms: seq<Mapping>, pages: Pages, addr: nat, data: seq<byte>, a: nat)
    requires Laid(ms) && Backed(ms, pages) && PageAt(ms, addr).Some? && PageAt(ms, a).Some?
    requires addr % PageAt(ms, addr).value + |data| <= PageAt(ms, addr).value
    requires Backed(ms, WriteChunk(ms, pages, addr, data))
    ensures ByteAt(ms, WriteChunk(ms, pages, addr, data), a) ==
            if addr <= a < addr + |data| then data[a - addr] else ByteAt(ms, pages, a)
  {
    var p, q := PageAt(ms, addr).value, PageAt(ms, a).value;
    if addr <= a < addr + |data| {
      SamePage(ms, addr, a);
      Offset(addr, a, p);
    } else if Base(a, q) == Base(addr, p) {
      BasePage(ms, a, addr);
    }
  }

  // ----- how far a range is touched

  /** The address is mapped, by a page that does not end at the top of the address space. */
  predicate Safe(ms: seq<Mapping>, a: nat) {
    && PageAt(ms, a).Some? && PageAt(ms, a).value > 0
    && Base(a, PageAt(ms, a).value) + PageAt(ms, a).value < WORD
  }

  /** The number of bytes before the first address that is not safe. */
  function Reach(ms: seq<Mapping>, addr: nat, size: nat): (k: nat)
    ensures k <= size
    ensures forall a: nat | addr <= a < addr + k :: Safe(ms, a)
    ensures k < size ==> !Safe(ms, addr + k)
    decreases size
  {
    if size == 0 || !Safe(ms, addr) then 0 else 1 + Reach(ms, addr + 1, size - 1)
  }

  lemma {:induction false} ReachOn(ms: seq<Mapping>, addr: nat, size: nat, n: nat)
    requires n <= size && forall a: nat | addr <= a < addr + n :: Safe(ms, a)
    ensures Reach(ms, addr, size) == n + Reach(ms, addr + n, size - n)
    decreases n
  {
    if n > 0 {
      ReachOn(ms, addr + 1, size - 1, n - 1);
    }
  }

  lemma {:induction false} SafePage(ms: seq<Mapping>, a: nat, b: nat)
    requires Laid(ms) && Safe(ms, a)
    requires var p := PageAt(ms, a).value; Base(a, p) <= b < Base(a, p) + p
    ensures Safe(ms, b)
  {
    SamePage(ms, a, b);
    Offset(a, b, PageAt(ms, a).value);
  }

  lemma {:induction false} ReachChunk(ms: seq<Mapping>, addr: nat, size: nat)
    requires Laid(ms) && size > 0 && addr + size < WORD && Safe(ms, addr)
    ensures var n := ChunkSize(addr, size, PageAt(ms, addr).value);
            Reach(ms, addr, size) == n + Reach(ms, addr + n, size - n)
  {
    var n := ChunkSize(addr, size, PageAt(ms, addr).value);
    forall a: nat | addr <= a < addr + n ensures Safe(ms, a) { SafePage(ms, addr, a); }
    ReachOn(ms, addr, size, n);
  }

  // ----- whole ranges

  /** Where a write leaves what. */
  ghost predicate Holds(ms: seq<Mapping>, before: Pages, after: Pages, addr: nat, data: seq<byte>)
    requires Backed(ms, before) && Backed(ms, after)
  {
    forall a: nat | PageAt(ms, a).Some? ::
      ByteAt(ms, after, a) == if addr <= a < addr + |data| then data[a - addr] else ByteAt(ms, before, a)
  }

  /** What the status says about a touch that got as far as `k` of `size` bytes. */
  predicate Ends(ms: seq<Mapping>, addr: nat, size: nat, k: nat, status: Status) {
    match status
    case Done => k == size
    case Unmapped => k < size && PageAt(ms, addr + k).None?
    case Overrun => k < size && PageAt(ms, addr + k).Some?
  }

  lemma {:induction false} EndsOn(ms: seq<Mapping>, addr: nat, size: nat, n: nat, k: nat, status: Status)
    requires n <= size && Ends(ms, addr + n, size - n, k, status)
    ensures Ends(ms, addr, size, n + k, status)
  {
    assert addr + n + k == addr + (n + k);
  }

  ghost predicate WriteOutcome(ms: seq<Mapping>, pages: Pages, addr: nat, data: seq<byte>, w: Written)
    requires Backed(ms, pages)
  {
    var k := Reach(ms, addr, |data|);
    Backed(ms, w.pages) && Ends(ms, addr, |data|, k, w.status) && Holds(ms, pages, w.pages, addr, data[..k])
  }

  /** A loop that does not get past its first address. */
  lemma {:induction false} WriteStops(ms: seq<Mapping>, pages: Pages, addr: nat, data: seq<byte>)
    requires Laid(ms) && Backed(ms, pages) && addr + |data| < WORD && data != [] && !Safe(ms, addr)
    ensures Write(ms, pages, addr, data) == Written(pages, if PageAt(ms, addr).None? then Unmapped else Overrun)
  {
    if PageAt(ms, addr).Some? {
      PageBelowTop(ms, addr);
    }
  }

  lemma {:induction false} ReadStops(ms: seq<Mapping>, pages: Pages, addr: nat, size: nat)
    requires Laid(ms) && Backed(ms, pages) && addr + size < WORD && size > 0 && !Safe(ms, addr)
    ensures Read(ms, pages, addr, size) == Got([], if PageAt(ms, addr).None? then Unmapped else Overrun)
  {
    if PageAt(ms, addr).Some? {
      PageBelowTop(ms, addr);
    }
  }

  /** One that stores a chunk first. */
  lemma {:induction false} WritingOn(ms: seq<Mapping>, pages: Pages, addr: nat, data: seq<byte>, n: nat, whole: Written)
    requires Laid(ms) && Backed(ms, pages) && addr + |data| < WORD && data != [] && Safe(ms, addr)
    requires n == ChunkSize(addr, |data|, PageAt(ms, addr).value) && whole == Write(ms, pages, addr, data)
    ensures Backed(ms, WriteChunk(ms, pages, addr, data[..n]))
    ensures Write(ms, WriteChunk(ms, pages, addr, data[..n]), addr + n, data[n..]) == whole
  {
    WriteChunkBacked(ms, pages, addr, data[..n]);
  }

  lemma {:induction false} StopsOutcome(ms: seq<Mapping>, pages: Pages, addr: nat, data: seq<byte>)
    requires Laid(ms) && Backed(ms, pages) && addr + |data| < WORD && (data == [] || !Safe(ms, addr))
    ensures WriteOutcome(ms, pages, addr, data, Write(ms, pages, addr, data))
  {
    if data != [] {
      WriteStops(ms, pages, addr, data);
    }
  }

  lemma {:induction false} WriteEffectFor(ms: seq<Mapping>, pages: Pages, addr: nat, data: seq<byte>, w: Written)
    requires Laid(ms) && Backed(ms, pages) && addr + |data| < WORD && w == Write(ms, pages, addr, data)
    ensures WriteOutcome(ms, pages, addr, data, w)
    decreases |data|
  {
    if data == [] || !Safe(ms, addr) {
      StopsOutcome(ms, pages, addr, data);
    } else {
      var n := ChunkSize(addr, |data|, PageAt(ms, addr).value);
      WritingOn(ms, pages, addr, data, n, w);
      var mid := WriteChunk(ms, pages, addr, data[..n]);
      WriteEffectFor(ms, mid, addr + n, data[n..], w);
      WriteThen(ms, pages, addr, data, n, mid, w);
    }
  }

  /** A write stores the bytes up to the first address that is not mapped or lies in the top page, and touches no
      other byte; the status says which of the three it was. */
  lemma {:induction false} WriteEffect(ms: seq<Mapping>, pages: Pages, addr: nat, data: seq<byte>)
    requires Laid(ms) && Backed(ms, pages) && addr + |data| < WORD
    ensures WriteOutcome(ms, pages, addr, data, Write(ms, pages, addr, data))
  {
    WriteEffectFor(ms, pages, addr, data, Write(ms, pages, addr, data));
  }

  lemma {:induction false} WriteThen(ms: seq<Mapping>, pages: Pages, addr: nat, data: seq<byte>, n: nat, mid: Pages, w: Written)
    requires Laid(ms) && Backed(ms, pages) && Safe(ms, addr) && data != [] && addr + |data| < WORD
    requires n == ChunkSize(addr, |data|, PageAt(ms, addr).value)
    requires mid == WriteChunk(ms, pages, addr, data[..n]) && Backed(ms, mid)
    requires WriteOutcome(ms, mid, addr + n, data[n..], w)
    ensures WriteOutcome(ms, pages, addr, data, w)
  {
    var size := |data|;
    var k := Reach(ms, addr + n, size - n);
    ReachChunk(ms, addr, size);
    assert Reach(ms, addr, size) == n + k;
    EndsOn(ms, addr, size, n, k, w.status);
    HoldsOn(ms, pages, w.pages, addr, data, n, k);
  }

  lemma {:induction false} HoldsOn(ms: seq<Mapping>, pages: Pages, after: Pages, addr: nat, data: seq<byte>, n: nat, k: nat)
    requires Laid(ms) && Backed(ms, pages) && n + k <= |data| && PageAt(ms, addr).Some?
    requires addr % PageAt(ms, addr).value + n <= PageAt(ms, addr).value
    requires Backed(ms, WriteChunk(ms, pages, addr, data[..n])) && Backed(ms, after)
    requires Holds(ms, WriteChunk(ms, pages, addr, data[..n]), after, addr + n, data[n..][..k])
    ensures Holds(ms, pages, after, addr, data[..n + k])
  {
    forall a: nat | PageAt(ms, a).Some?
      ensures ByteAt(ms, after, a) == if addr <= a < addr + (n + k) then data[..n + k][a - addr] else ByteAt(ms, pages, a)
    {
      WriteChunkAt(ms, pages, addr, data[..n], a);
    }
  }

  ghost predicate ReadOutcome(ms: seq<Mapping>, pages: Pages, addr: nat, size: nat, g: Got)
    requires Backed(ms, pages)
  {
    var k := Reach(ms, addr, size);
    |g.data| == k && Ends(ms, addr, size, k, g.status) && forall i | 0 <= i < k :: Safe(ms, addr + i) && g.data[i] == ByteAt(ms, pages, addr + i)
  }

  /** The bytes of a chunk. */
  lemma {:induction false} ReadChunkAt(ms: seq<Mapping>, pages: Pages, addr: nat, n: nat, i: nat)
    requires Laid(ms) && Backed(ms, pages) && PageAt(ms, addr).Some? && addr % PageAt(ms, addr).value + n <= PageAt(ms, addr).value
    requires i < n
    ensures PageAt(ms, addr + i).Some? && ReadChunk(ms, pages, addr, n)[i] == ByteAt(ms, pages, addr + i)
  {
    SamePage(ms, addr, addr + i);
    Offset(addr, addr + i, PageAt(ms, addr).value);
  }

  lemma {:induction false} ReadThen(ms: seq<Mapping>, pages: Pages, addr: nat, size: nat, n: nat, rest: Got)
    requires Laid(ms) && Backed(ms, pages) && Safe(ms, addr) && size > 0 && addr + size < WORD
    requires n == ChunkSize(addr, size, PageAt(ms, addr).value)
    requires ReadOutcome(ms, pages, addr + n, size - n, rest)
    ensures ReadOutcome(ms, pages, addr, size, rest.(data := ReadChunk(ms, pages, addr, n) + rest.data))
  {
    ReachChunk(ms, addr, size);
    EndsOn(ms, addr, size, n, Reach(ms, addr + n, size - n), rest.status);
    var chunk := ReadChunk(ms, pages, addr, n);
    forall i | 0 <= i < n + |rest.data| ensures Safe(ms, addr + i) && (chunk + rest.data)[i] == ByteAt(ms, pages, addr + i) {
      ReadAt(ms, pages, addr, n, rest.data, i);
    }
  }

  lemma {:induction false} ReadAt(ms: seq<Mapping>, pages: Pages, addr: nat, n: nat, rest: seq<byte>, i: nat)
    requires Laid(ms) && Backed(ms, pages) && Safe(ms, addr) && addr % PageAt(ms, addr).value + n <= PageAt(ms, addr).value
    requires i < n + |rest| && forall j | 0 <= j < |rest| :: Safe(ms, addr + n + j) && rest[j] == ByteAt(ms, pages, addr + n + j)
    ensures Safe(ms, addr + i) && (ReadChunk(ms, pages, addr, n) + rest)[i] == ByteAt(ms, pages, addr + i)
  {
    if i < n {
      SafePage(ms, addr, addr + i);
      ReadChunkAt(ms, pages, addr, n, i);
    } else {
      var j := i - n;
      var b := rest[j];
      assert Safe(ms, addr + n + j) && b == ByteAt(ms, pages, addr + n + j);
      assert addr + n + j == addr + i;
    }
  }

  /** A read returns the bytes up to the first address that is not mapped or lies in the top page. */
  lemma {:induction false} ReadEffect(ms: seq<Mapping>, pages: Pages, addr: nat, size: nat)
    requires Laid(ms) && Backed(ms, pages) && addr + size < WORD
    ensures ReadOutcome(ms, pages, addr, size, Read(ms, pages, addr, size))
    decreases size
  {
    if size > 0 && PageAt(ms, addr).Some? {
      PageBelowTop(ms, addr);
      var n := ChunkSize(addr, size, PageAt(ms, addr).value);
      if n <= size {
        ReadEffect(ms, pages, addr + n, size - n);
        var rest := Read(ms, pages, addr + n, size - n);
        assert Read(ms, pages, addr, size) == rest.(data := ReadChunk(ms, pages, addr, n) + rest.data);
        ReadThen(ms, pages, addr, size, n, rest);
      }
    }
  }

  /** What is written is read back. */
  lemma {:induction false} RoundTrip(ms: seq<Mapping>, pages: Pages, addr: nat, data: seq<byte>)
    requires Laid(ms) && Backed(ms, pages) && addr + |data| < WORD && Write(ms, pages, addr, data).status.Done?
    ensures Backed(ms, Write(ms, pages, addr, data).pages)
    ensures Read(ms, Write(ms, pages, addr, data).pages, addr, |data|) == Got(data, Done)
  {
    WriteEffect(ms, pages, addr, data);
    ReadEffect(ms, Write(ms, pages, addr, data).pages, addr, |data|);
  }

  // ----- the page at the top

  /** A range that begins in the page at the top of the address space makes the callback overrun it. */
  lemma {:induction false} TopPageOverruns(ms: seq<Mapping>, pages: Pages, addr: nat, data: seq<byte>)
    requires Laid(ms) && Backed(ms, pages) && addr + |data| < WORD && data != []
    requires PageAt(ms, addr).Some? && PageAt(ms, addr).value > 0
    requires Base(addr, PageAt(ms, addr).value) + PageAt(ms, addr).value == WORD
    ensures Write(ms, pages, addr, data) == Written(pages, Overrun)
  {
    PageBelowTop(ms, addr);
  }

  lemma {:induction false} BelowTopIsSafe(ms: seq<Mapping>, a: nat)
    requires Laid(ms) && forall m | m in ms :: m.addr + m.size < WORD
    ensures Safe(ms, a) <==> PageAt(ms, a).Some?
  {
    if ms != [] {
      assert ms[0] in ms;
      if Covers(ms[0], a) {
        PageInside(ms[0], a);
      } else {
        BelowTopIsSafe(ms[1..], a);
      }
    }
  }

  /** The reservations pass the test of the library. */
  predicate Reserved(ms: seq<Mapping>) { forall m | m in ms :: Allocatable(m.addr, m.size) }

  lemma {:induction false} ReservedBelowTop(ms: seq<Mapping>)
    requires Laid(ms) && Reserved(ms)
    ensures forall m | m in ms :: m.addr + m.size < WORD
  {
    forall m | m in ms ensures m.addr + m.size < WORD {
      InsideSpace(ms, m);
      if m.addr + m.size == WORD {
        MultipleMod(1, WORD);
      }
    }
  }

  lemma {:induction false} ReservedIsSafe(ms: seq<Mapping>, a: nat)
    requires Laid(ms) && Reserved(ms)
    ensures Safe(ms, a) <==> PageAt(ms, a).Some?
  {
    ReservedBelowTop(ms);
    BelowTopIsSafe(ms, a);
  }

  /** Reservations that end at the top are refused, so with those the library makes no touch overruns, and it is
      complete exactly if every address of the range is mapped. */
  lemma {:induction false} ReservedNeverOverrun(ms: seq<Mapping>, pages: Pages, addr: nat, data: seq<byte>)
    requires Laid(ms) && Backed(ms, pages) && addr + |data| < WORD && Reserved(ms)
    ensures !Write(ms, pages, addr, data).status.Overrun?
    ensures Write(ms, pages, addr, data).status.Done? <==> forall a: nat | addr <= a < addr + |data| :: PageAt(ms, a).Some?
  {
    forall a: nat ensures Safe(ms, a) <==> PageAt(ms, a).Some? { ReservedIsSafe(ms, a); }
    WriteEffect(ms, pages, addr, data);
    var k := Reach(ms, addr, |data|);
    if k == |data| {
      forall a: nat | addr <= a < addr + |data| ensures PageAt(ms, a).Some? { assert Safe(ms, a); }
    } else {
      assert !Safe(ms, addr + k);
      ReservedIsSafe(ms, addr + k);
      assert addr <= addr + k < addr + |data| && !PageAt(ms, addr + k).Some?;
      assert !Write(ms, pages, addr, data).status.Done?;
    }
  }

  lemma {:induction false} InsideSpace(ms: seq<Mapping>, m: Mapping)
    requires Laid(ms) && m in ms
    ensures m.addr + m.size <= WORD && m.size < WORD
  {
    if m != ms[0] {
      InsideSpace(ms[1..], m);
    }
  }

  // ----- the checks around the loop

  /** is_ram_region */
  predicate InRam(regions: seq<Ram.Region>, addr: nat, size: nat) {
    Ram.FindSub(regions, addr, size) < |regions|
  }

  /** The bytes the loop goes over: up to the end address, which is computed in words. */
  function LoopBytes(addr: nat, size: nat): (n: nat)
    ensures n <= size
  {
    var end := (addr + size) % WORD;
    if addr < end then Min(size, end - addr) else 0
  }

  /** vm_guest_write_mem; `None` if the range is not in RAM. */
  function WriteGuest(regions: seq<Ram.Region>, ms: seq<Mapping>, pages: Pages, addr: nat, data: seq<byte>): Option<Written>
    requires Laid(ms) && Backed(ms, pages) && addr < WORD && |data| < WORD
  {
    if !InRam(regions, addr, |data|) then None
    else
      LoopEnds(addr, |data|);
      Some(Write(ms, pages, addr, data[..LoopBytes(addr, |data|)]))
  }

  /** vm_guest_read_mem: what was copied into the buffer. */
  function ReadGuest(regions: seq<Ram.Region>, ms: seq<Mapping>, pages: Pages, addr: nat, size: nat): Option<Got>
    requires Laid(ms) && Backed(ms, pages) && addr < WORD && size < WORD
  {
    if !InRam(regions, addr, size) then None
    else
      LoopEnds(addr, size);
      Some(Read(ms, pages, addr, LoopBytes(addr, size)))
  }

  lemma {:induction false} LoopEnds(addr: nat, size: nat)
    requires addr < WORD && size < WORD
    ensures addr + LoopBytes(addr, size) < WORD
  {
  }

  /** The loop goes over the whole range exactly if the range does not end at the top of the address
      space; one that does is skipped and reported as a success. */
  lemma {:induction false} WholeRangeIff(addr: nat, size: nat)
    requires addr < WORD && 0 < size && addr + size <= WORD
    ensures LoopBytes(addr, size) == size <==> addr + size < WORD
    ensures addr + size == WORD ==> LoopBytes(addr, size) == 0
  {
    if addr + size == WORD {
      MultipleMod(1, WORD);
    } else {
      DivUnique(addr + size, 0, addr + size, WORD);
    }
  }

  /** For a range that does not end at the top of the address space: a write is complete exactly if the range lies
      in one RAM region and is mapped throughout by pages that do not end at the top either, and then it is read
      back and no other byte has changed. */
  lemma {:induction false} GuestRoundTrip(regions: seq<Ram.Region>, ms: seq<Mapping>, pages: Pages, addr: nat, data: seq<byte>)
    requires Laid(ms) && Backed(ms, pages) && addr + |data| < WORD
    ensures var w := WriteGuest(regions, ms, pages, addr, data);
            && (w.Some? <==> InRam(regions, addr, |data|))
            && (w.Some? ==> Backed(ms, w.value.pages))
            && (w.Some? && w.value.status.Done? <==> InRam(regions, addr, |data|) && Reach(ms, addr, |data|) == |data|)
            && (w.Some? && w.value.status.Done? ==>
                  && ReadGuest(regions, ms, w.value.pages, addr, |data|) == Some(Got(data, Done))
                  && Holds(ms, pages, w.value.pages, addr, data))
  {
    if data != [] {
      WholeRangeIff(addr, |data|);
    }
    assert data[..LoopBytes(addr, |data|)] == data;
    WriteEffect(ms, pages, addr, data);
    if Write(ms, pages, addr, data).status.Done? {
      RoundTrip(ms, pages, addr, data);
      assert data[..|data|] == data;
    }
  }

  // ----- in place

  /** A read that has got `data` so far. */
  predicate Reading(data: seq<byte>, rest: Got, whole: Got) {
    whole == rest.(data := data + rest.data)
  }

  /** A chunk first. */
  lemma {:induction false} ReadingOn(ms: seq<Mapping>, pages: Pages, at: nat, left: nat, n: nat, data: seq<byte>, rest: Got, whole: Got)
    returns (rest': Got)
    requires Laid(ms) && Backed(ms, pages) && at + left < WORD && left > 0 && Safe(ms, at)
    requires n == ChunkSize(at, left, PageAt(ms, at).value)
    requires rest == Read(ms, pages, at, left) && Reading(data, rest, whole)
    ensures rest' == Read(ms, pages, at + n, left - n) && Reading(data + ReadChunk(ms, pages, at, n), rest', whole)
  {
    rest' := Read(ms, pages, at + n, left - n);
    Regroup(data, ReadChunk(ms, pages, at, n), rest'.data);
  }

  lemma {:induction false} Regroup(a: seq<byte>, b: seq<byte>, c: seq<byte>)
    ensures a + (b + c) == (a + b) + c
  {
  }

  class GuestMemory {
    const mappings: seq<Mapping>
    var pages: Pages

    ghost predicate Valid()
      reads this
    {
      Laid(mappings) && Backed(mappings, pages)
    }

    constructor (ms: seq<Mapping>, contents: Pages)
      requires Laid(ms) && Backed(ms, contents)
      ensures Valid() && mappings == ms && pages == contents
    {
      mappings, pages := ms, contents;
    }

    /** How many bytes to touch next, if the page is mapped and does not lie at the top. */
    method NextChunk(current: nat, end: nat) returns (status: Status, n: nat)
      requires Valid() && current < end < WORD
      ensures match status
              case Unmapped => PageAt(mappings, current).None?
              case Overrun => PageAt(mappings, current).Some? && !Safe(mappings, current)
              case Done => Safe(mappings, current) && n == ChunkSize(current, end - current, PageAt(mappings, current).value)
    {
      var page := PageAt(mappings, current);
      if page.None? {
        return Unmapped, 0;
      }
      PageBelowTop(mappings, current);
      ChunkSizeInWords(current, end - current, page.value);
      n := ChunkInWords(current, end, page.value);
      status := if n > end - current then Overrun else Done;
    }

    /** One turn of the loop with the write callback, when `rest` is still to be written. */
    method WriteTurn(current: nat, rest: seq<byte>, ghost whole: Written) returns (status: Status, current': nat, rest': seq<byte>)
      requires Valid() && rest != [] && current + |rest| < WORD && whole == Write(mappings, pages, current, rest)
      modifies this
      ensures Valid()
      ensures status != Done ==> whole == Written(pages, status)
      ensures status == Done ==> |rest'| < |rest| && current' + |rest'| == current + |rest|
      ensures status == Done ==> whole == Write(mappings, pages, current', rest')
    {
      current', rest' := current, rest;
      var n;
      status, n := NextChunk(current, current + |rest|);
      if status != Done {
        WriteStops(mappings, pages, current, rest);
      } else {
        WritingOn(mappings, pages, current, rest, n, whole);
        StoreChunk(current, rest[..n]);
        current', rest' := current + n, rest[n..];
      }
    }

    /** The loop of vm_ram_touch with the write callback. */
    method WriteMem(addr: nat, data: seq<byte>) returns (status: Status)
      requires Valid() && addr + |data| < WORD
      modifies this
      ensures Valid() && Written(pages, status) == Write(mappings, old(pages), addr, data)
    {
      ghost var whole := Write(mappings, pages, addr, data);
      var current: nat, rest := addr, data;
      status := Done;
      while rest != []
        invariant Valid() && status == Done && current + |rest| < WORD && whole == Write(mappings, pages, current, rest)
        decreases |rest|
      {
        status, current, rest := WriteTurn(current, rest, whole);
        if status != Done {
          return;
        }
      }
    }

    /** The write callback on one page. */
    method StoreChunk(addr: nat, chunk: seq<byte>)
      requires Valid() && PageAt(mappings, addr).Some?
      requires addr % PageAt(mappings, addr).value + |chunk| <= PageAt(mappings, addr).value
      modifies this
      ensures Valid() && pages == WriteChunk(mappings, old(pages), addr, chunk)
    {
      WriteChunkBacked(mappings, pages, addr, chunk);
      var p := PageAt(mappings, addr).value;
      pages := pages[Base(addr, p) := Splice(pages[Base(addr, p)], addr % p, chunk)];
    }

    /** One turn of the loop with the read callback, when `data` has been read and `rest` is to come. */
    method ReadTurn(at: nat, left: nat, ghost data: seq<byte>, ghost rest: Got, ghost whole: Got)
      returns (status: Status, chunk: seq<byte>, at': nat, left': nat, ghost rest': Got)
      requires Valid() && at + left < WORD && left > 0 && rest == Read(mappings, pages, at, left) && Reading(data, rest, whole)
      ensures status != Done ==> whole == Got(data, status)
      ensures status == Done ==> left' < left && at' + left' == at + left && Reading(data + chunk, rest', whole)
      ensures status == Done ==> rest' == Read(mappings, pages, at', left')
    {
      chunk, at', left', rest' := [], at, left, rest;
      var n;
      status, n := NextChunk(at, at + left);
      if status != Done {
        ReadStops(mappings, pages, at, left);
      } else {
        rest' := ReadingOn(mappings, pages, at, left, n, data, rest, whole);
        chunk, at', left' := ReadChunk(mappings, pages, at, n), at + n, left - n;
      }
    }

    /** The loop of vm_ram_touch with the read callback. */
    method ReadMem(addr: nat, size: nat) returns (data: seq<byte>, status: Status)
      requires Valid() && addr + size < WORD
      ensures Got(data, status) == Read(mappings, pages, addr, size)
    {
      ghost var whole := Read(mappings, pages, addr, size);
      ghost var rest := whole;
      var at: nat, left: nat := addr, size;
      data, status := [], Done;
      while left > 0
        invariant status == Done && at + left < WORD && rest == Read(mappings, pages, at, left) && Reading(data, rest, whole)
      {
        var chunk;
        status, chunk, at, left, rest := ReadTurn(at, left, data, rest, whole);
        if status != Done {
          return;
        }
        data := data + chunk;
      }
    }

    /** vm_guest_write_mem */
    method WriteGuestMem(regions: seq<Ram.Region>, addr: nat, data: seq<byte>) returns (status: Option<Status>)
      requires Valid() && addr < WORD && |data| < WORD
      modifies this
      ensures Valid()
      ensures match WriteGuest(regions, mappings, old(pages), addr, data) {
        case None => status == None && pages == old(pages)
        case Some(w) => status == Some(w.status) && pages == w.pages
      }
    {
      status := None;
      if InRam(regions, addr, |data|) {
        LoopEnds(addr, |data|);
        var s := WriteMem(addr, data[..LoopBytes(addr, |data|)]);
        status := Some(s);
      }
    }

    /** vm_guest_read_mem */
    method ReadGuestMem(regions: seq<Ram.Region>, addr: nat, size: nat) returns (got: Option<Got>)
      requires Valid() && addr < WORD && size < WORD
      ensures got == ReadGuest(regions, mappings, pages, addr, size)
    {
      got := None;
      if InRam(regions, addr, size) {
        LoopEnds(addr, size);
        var data, status := ReadMem(addr, LoopBytes(addr, size));
        got := Some(Got(data, status));
      }
    }
  }
}
