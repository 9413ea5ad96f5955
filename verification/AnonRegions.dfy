/** Anonymous memory: bump allocation inside a region, with the word arithmetic of the source. */
module AnonRegions {
  import opened Arith
  import opened Common
  import opened ReservationTree
  import opened Reservations

  const PAGE: nat := 4096

  datatype Range = Range(addr: nat, size: nat)

  function Upto(x: Range): nat { x.addr + x.size }

  /** `alloc`: where the next reservation may begin. */
  datatype Region = Region(addr: nat, size: nat, alloc: nat, reservations: seq<Range>)

  function Limit(r: Region): nat { r.addr + r.size }

  // ----- rounding

  function RoundUp(x: nat, b: nat): (y: nat)
    requires b > 0
    ensures x <= y < x + b && y % b == 0
  {
    RoundUpFacts(x, b);
    (x + b - 1) / b * b
  }

  lemma {:induction false} RoundUpFacts(x: nat, b: nat)
    requires b > 0
    ensures var y := (x + b - 1) / b * b; x <= y < x + b && y % b == 0
  {
    MultipleMod((x + b - 1) / b, b);
  }

  /** Rounding up stays below every multiple above. */
  lemma {:induction false} RoundUpLeast(x: nat, b: nat, z: nat)
    requires b > 0 && x <= z && z % b == 0
    ensures RoundUp(x, b) <= z
  {
    var y := RoundUp(x, b);
    if y > z {
      assert y / b * b == y && z / b * b == z;
      if z / b < y / b {
        MulMonotone(z / b + 1, y / b, b);
      } else {
        MulMonotone(y / b, z / b, b);
      }
    }
  }

  /** ROUND_UP in words. */
  function RoundUpWord(x: nat, b: nat): (y: nat)
    requires b > 0
    ensures y < WORD
  {
    RoundUp(x, b) % WORD
  }

  lemma {:induction false} RoundUpWraps(x: nat, b: nat)
    requires x < WORD && 0 < b < WORD
    ensures RoundUpWord(x, b) == if RoundUp(x, b) < WORD then RoundUp(x, b) else RoundUp(x, b) - WORD
  {
    var y := RoundUp(x, b);
    if y < WORD {
      DivUnique(y, 0, y, WORD);
    } else {
      DivUnique(y, 1, y - WORD, WORD);
    }
  }

  /** A size in the last page of the word range rounds up to 0. */
  lemma {:induction false} SizeRounds(size: nat)
    requires size < WORD
    ensures size <= WORD - PAGE ==> RoundUpWord(size, PAGE) == RoundUp(size, PAGE) <= WORD - PAGE
    ensures size > WORD - PAGE ==> RoundUp(size, PAGE) == WORD && RoundUpWord(size, PAGE) == 0
  {
    RoundUpWraps(size, PAGE);
    if size <= WORD - PAGE {
      RoundUpLeast(size, PAGE, WORD - PAGE);
    } else {
      RoundUpLeast(size, PAGE, WORD);
    }
  }

  // ----- the operation

  datatype Request = Request(size: nat, align: nat)

  predicate Words(q: Request) { 0 < q.align < WORD && q.size < WORD }

  /** Where the next reservation goes. */
  function Place(r: Region, align: nat): nat
    requires align > 0
  {
    RoundUpWord(r.alloc, align)
  }

  /** The free space find_allocable_anon_region computes from an aligned start. */
  function FreeFrom(addr: nat, size: nat, start: nat): nat { (size - (start - addr)) % WORD }

  predicate Accepts(r: Region, q: Request)
    requires q.align > 0
  {
    RoundUpWord(q.size, PAGE) <= FreeFrom(r.addr, r.size, Place(r, q.align))
  }

  predicate Served(r: Region, q: Request)
    requires q.align > 0
  {
    Accepts(r, q) && Allocatable(Place(r, q.align), q.size)
  }

  /** vm_reserve_anon_memory in the region it picked. */
  function Bump(r: Region, q: Request): Region
    requires q.align > 0
  {
    var at := Place(r, q.align);
    r.(alloc := (at + RoundUpWord(q.size, PAGE)) % WORD, reservations := r.reservations + [Range(at, q.size)])
  }

  function Serve(r: Region, q: Request): Region
    requires q.align > 0
  {
    if Served(r, q) then Bump(r, q) else r
  }

  // ----- where a reservation goes

  /** It begins in the unallocated part and, rounded to pages, ends inside the region. */
  predicate Placed(r: Region, q: Request)
    requires q.align > 0
  {
    r.alloc <= Place(r, q.align) && Place(r, q.align) + RoundUp(q.size, PAGE) <= Limit(r)
  }

  /** What a caller can tell beforehand. */
  predicate Fits(r: Region, q: Request)
    requires q.align > 0
  {
    RoundUp(r.alloc, q.align) <= Limit(r) && q.size <= WORD - PAGE
  }

  /** An accepted reservation is placed right exactly when its aligned start is not beyond the end of the
      region and its size does not round up to the whole word range. */
  lemma {:induction false} PlacedIff(r: Region, q: Request)
    requires Words(q) && r.addr <= r.alloc < WORD && Limit(r) < WORD && Accepts(r, q)
    ensures Placed(r, q) <==> Fits(r, q)
  {
    RoundUpWraps(r.alloc, q.align);
    SizeRounds(q.size);
    var at := RoundUp(r.alloc, q.align);
    if at <= Limit(r) {
      DivUnique(Limit(r) - at, 0, Limit(r) - at, WORD);
    }
  }

  /** A full region whose end is not aligned still accepts a request. */
  lemma {:induction false} FullRegionAccepts()
    ensures var r, q := Region(0x1000, 0x1000, 0x2000, [Range(0x1000, 0x1000)]), Request(0x1000, 0x10000);
            Served(r, q) && !Placed(r, q)
  {
  }

  /** An aligned start rounds to itself. */
  lemma {:induction false} AlignedStays(at: nat, align: nat)
    requires at < WORD && 0 < align < WORD && at % align == 0
    ensures RoundUpWord(at, align) == at
  {
    RoundUpLeast(at, align, at);
    RoundUpWraps(at, align);
  }

  lemma {:induction false} HugeAllocatable(at: nat, size: nat)
    requires at < WORD && 0 < size < WORD && at + size != WORD
    ensures Allocatable(at, size)
  {
    if at + size > WORD {
      DivUnique(at + size, 1, at + size - WORD, WORD);
    } else {
      DivUnique(at + size, 0, at + size, WORD);
    }
  }

  /** A request that rounds up to the whole word range is accepted by every region with an aligned start
      inside, unless it ends exactly at the top, and the next reservation begins at the same address. */
  lemma {:induction false} HugeRequestAccepted(r: Region, q: Request)
    requires RegionOk(r) && Words(q) && q.size > WORD - PAGE && RoundUp(r.alloc, q.align) <= Limit(r)
    requires Place(r, q.align) + q.size != WORD
    ensures Served(r, q) && Place(Bump(r, q), q.align) == Place(r, q.align)
  {
    var at := Place(r, q.align);
    SizeRounds(q.size);
    RoundUpWraps(r.alloc, q.align);
    HugeAllocatable(at, q.size);
    DivUnique(at, 0, at, WORD);
    AlignedStays(at, q.align);
  }

  // ----- what the region keeps

  /** Reservations are in ascending order inside the allocated part, which ends with the last one. */
  predicate RegionOk(r: Region) {
    && r.addr <= r.alloc <= Limit(r) < WORD
    && (forall i | 0 <= i < |r.reservations| ::
          r.reservations[i].size > 0 && r.addr <= r.reservations[i].addr && Upto(r.reservations[i]) <= r.alloc)
    && (forall i, j | 0 <= i < j < |r.reservations| :: Upto(r.reservations[i]) <= r.reservations[j].addr)
    && (if r.reservations == [] then r.alloc == r.addr else Last(r).addr + RoundUp(Last(r).size, PAGE) == r.alloc)
  }

  function Last(r: Region): Range
    requires r.reservations != []
  {
    r.reservations[|r.reservations| - 1]
  }

  lemma {:induction false} BumpKeeps(r: Region, q: Request)
    requires RegionOk(r) && Words(q) && q.size > 0 && Accepts(r, q) && Fits(r, q)
    ensures RegionOk(Bump(r, q))
  {
    PlacedIff(r, q);
    SizeRounds(q.size);
    var end := Place(r, q.align) + RoundUp(q.size, PAGE);
    DivUnique(end, 0, end, WORD);
  }

  lemma {:induction false} HugeBreaks(r: Region, q: Request)
    requires Words(q) && q.size > WORD - PAGE
    ensures !RegionOk(Bump(r, q))
  {
    SizeRounds(q.size);
    var b := Bump(r, q);
    DivUnique(Place(r, q.align), 0, Place(r, q.align), WORD);
    assert b.reservations[|r.reservations|] == Range(Place(r, q.align), q.size);
  }

  lemma {:induction false} BeyondBreaks(r: Region, q: Request)
    requires RegionOk(r) && Words(q) && q.align <= WORD - PAGE && 0 < q.size <= WORD - PAGE
    requires RoundUp(r.alloc, q.align) > Limit(r)
    ensures !RegionOk(Bump(r, q))
  {
    var b, n, at := Bump(r, q), |r.reservations|, Place(r, q.align);
    RoundUpWraps(r.alloc, q.align);
    SizeRounds(q.size);
    assert b.reservations[n] == Range(at, q.size);
    if RoundUp(r.alloc, q.align) < WORD {
      var end := at + RoundUp(q.size, PAGE);
      if end < WORD {
        DivUnique(end, 0, end, WORD);
      } else {
        DivUnique(end, 1, end - WORD, WORD);
      }
    } else if n > 0 {
      assert b.reservations[n - 1] == Last(r);
      assert Upto(Last(r)) > at;
    }
  }

  /** A request keeps the reservations disjoint and inside the region exactly when it is refused, or its
      aligned start is not beyond the end and its size is not in the last page of the word range. */
  lemma {:induction false} ServeKeepsIff(r: Region, q: Request)
    requires RegionOk(r) && Words(q) && q.align <= WORD - PAGE
    ensures RegionOk(Serve(r, q)) <==> !Served(r, q) || Fits(r, q)
  {
    if Served(r, q) {
      if Fits(r, q) {
        BumpKeeps(r, q);
      } else if q.size > WORD - PAGE {
        HugeBreaks(r, q);
      } else {
        BeyondBreaks(r, q);
      }
    }
  }

  /** A request with such a start and size is served exactly if, rounded to pages, it has room behind the first aligned
      address of the unallocated part; it is placed there with the size asked for, and nothing else changes. */
  lemma {:induction false} ServeSeen(r: Region, q: Request)
    requires RegionOk(r) && Words(q) && Fits(r, q)
    ensures var at := RoundUp(r.alloc, q.align);
            && (Served(r, q) <==> q.size > 0 && at + RoundUp(q.size, PAGE) <= Limit(r))
            && (!Served(r, q) ==> Serve(r, q) == r)
            && (Served(r, q) ==>
                  Serve(r, q) == r.(alloc := at + RoundUp(q.size, PAGE), reservations := r.reservations + [Range(at, q.size)]))
  {
    var at := RoundUp(r.alloc, q.align);
    RoundUpWraps(r.alloc, q.align);
    SizeRounds(q.size);
    DivUnique(Limit(r) - at, 0, Limit(r) - at, WORD);
    if at + RoundUp(q.size, PAGE) <= Limit(r) {
      DivUnique(at + RoundUp(q.size, PAGE), 0, at + RoundUp(q.size, PAGE), WORD);
      DivUnique(at + q.size, 0, at + q.size, WORD);
    }
  }

  // ----- runs

  /** Every request is refused or fits. */
  predicate GoodRun(r: Region, qs: seq<Request>)
    decreases |qs|
  {
    qs == [] || (Words(qs[0]) && qs[0].align <= WORD - PAGE && (!Served(r, qs[0]) || Fits(r, qs[0])) && GoodRun(Serve(r, qs[0]), qs[1..]))
  }

  function ServeAll(r: Region, qs: seq<Request>): Region
    requires GoodRun(r, qs)
    decreases |qs|
  {
    if qs == [] then r else ServeAll(Serve(r, qs[0]), qs[1..])
  }

  /** Over any such run reservations stay disjoint and inside the region. */
  lemma {:induction false} ServeAllKeeps(r: Region, qs: seq<Request>)
    requires RegionOk(r) && GoodRun(r, qs)
    ensures RegionOk(ServeAll(r, qs))
    decreases |qs|
  {
    if qs != [] {
      ServeKeepsIff(r, qs[0]);
      ServeAllKeeps(Serve(r, qs[0]), qs[1..]);
    }
  }

  /** In particular if every alignment divides the end of the region. */
  lemma {:induction false} AlignedEndIsGood(r: Region, qs: seq<Request>)
    requires RegionOk(r)
    requires forall q | q in qs :: 0 < q.align <= WORD - PAGE && Limit(r) % q.align == 0 && q.size <= WORD - PAGE
    ensures GoodRun(r, qs)
    decreases |qs|
  {
    if qs != [] {
      assert qs[0] in qs;
      RoundUpLeast(r.alloc, qs[0].align, Limit(r));
      ServeKeepsIff(r, qs[0]);
      AlignedEndIsGood(Serve(r, qs[0]), qs[1..]);
    }
  }

  // ----- lookup by address

  predicate Covers(x: Range, a: nat) { x.addr <= a < Upto(x) }

  /** find_anon_reservation_by_addr */
  function FindIn(rs: seq<Range>, a: nat): Option<Range>
    decreases |rs|
  {
    if rs == [] then None else if Covers(rs[0], a) then Some(rs[0]) else FindIn(rs[1..], a)
  }

  lemma {:induction false} FindInSound(rs: seq<Range>, a: nat)
    ensures match FindIn(rs, a) {
      case Some(x) => x in rs && Covers(x, a)
      case None => forall x | x in rs :: !Covers(x, a)
    }
  {
    if rs != [] {
      FindInSound(rs[1..], a);
      assert rs == [rs[0]] + rs[1..];
    }
  }

  /** The two trees and the regions that the entries of the anonymous one stand for. */
  datatype Memory = Memory(regular: Tree, anon: Tree, regions: seq<Region>)

  predicate Stands(e: Entry, regions: seq<Region>) {
    && e.data < |regions| && regions[e.data].addr == e.addr && regions[e.data].size == e.size
    && RegionOk(regions[e.data])
  }

  ghost predicate MemoryOk(m: Memory) {
    Ordered(m.regular) && Ordered(m.anon) && forall e | e in Elements(m.anon) :: Stands(e, m.regions)
  }

  datatype Owner = Regular(entry: Entry) | Anonymous(entry: Entry, range: Range)

  /** vm_reservation_find_by_addr */
  function Lookup(m: Memory, a: nat): Option<Owner> {
    match Find(m.regular, Entry(a, 0, 0))
    case Some(e) => Some(Regular(e))
    case None =>
      match Find(m.anon, Entry(a, 0, 0))
      case None => None
      case Some(e) =>
        match FindIn(if e.data < |m.regions| then m.regions[e.data].reservations else [], a)
        case None => None
        case Some(x) => Some(Anonymous(e, x))
  }

  /** A reservation that contains the address: a regular one, or one in an anonymous region. */
  ghost predicate Owns(m: Memory, o: Owner, a: nat) {
    match o
    case Regular(e) => e in Elements(m.regular) && Contains(e, a)
    case Anonymous(e, x) => e in Elements(m.anon) && Stands(e, m.regions) && x in m.regions[e.data].reservations && Covers(x, a)
  }

  /** Reservations lie in their region, so only the region containing the address can have one. */
  lemma {:induction false} OwnerInRegion(m: Memory, e: Entry, x: Range, a: nat)
    requires Owns(m, Anonymous(e, x), a)
    ensures Contains(e, a)
  {
    var rs := m.regions[e.data].reservations;
    var i :| 0 <= i < |rs| && rs[i] == x;
  }

  lemma {:induction false} OneInRegion(r: Region, x: Range, y: Range, a: nat)
    requires RegionOk(r) && x in r.reservations && y in r.reservations && Covers(x, a) && Covers(y, a)
    ensures x == y
  {
    var i :| 0 <= i < |r.reservations| && r.reservations[i] == x;
    var j :| 0 <= j < |r.reservations| && r.reservations[j] == y;
  }

  /** The lookup finds the owner of an address, regular ones first: the only regular one, or the only
      anonymous one; and nothing exactly if there is none. */
  lemma {:induction false} LookupOwns(m: Memory, a: nat)
    requires MemoryOk(m)
    ensures Lookup(m, a).Some? ==> Owns(m, Lookup(m, a).value, a)
    ensures forall o | Owns(m, o, a) :: Lookup(m, a).Some? && (o.Regular? || Lookup(m, a).value.Anonymous? ==> Lookup(m, a).value == o)
  {
    ReservationTree.FindByAddress(m.regular, a);
    ReservationTree.FindByAddress(m.anon, a);
    var found := Find(m.anon, Entry(a, 0, 0));
    if found.Some? {
      assert found.value in Elements(m.anon);
      FindInSound(m.regions[found.value.data].reservations, a);
    }
    forall o | Owns(m, o, a)
      ensures Lookup(m, a).Some? && (o.Regular? || Lookup(m, a).value.Anonymous? ==> Lookup(m, a).value == o)
    {
      if o.Anonymous? {
        OwnerInRegion(m, o.entry, o.range, a);
        if Lookup(m, a).Some? && Lookup(m, a).value.Anonymous? {
          OneInRegion(m.regions[o.entry.data], o.range, Lookup(m, a).value.range, a);
        }
      }
    }
  }

  // ----- whole runs

  /** `ReserveAnon` names the region that find_allocable_anon_region picked. */
  datatype Event =
    | ReserveAt(entry: Entry)
    | MakeAnon(addr: nat, size: nat)
    | ReserveAnon(region: nat, request: Request)
    | Release(addr: nat, size: nat)

  /** Arguments are words, and so is the end of a new region. */
  predicate CanHappen(m: Memory, e: Event) {
    match e
    case MakeAnon(addr, size) => 0 < size && addr + size < WORD
    case ReserveAnon(k, q) => k < |m.regions| && Words(q) && q.align <= WORD - PAGE
    case _ => true
  }

  function Step(m: Memory, e: Event): Memory
    requires CanHappen(m, e)
  {
    match e
    case ReserveAt(entry) => if Allocatable(entry.addr, entry.size) then m.(regular := Add(m.regular, entry).tree) else m
    case MakeAnon(addr, size) =>
      var a := Add(m.anon, Entry(addr, size, |m.regions|));
      if a.ok then m.(anon := a.tree, regions := m.regions + [Region(addr, size, addr, [])]) else m
    case ReserveAnon(k, q) => m.(regions := m.regions[k := Serve(m.regions[k], q)])
    case Release(addr, size) => m.(regular := Remove(m.regular, addr, size))
  }

  /** What each operation does to the reservations there are. */
  lemma {:induction false} StepSeen(m: Memory, e: Event)
    requires CanHappen(m, e) && Ordered(m.regular) && Ordered(m.anon)
    ensures var t := Step(m, e);
            match e
            case ReserveAt(x) =>
              && t.anon == m.anon && t.regions == m.regions
              && Elements(t.regular) == if Allocatable(x.addr, x.size) && forall y | y in Elements(m.regular) :: !Overlap(x, y)
                                        then Elements(m.regular) + {x} else Elements(m.regular)
            case MakeAnon(addr, size) =>
              var x := Entry(addr, size, |m.regions|);
              && t.regular == m.regular
              && if forall y | y in Elements(m.anon) :: !Overlap(x, y)
                 then Elements(t.anon) == Elements(m.anon) + {x} && t.regions == m.regions + [Region(addr, size, addr, [])]
                 else t == m
            case ReserveAnon(k, q) =>
              && t.regular == m.regular && t.anon == m.anon && |t.regions| == |m.regions|
              && t.regions[k] == Serve(m.regions[k], q) && forall i | 0 <= i < |m.regions| && i != k :: t.regions[i] == m.regions[i]
            case Release(addr, size) =>
              && t.anon == m.anon && t.regions == m.regions
              && Elements(t.regular) == set x | x in Elements(m.regular) && !(x.addr == addr && x.size == size)
  {
    match e
    case ReserveAt(x) =>
      if Allocatable(x.addr, x.size) {
        AddIff(m.regular, x);
      }
    case MakeAnon(addr, size) => AddIff(m.anon, Entry(addr, size, |m.regions|));
    case ReserveAnon(_, _) =>
    case Release(addr, size) => RemoveExact(m.regular, addr, size);
  }

  ghost predicate AllOk(m: Memory) { MemoryOk(m) && forall i | 0 <= i < |m.regions| :: RegionOk(m.regions[i]) }

  /** Only a request that is served although it does not fit does harm. */
  predicate Good(m: Memory, e: Event)
    requires CanHappen(m, e)
  {
    e.ReserveAnon? ==> !Served(m.regions[e.region], e.request) || Fits(m.regions[e.region], e.request)
  }

  lemma {:induction false} MakeAnonKeeps(m: Memory, addr: nat, size: nat)
    requires AllOk(m) && 0 < size && addr + size < WORD
    ensures AllOk(Step(m, MakeAnon(addr, size)))
  {
    AddIff(m.anon, Entry(addr, size, |m.regions|));
    var t := Step(m, MakeAnon(addr, size));
    forall e | e in Elements(t.anon) ensures Stands(e, t.regions) {
      assert e in Elements(m.anon) ==> Stands(e, m.regions);
    }
  }

  lemma {:induction false} ServeStands(m: Memory, k: nat, q: Request)
    requires AllOk(m) && CanHappen(m, ReserveAnon(k, q)) && RegionOk(Serve(m.regions[k], q))
    ensures AllOk(Step(m, ReserveAnon(k, q)))
  {
    var t := Step(m, ReserveAnon(k, q));
    forall e | e in Elements(t.anon) ensures Stands(e, t.regions) {
      assert Stands(e, m.regions);
    }
  }

  /** Every event keeps the trees ordered and the reservations of every region disjoint and inside it, exactly if it
      is not a request served although it does not fit. */
  lemma {:induction false} StepKeepsIff(m: Memory, e: Event)
    requires AllOk(m) && CanHappen(m, e)
    ensures AllOk(Step(m, e)) <==> Good(m, e)
  {
    match e
    case ReserveAt(entry) =>
      if Allocatable(entry.addr, entry.size) {
        AddIff(m.regular, entry);
      }
    case MakeAnon(addr, size) => MakeAnonKeeps(m, addr, size);
    case ReserveAnon(k, q) =>
      ServeKeepsIff(m.regions[k], q);
      if Good(m, e) {
        ServeStands(m, k, q);
      } else {
        assert !RegionOk(Step(m, e).regions[k]);
      }
    case Release(addr, size) => RemoveExact(m.regular, addr, size);
  }

  predicate GoodMemoryRun(m: Memory, es: seq<Event>)
    decreases |es|
  {
    es == [] || (CanHappen(m, es[0]) && Good(m, es[0]) && GoodMemoryRun(Step(m, es[0]), es[1..]))
  }

  function Run(m: Memory, es: seq<Event>): Memory
    requires GoodMemoryRun(m, es)
    decreases |es|
  {
    if es == [] then m else Run(Step(m, es[0]), es[1..])
  }

  lemma {:induction false} RunKeeps(m: Memory, es: seq<Event>)
    requires AllOk(m) && GoodMemoryRun(m, es)
    ensures AllOk(Run(m, es))
    decreases |es|
  {
    if es != [] {
      StepKeepsIff(m, es[0]);
      RunKeeps(Step(m, es[0]), es[1..]);
    }
  }

  /** After any such run from no reservations at all the lookup finds the owner of every address, and nothing exactly
      if there is none. */
  lemma {:induction false} RunLookupOwns(es: seq<Event>, a: nat)
    requires GoodMemoryRun(Memory(Leaf, Leaf, []), es)
    ensures var m := Run(Memory(Leaf, Leaf, []), es);
            && (Lookup(m, a).Some? ==> Owns(m, Lookup(m, a).value, a))
            && (Lookup(m, a).None? ==> forall o :: !Owns(m, o, a))
  {
    var empty := Memory(Leaf, Leaf, []);
    RunKeeps(empty, es);
    var m := Run(empty, es);
    LookupOwns(m, a);
    if Lookup(m, a).None? {
      forall o ensures !Owns(m, o, a) {}
    }
  }

  // ----- in place

  class AnonRegion {
    const addr: nat
    const size: nat
    var allocAddr: nat
    var reservations: seq<Range>

    ghost function Value(): Region
      reads this
    {
      Region(addr, size, allocAddr, reservations)
    }

    constructor (a: nat, n: nat)
      ensures Value() == Region(a, n, a, [])
    {
      addr, size, allocAddr, reservations := a, n, a, [];
    }

    /** vm_reserve_anon_memory on this region */
    method ReserveAnon(bytes: nat, align: nat) returns (at: Option<nat>)
      requires align > 0
      modifies this
      ensures Value() == Serve(old(Value()), Request(bytes, align))
      ensures at.Some? ==> reservations == old(reservations) + [Range(at.value, bytes)]
      ensures at.None? ==> Value() == old(Value())
    {
      var start := RoundUpWord(allocAddr, align);
      var free := FreeFrom(addr, size, start);
      at := None;
      assert Served(Value(), Request(bytes, align)) <==> RoundUpWord(bytes, PAGE) <= free && Allocatable(start, bytes);
      if RoundUpWord(bytes, PAGE) <= free && Allocatable(start, bytes) {
        reservations := reservations + [Range(start, bytes)];
        allocAddr := (start + RoundUpWord(bytes, PAGE)) % WORD;
        at := Some(start);
      }
    }

    /** find_anon_reservation_by_addr: the one reservation containing the address */
    method FindReservation(a: nat) returns (found: Option<Range>)
      requires RegionOk(Value())
      ensures found == FindIn(reservations, a)
      ensures match found {
        case Some(f) => f in reservations && Covers(f, a) && forall x | x in reservations && Covers(x, a) :: x == f
        case None => forall x | x in reservations :: !Covers(x, a)
      }
    {
      FindInSound(reservations, a);
      forall x, y | x in reservations && y in reservations && Covers(x, a) && Covers(y, a) ensures x == y {
        OneInRegion(Value(), x, y, a);
      }
      for i := 0 to |reservations|
        invariant FindIn(reservations[i..], a) == FindIn(reservations, a)
      {
        if Covers(reservations[i], a) {
          return Some(reservations[i]);
        }
        assert reservations[i..][1..] == reservations[i + 1..];
      }
      found := None;
    }
  }

  /** vm_reservation_find_by_addr: the trees, then the reservations of the anonymous region found */
  method FindOwner(cookie: ReservationCookie, regions: seq<AnonRegion>, ghost m: Memory, a: nat) returns (o: Option<Owner>)
    requires MemoryOk(m) && m.regular == cookie.regular && m.anon == cookie.anon && |m.regions| == |regions|
    requires forall i | 0 <= i < |regions| :: regions[i].Value() == m.regions[i]
    ensures o == Lookup(m, a)
  {
    ReservationTree.FindByAddress(m.anon, a);
    var e := ReservationCookie.FindMember(cookie.regular, Entry(a, 0, 0));
    if e.Some? {
      return Some(Regular(e.value));
    }
    e := ReservationCookie.FindMember(cookie.anon, Entry(a, 0, 0));
    if e.None? {
      return None;
    }
    assert e.value in Elements(m.anon);
    var x := regions[e.value.data].FindReservation(a);
    o := if x.Some? then Some(Anonymous(e.value, x.value)) else None;
  }
}
