/** Runs of the guest RAM list: regions added, ranges marked, ranges allocated. */
module GuestRamRuns {
  import opened Common
  import opened GuestRamModel
  import opened GuestRamSafety

  // ----- adding RAM

  lemma {:induction false} HasPush(rs: seq<Region>, start: nat, size: nat, used: bool, a: nat, u: bool)
    ensures Has(Push(rs, start, size, used), a, u) <==> Has(rs, a, u) || (start <= a < start + size && u == used)
  {
    var x := Region(start, size, used);
    if size > 0 {
      assert x in rs + [x];
      if Has(rs, a, u) {
        var r :| r in rs && Covers(r, a) && r.used == u;
        assert r in rs + [x];
      }
      if start <= a < start + size && u == used {
        assert Covers(x, a) && x.used == u;
      }
    }
  }

  /** New RAM is apart from the old, and the list handed to the sort is one its comparator can order. */
  predicate CanExpand(rs: seq<Region>, start: nat, size: nat) {
    && AllApart(rs, Region(start, size, false))
    && AllComparable(Push(rs, start, size, false))
  }

  predicate AllApart(rs: seq<Region>, z: Region) { forall x | x in rs :: Apart(x, z) }

  lemma {:induction false} PushScattered(rs: seq<Region>, start: nat, size: nat, used: bool)
    requires Scattered(rs) && AllApart(rs, Region(start, size, used))
    ensures Scattered(Push(rs, start, size, used))
  {
  }

  lemma {:induction false} PushApart(rs: seq<Region>, start: nat, size: nat, used: bool, z: Region)
    requires AllApart(rs, z) && Apart(Region(start, size, used), z)
    ensures AllApart(Push(rs, start, size, used), z)
  {
  }

  /** expand_guest_ram_region adds the new bytes as free and changes no other. */
  lemma {:induction false} ExpandSafe(rs: seq<Region>, start: nat, size: nat)
    requires Canonical(rs) && CanExpand(rs, start, size)
    ensures Canonical(Expand(rs, start, size))
    ensures forall a: nat, u :: Has(Expand(rs, start, size), a, u) <==> Has(rs, a, u) || (!u && start <= a < start + size)
  {
    if size > 0 {
      var p := Push(rs, start, size, false);
      ChainBounds(rs);
      PushScattered(rs, start, size, false);
      Normalised(p);
      forall a: nat, u ensures Has(p, a, u) <==> Has(rs, a, u) || (!u && start <= a < start + size) {
        HasPush(rs, start, size, false, a, u);
      }
    }
  }

  // ----- marking

  lemma {:induction false} RemoveMembers(rs: seq<Region>, i: nat)
    requires Chain(rs) && i < |rs|
    ensures forall r :: r in Remove(rs, i) <==> r in rs && r != rs[i]
  {
    ChainBounds(rs);
    assert rs == rs[..i] + [rs[i]] + rs[i + 1..];
    assert forall r | r in rs[..i] :: End(r) <= rs[i].start && r.size > 0;
    assert forall r | r in rs[i + 1..] :: End(rs[i]) <= r.start && r.size > 0;
  }

  lemma {:induction false} HasRemove(rs: seq<Region>, i: nat, a: nat, u: bool)
    requires Chain(rs) && i < |rs|
    ensures Has(Remove(rs, i), a, u) <==> Has(rs, a, u) && !Covers(rs[i], a)
  {
    RemoveMembers(rs, i);
    RemoveApart(rs, i);
    if Has(Remove(rs, i), a, u) {
      var r :| r in Remove(rs, i) && Covers(r, a) && r.used == u;
      assert r in rs;
    }
    if Has(rs, a, u) && !Covers(rs[i], a) {
      var r :| r in rs && Covers(r, a) && r.used == u;
      assert r in Remove(rs, i);
    }
  }

  /** A byte of a region has that region's flag and no other. */
  lemma {:induction false} HasAt(rs: seq<Region>, i: nat, a: nat, u: bool)
    requires Chain(rs) && i < |rs| && Covers(rs[i], a)
    ensures Has(rs, a, u) <==> u == rs[i].used
  {
    ChainBounds(rs);
    assert rs[i] in rs;
    if Has(rs, a, u) {
      var r :| r in rs && Covers(r, a) && r.used == u;
      var k :| 0 <= k < |rs| && rs[k] == r;
      assert k == i;
    }
  }

  lemma {:induction false} RemoveScattered(rs: seq<Region>, i: nat)
    requires Scattered(rs) && i < |rs|
    ensures Scattered(Remove(rs, i))
  {
    var q := Remove(rs, i);
    forall j, k | 0 <= j < k < |q| ensures Apart(q[j], q[k]) {
      assert q[j] == rs[if j < i then j else j + 1] && q[k] == rs[if k < i then k else k + 1];
    }
  }

  lemma {:induction false} RemoveApart(rs: seq<Region>, i: nat)
    requires Chain(rs) && i < |rs|
    ensures AllApart(Remove(rs, i), rs[i]) && forall r | r in Remove(rs, i) :: r.size > 0
  {
    ChainBounds(rs);
    assert forall r | r in rs[..i] :: End(r) <= rs[i].start && r.size > 0;
    assert forall r | r in rs[i + 1..] :: End(rs[i]) <= r.start && r.size > 0;
  }

  lemma {:induction false} SplitScattered(rs: seq<Region>, i: nat, start: nat, bytes: nat)
    requires Chain(rs) && i < |rs| && IsSubregion(rs[i].start, rs[i].size, start, bytes)
    ensures Scattered(Split(rs, i, start, bytes))
  {
    ChainBounds(rs);
    RemoveScattered(rs, i);
    RemoveApart(rs, i);
    PiecesScattered(Remove(rs, i), rs[i], start, bytes);
    assert Split(rs, i, start, bytes) == Pieces(Remove(rs, i), rs[i], start, bytes);
  }

  lemma {:induction false} PiecesScattered(q: seq<Region>, r: Region, start: nat, bytes: nat)
    requires Scattered(q) && IsSubregion(r.start, r.size, start, bytes) && AllApart(q, r)
    ensures Scattered(Pieces(q, r, start, bytes))
  {
    var before, behind := start - r.start, r.size - bytes - (start - r.start);
    var middle, last := Region(start, bytes, true), Region(start + bytes, behind, false);
    assert AllApart(q, Region(r.start, before, false)) && AllApart(q, middle) && AllApart(q, last);
    var p1 := Push(q, r.start, before, false);
    PushScattered(q, r.start, before, false);
    PushApart(q, r.start, before, false, middle);
    PushApart(q, r.start, before, false, last);
    PushTwo(p1, start, bytes, behind);
  }

  lemma {:induction false} PushTwo(q: seq<Region>, start: nat, bytes: nat, behind: nat)
    requires Scattered(q) && AllApart(q, Region(start, bytes, true)) && AllApart(q, Region(start + bytes, behind, false))
    ensures Scattered(Push(Push(q, start, bytes, true), start + bytes, behind, false))
  {
    PushScattered(q, start, bytes, true);
    PushApart(q, start, bytes, true, Region(start + bytes, behind, false));
    PushScattered(Push(q, start, bytes, true), start + bytes, behind, false);
  }

  lemma {:induction false} PiecesHas(q: seq<Region>, r: Region, start: nat, bytes: nat, a: nat, u: bool)
    requires IsSubregion(r.start, r.size, start, bytes)
    ensures Has(Pieces(q, r, start, bytes), a, u) <==>
            Has(q, a, u) || (Covers(r, a) && u == (start <= a < start + bytes))
  {
    var p1 := Push(q, r.start, start - r.start, false);
    var p2 := Push(p1, start, bytes, true);
    HasPush(q, r.start, start - r.start, false, a, u);
    HasPush(p1, start, bytes, true, a, u);
    HasPush(p2, start + bytes, r.size - bytes - (start - r.start), false, a, u);
  }

  lemma {:induction false} SplitHas(rs: seq<Region>, i: nat, start: nat, bytes: nat, a: nat, u: bool)
    requires Chain(rs) && i < |rs| && IsSubregion(rs[i].start, rs[i].size, start, bytes) && !rs[i].used
    ensures Has(Split(rs, i, start, bytes), a, u) <==> if start <= a < start + bytes then u else Has(rs, a, u)
  {
    HasRemove(rs, i, a, u);
    PiecesHas(Remove(rs, i), rs[i], start, bytes, a, u);
    if Covers(rs[i], a) {
      HasAt(rs, i, a, u);
    }
  }

  /** Every byte of the range is free. */
  ghost predicate AllFree(rs: seq<Region>, start: nat, bytes: nat) {
    forall a: nat | start <= a < start + bytes :: Has(rs, a, false)
  }

  /** In a maximally merged list a free range lies in one region. */
  lemma {:induction false} FreeInOne(rs: seq<Region>, start: nat, bytes: nat)
    requires Canonical(rs) && bytes > 0 && AllFree(rs, start, bytes)
    ensures exists i :: 0 <= i < |rs| && !rs[i].used && rs[i].start <= start && start + bytes <= End(rs[i])
    decreases |rs|
  {
    assert Has(rs, start, false);
    HeadStart(rs);
    HeadOnly(rs, start, false);
    if start < End(rs[0]) {
      HeadEnds(rs);
      assert !rs[0].used && rs[0].start <= start && start + bytes <= End(rs[0]);
    } else {
      forall a: nat | start <= a < start + bytes ensures Has(rs[1..], a, false) {
        assert Has(rs, a, false);
        HeadOnly(rs, a, false);
      }
      FreeInOne(rs[1..], start, bytes);
      var i :| 0 <= i < |rs[1..]| && !rs[1..][i].used && rs[1..][i].start <= start && start + bytes <= End(rs[1..][i]);
      assert rs[i + 1] == rs[1..][i];
    }
  }

  /** vm_ram_mark_allocated acts exactly when the whole range is free. */
  lemma {:induction false} MarkActsIff(rs: seq<Region>, start: nat, bytes: nat)
    requires Canonical(rs) && bytes > 0
    ensures var i := FindSub(rs, start, bytes);
            i < |rs| && !rs[i].used <==> AllFree(rs, start, bytes)
  {
    var i := FindSub(rs, start, bytes);
    if i < |rs| {
      forall a: nat | start <= a < start + bytes ensures Has(rs, a, false) <==> !rs[i].used { HasAt(rs, i, a, false); }
      assert AllFree(rs, start, bytes) ==> Has(rs, start, false);
    }
    if AllFree(rs, start, bytes) {
      FreeInOne(rs, start, bytes);
      var k :| 0 <= k < |rs| && !rs[k].used && rs[k].start <= start && start + bytes <= End(rs[k]);
    }
  }

  /** How marking changes the map. */
  ghost predicate Marks(rs: seq<Region>, start: nat, bytes: nat, r2: seq<Region>) {
    forall a: nat, u :: Has(r2, a, u) <==> if start <= a < start + bytes then u else Has(rs, a, u)
  }

  lemma {:induction false} MarkSplits(rs: seq<Region>, i: nat, start: nat, bytes: nat)
    requires Canonical(rs) && i < |rs| && IsSubregion(rs[i].start, rs[i].size, start, bytes) && !rs[i].used
    requires AllComparable(Split(rs, i, start, bytes))
    ensures var r2 := Collapse(Sort(Split(rs, i, start, bytes)));
            Canonical(r2) && Marks(rs, start, bytes, r2)
  {
    var p := Split(rs, i, start, bytes);
    SplitScattered(rs, i, start, bytes);
    forall a: nat, u ensures Has(p, a, u) <==> if start <= a < start + bytes then u else Has(rs, a, u) {
      SplitHas(rs, i, start, bytes, a, u);
    }
    Normalised(p);
  }

  /** If marking cuts a region, the comparator can order the pieces. */
  predicate CanMark(rs: seq<Region>, start: nat, bytes: nat) {
    var i := FindSub(rs, start, bytes);
    i < |rs| && !rs[i].used ==> AllComparable(Split(rs, i, start, bytes))
  }

  /** vm_ram_mark_allocated turns exactly the bytes of the range from free to allocated, if they all are
      free, and otherwise leaves the list as it was. */
  lemma {:induction false} MarkSafe(rs: seq<Region>, start: nat, bytes: nat)
    requires Canonical(rs) && bytes > 0 && CanMark(rs, start, bytes)
    ensures Canonical(Mark(rs, start, bytes))
    ensures if AllFree(rs, start, bytes) then Marks(rs, start, bytes, Mark(rs, start, bytes)) else Mark(rs, start, bytes) == rs
  {
    MarkActsIff(rs, start, bytes);
    var i := FindSub(rs, start, bytes);
    if i < |rs| && !rs[i].used {
      MarkSplits(rs, i, start, bytes);
    }
  }

  /** Marking nothing changes nothing: the cut heals. */
  lemma {:induction false} MarkNothing(rs: seq<Region>, start: nat)
    requires Canonical(rs) && CanMark(rs, start, 0)
    ensures Mark(rs, start, 0) == rs
  {
    var i := FindSub(rs, start, 0);
    if i < |rs| && !rs[i].used {
      MarkSplits(rs, i, start, 0);
      CanonicalUnique(Mark(rs, start, 0), rs);
    }
  }

  // ----- allocating

  lemma {:induction false} FreeRegion(rs: seq<Region>, i: nat, bytes: nat)
    requires Chain(rs) && i < |rs| && !rs[i].used && bytes <= rs[i].size
    ensures AllFree(rs, rs[i].start, bytes)
  {
    forall a: nat | rs[i].start <= a < rs[i].start + bytes ensures Has(rs, a, false) { HasAt(rs, i, a, false); }
  }

  /** The condition of marking, for the region an allocation picks. */
  predicate CanAllocate(rs: seq<Region>, bytes: nat) {
    var i := FindFree(rs, bytes);
    i < |rs| ==> CanMark(rs, rs[i].start, bytes)
  }

  /** vm_ram_allocate takes a range that is wholly free, and marks it; it fails exactly when there is
      none of that size. */
  lemma {:induction false} AllocateSafe(rs: seq<Region>, bytes: nat)
    requires Canonical(rs) && bytes > 0 && CanAllocate(rs, bytes)
    ensures var g := Allocate(rs, bytes);
            && Canonical(g.regions)
            && (g.addr.None? ==> g.regions == rs)
            && (g.addr.None? <==> forall a: nat :: !AllFree(rs, a, bytes))
            && (g.addr.Some? ==> AllFree(rs, g.addr.value, bytes) && Marks(rs, g.addr.value, bytes, g.regions))
  {
    var i := FindFree(rs, bytes);
    if i < |rs| {
      FreeRegion(rs, i, bytes);
      MarkSafe(rs, rs[i].start, bytes);
    } else {
      forall a: nat ensures !AllFree(rs, a, bytes) {
        if AllFree(rs, a, bytes) {
          FreeInOne(rs, a, bytes);
        }
      }
    }
  }

  // ----- whole runs

  datatype Event = Add(start: nat, size: nat) | Claim(start: nat, bytes: nat) | Alloc(bytes: nat)

  datatype Range = Range(start: nat, bytes: nat)

  /** The list, and the ranges handed out so far by successful non-empty allocations. */
  datatype State = State(regions: seq<Region>, granted: seq<Range>)

  /** Added RAM is apart from the old; every list that is sorted is one the comparator can order. */
  predicate CanHappen(s: State, e: Event) {
    match e
    case Add(start, size) => CanExpand(s.regions, start, size)
    case Claim(start, bytes) => CanMark(s.regions, start, bytes)
    case Alloc(bytes) => CanAllocate(s.regions, bytes)
  }

  function Step(s: State, e: Event): State {
    match e
    case Add(start, size) => s.(regions := Expand(s.regions, start, size))
    case Claim(start, bytes) => s.(regions := Mark(s.regions, start, bytes))
    case Alloc(bytes) =>
      var g := Allocate(s.regions, bytes);
      State(g.regions, if g.addr.Some? && bytes > 0 then s.granted + [Range(g.addr.value, bytes)] else s.granted)
  }

  ghost predicate AllUsed(rs: seq<Region>, g: Range) {
    forall a: nat | g.start <= a < g.start + g.bytes :: Has(rs, a, true) && !Has(rs, a, false)
  }

  predicate Clear(g: Range, h: Range) { g.start + g.bytes <= h.start || h.start + h.bytes <= g.start }

  ghost predicate RunInv(s: State) {
    && Canonical(s.regions)
    && (forall i | 0 <= i < |s.granted| :: s.granted[i].bytes > 0 && AllUsed(s.regions, s.granted[i]))
    && (forall i, j | 0 <= i < j < |s.granted| :: Clear(s.granted[i], s.granted[j]))
  }

  /** Allocated bytes stay allocated, whatever happens next. */
  lemma {:induction false} UsedStays(s: State, e: Event, g: Range)
    requires Canonical(s.regions) && CanHappen(s, e) && AllUsed(s.regions, g)
    ensures Canonical(Step(s, e).regions) && AllUsed(Step(s, e).regions, g)
  {
    match e
    case Add(start, size) =>
      ExpandSafe(s.regions, start, size);
      forall a: nat | g.start <= a < g.start + g.bytes
        ensures Has(Step(s, e).regions, a, true) && !Has(Step(s, e).regions, a, false)
      {
        NewIsElsewhere(s.regions, start, size, a);
      }
    case Claim(start, bytes) =>
      if bytes > 0 {
        MarkSafe(s.regions, start, bytes);
      } else {
        MarkNothing(s.regions, start);
      }
    case Alloc(bytes) =>
      if bytes > 0 {
        AllocateSafe(s.regions, bytes);
      } else {
        AllocateNothing(s.regions);
      }
  }

  /** An empty request changes nothing and is granted exactly if some byte of RAM is free. */
  lemma {:induction false} AllocateNothing(rs: seq<Region>)
    requires Canonical(rs) && CanAllocate(rs, 0)
    ensures Allocate(rs, 0).regions == rs
    ensures Allocate(rs, 0).addr.Some? <==> exists i | 0 <= i < |rs| :: !rs[i].used
  {
    var i := FindFree(rs, 0);
    if i < |rs| {
      MarkNothing(rs, rs[i].start);
    }
  }

  lemma {:induction false} NewIsElsewhere(rs: seq<Region>, start: nat, size: nat, a: nat)
    requires Has(rs, a, true) && CanExpand(rs, start, size)
    ensures !(start <= a < start + size)
  {
    var r :| r in rs && Covers(r, a) && r.used;
    assert Apart(r, Region(start, size, false));
  }

  lemma {:induction false} FreeIsElsewhere(rs: seq<Region>, g: Range, h: Range)
    requires g.bytes > 0 && h.bytes > 0 && AllUsed(rs, g) && AllFree(rs, h.start, h.bytes)
    ensures Clear(g, h)
  {
    var a := if g.start < h.start then h.start else g.start;
    assert a < g.start + g.bytes ==> !Has(rs, a, false);
    assert a < h.start + h.bytes ==> Has(rs, a, false);
  }

  lemma {:induction false} StepKeeps(s: State, e: Event)
    requires RunInv(s) && CanHappen(s, e)
    ensures RunInv(Step(s, e))
  {
    var t := Step(s, e);
    UsedStays(s, e, Range(0, 0));
    forall i | 0 <= i < |s.granted| ensures AllUsed(t.regions, s.granted[i]) { UsedStays(s, e, s.granted[i]); }
    if e.Alloc? && e.bytes > 0 && Allocate(s.regions, e.bytes).addr.Some? {
      AllocateSafe(s.regions, e.bytes);
      var h := Range(Allocate(s.regions, e.bytes).addr.value, e.bytes);
      MarkedUsed(s.regions, h, t.regions);
      forall i | 0 <= i < |s.granted| ensures Clear(s.granted[i], h) { FreeIsElsewhere(s.regions, s.granted[i], h); }
    }
  }

  lemma {:induction false} MarkedUsed(rs: seq<Region>, h: Range, r2: seq<Region>)
    requires Marks(rs, h.start, h.bytes, r2)
    ensures AllUsed(r2, h)
  {
  }

  predicate CanRun(s: State, es: seq<Event>)
    decreases |es|
  {
    es == [] || (CanHappen(s, es[0]) && CanRun(Step(s, es[0]), es[1..]))
  }

  function Run(s: State, es: seq<Event>): State
    decreases |es|
  {
    if es == [] then s else Run(Step(s, es[0]), es[1..])
  }

  /** Over any run the list stays canonical and no two allocations overlap. */
  lemma {:induction false} RunKeeps(s: State, es: seq<Event>)
    requires RunInv(s) && CanRun(s, es)
    ensures RunInv(Run(s, es))
    decreases |es|
  {
    if es != [] {
      StepKeeps(s, es[0]);
      RunKeeps(Step(s, es[0]), es[1..]);
    }
  }

  lemma {:induction false} EmptyInv()
    ensures RunInv(State([], []))
  {
  }

  // ----- RAM within 2 GiB

  /** All RAM lies within 2 GiB. */
  ghost predicate Within(rs: seq<Region>) {
    forall a: nat, b: nat, u, v | Has(rs, a, u) && Has(rs, b, v) :: a < b + HALF
  }

  lemma {:induction false} StartHas(rs: seq<Region>, i: nat)
    requires i < |rs| && rs[i].size > 0
    ensures Has(rs, rs[i].start, rs[i].used)
  {
    assert rs[i] in rs && Covers(rs[i], rs[i].start);
  }

  lemma {:induction false} WithinComparable(rs: seq<Region>)
    requires Within(rs) && Scattered(rs)
    ensures AllComparable(rs)
  {
    forall i, j | 0 <= i < |rs| && 0 <= j < |rs| ensures Comparable(rs[i], rs[j]) {
      StartHas(rs, i);
      StartHas(rs, j);
      NearComparable(rs[i], rs[j]);
    }
  }

  /** Then every range can be marked, and so every allocation made. */
  lemma {:induction false} WithinCanMark(rs: seq<Region>, start: nat, bytes: nat)
    requires Canonical(rs) && Within(rs)
    ensures CanMark(rs, start, bytes)
  {
    var i := FindSub(rs, start, bytes);
    if i < |rs| && !rs[i].used {
      var p := Split(rs, i, start, bytes);
      SplitScattered(rs, i, start, bytes);
      forall a: nat, u | Has(p, a, u) ensures Has(rs, a, false) || Has(rs, a, true) {
        SplitHas(rs, i, start, bytes, a, u);
        if start <= a < start + bytes {
          HasAt(rs, i, a, false);
        }
      }
      WithinComparable(p);
    }
  }

  /** So with all RAM within 2 GiB the condition on events is only that added RAM is apart and within. */
  lemma {:induction false} WithinSuffices(s: State, e: Event)
    requires Canonical(s.regions) && Within(s.regions)
    requires e.Add? ==> AllApart(s.regions, Region(e.start, e.size, false)) && Within(Push(s.regions, e.start, e.size, false))
    ensures CanHappen(s, e)
  {
    match e
    case Add(start, size) =>
      ChainBounds(s.regions);
      PushScattered(s.regions, start, size, false);
      WithinComparable(Push(s.regions, start, size, false));
    case Claim(start, bytes) => WithinCanMark(s.regions, start, bytes);
    case Alloc(bytes) =>
      var i := FindFree(s.regions, bytes);
      if i < |s.regions| {
        WithinCanMark(s.regions, s.regions[i].start, bytes);
      }
  }

  /** One region of more than 2 GiB is not within, yet its list can be sorted. */
  lemma {:induction false} LargeRegionIsComparable(r: Region)
    requires r.size > HALF
    ensures Canonical([r]) && AllComparable([r]) && !Within([r])
  {
    assert r in [r] && Covers(r, r.start) && Covers(r, r.start + HALF);
    assert Has([r], r.start, r.used) && Has([r], r.start + HALF, r.used);
  }
}
