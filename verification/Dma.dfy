/** The DMA allocator in place: lists of regions and nodes that are scanned, split, merged and
    unlinked, following the model on values. */
module Dma {
  import opened Common
  import M = DmaModel
  import opened DmaModel
  import opened DmaSafety
  import R = DmaRuns

  /** Working on the tail of a list from position `i` leaves the part before it alone. */
  lemma {:induction false} ScanSkips(before: seq<Region>, x: Region, rest: seq<Region>, d: Desc, q: Request)
    requires q.align > 0
    requires x.used || ((rest == [] || rest[0].used) && !Fits([x] + rest, d, q))
    ensures Scan([x] + rest, d, q) == Found([x] + Scan(rest, d, q).regions, Scan(rest, d, q).got)
    ensures before + [x] + Scan(rest, d, q).regions == before + ([x] + Scan(rest, d, q).regions)
  {
    Cons(x, rest);
    assert DropFree(rest) == rest || x.used;
  }

  /** A scan of `s` that has passed its first `i` elements. */
  ghost predicate Scanning(s: seq<Region>, i: nat, d: Desc, q: Request, f: Found)
    requires q.align > 0
  {
    i <= |s| && f == Found(s[..i] + Scan(s[i..], d, q).regions, Scan(s[i..], d, q).got)
  }

  lemma {:induction false} ScanningUsed(s: seq<Region>, i: nat, d: Desc, q: Request, f: Found)
    requires q.align > 0 && i < |s| && s[i].used && Scanning(s, i, d, q, f)
    ensures Scanning(s, i + 1, d, q, f)
  {
    assert s[i..] == [s[i]] + s[i + 1..];
    ScanSkips(s[..i], s[i], s[i + 1..], d, q);
    assert s[..i + 1] == s[..i] + [s[i]];
  }

  /** Past a free element that turned out too small, the list being compacted there to `t`. */
  lemma {:induction false} ScanningFree(s: seq<Region>, t: seq<Region>, i: nat, d: Desc, q: Request, f: Found)
    requires q.align > 0 && i < |s| && !s[i].used && Scanning(s, i, d, q, f)
    requires t == s[..i] + Compact(s[i..]) && !Fits(Compact(s[i..]), d, q)
    ensures Scanning(t, i + 1, d, q, f)
  {
    ScanCompact(s[i..], d, q);
    var c := Compact(s[i..]);
    assert c == [c[0]] + c[1..];
    ScanSkips(s[..i], c[0], c[1..], d, q);
    assert t[i + 1..] == c[1..] && t[..i + 1] == s[..i] + [c[0]];
  }

  lemma {:induction false} CompactDone(rs: seq<Region>)
    requires rs != [] && (|rs| == 1 || rs[1].used)
    ensures Compact(rs) == rs
  {
    assert rs == [rs[0]] + rs[1..];
    assert DropFree(rs[1..]) == rs[1..];
  }

  lemma {:induction false} CompactStep(rs: seq<Region>)
    requires |rs| > 1 && !rs[1].used
    ensures Compact(rs) == Compact([rs[0]] + rs[2..])
  {
    Cons(rs[0], rs[2..]);
    assert rs[1..][1..] == rs[2..];
  }

  lemma {:induction false} ScanCompact(rs: seq<Region>, d: Desc, q: Request)
    requires rs != [] && !rs[0].used && q.align > 0
    ensures Scan(rs, d, q) == Scan(Compact(rs), d, q)
  {
    CompactDone(Compact(rs));
  }

  lemma {:induction false} ReleaseAt(rs: seq<Region>, i: nat)
    requires i < |rs| && Distinct(rs)
    ensures Release(rs, rs[i].id) == rs[..i] + Compact([Freed(rs[i])] + rs[i + 1..])
  {
    if i > 0 {
      IdAt(rs[1..], i - 1);
      ReleaseAt(rs[1..], i - 1);
      assert rs[1..][i..] == rs[i + 1..];
      assert rs[..i] == [rs[0]] + rs[1..][..i - 1];
    }
  }

  class MemNode {
    const desc: Desc
    var regions: seq<Region>

    constructor (d: Desc, id: nat)
      ensures Value() == NewNode(d, id)
    {
      desc := d;
      regions := [Region(id, 0, false, 0, 0)];
    }

    function Value(): Node
      reads this
    {
      Node(desc, regions)
    }

    /** _mem_compact on the element at `i` */
    method CompactAt(i: nat)
      requires i < |regions|
      modifies this
      ensures regions == old(regions)[..i] + Compact(old(regions)[i..])
      ensures i + 1 < |regions| ==> regions[i + 1].used
    {
      while i + 1 < |regions| && !regions[i + 1].used
        invariant i < |regions| && regions[..i] == old(regions)[..i]
        invariant Compact(regions[i..]) == Compact(old(regions)[i..])
        decreases |regions|
      {
        CompactStep(regions[i..]);
        assert regions[i..][2..] == regions[i + 2..];
        assert (regions[..i + 1] + regions[i + 2..])[i..] == [regions[i]] + regions[i + 2..];
        regions := regions[..i + 1] + regions[i + 2..];
      }
      CompactDone(regions[i..]);
    }

    /** The element at `i`, free and compacted, is shifted, split and marked. */
    method CarveAt(i: nat, size: nat, align: nat, room: bool, newId: nat) returns (mine: Region)
      requires i < |regions| && align > 0 && Fits(regions[i..], desc, Request(size, align, room, newId))
      modifies this
      ensures var f := Carve(old(regions)[i..], desc, Request(size, align, room, newId));
              regions == old(regions)[..i] + f.regions && f.got == Some(mine)
    {
      var end := if i + 1 < |regions| then regions[i + 1].offset else desc.size;
      var pad := Pad(desc.paddr + regions[i].offset, align);
      mine := Region(regions[i].id, regions[i].offset + pad, true, size, align);
      assert regions[i..][1..] == regions[i + 1..];
      if end - mine.offset > size && room {
        var split := Region(newId, mine.offset + size, false, 0, 0);
        regions := regions[..i] + ([mine, split] + regions[i + 1..]);
      } else {
        regions := regions[..i] + ([mine] + regions[i + 1..]);
      }
    }

    /** The test on the element at `i`, free and compacted. */
    method FitsAt(i: nat, size: nat, align: nat, ghost q: Request) returns (b: bool)
      requires i < |regions| && align > 0 && q.size == size && q.align == align
      ensures b == Fits(regions[i..], desc, q)
    {
      var end := if i + 1 < |regions| then regions[i + 1].offset else desc.size;
      var pad := Pad(desc.paddr + regions[i].offset, align);
      b := end - regions[i].offset > pad && end - regions[i].offset - pad >= size;
    }

    /** dma_memd_alloc; `room`: there is memory for the list element of a split */
    method Alloc(size: nat, align: nat, room: bool, newId: nat) returns (got: Option<Region>)
      requires align > 0
      modifies this
      ensures Found(regions, got) == Scan(old(regions), desc, Request(size, align, room, newId))
    {
      ghost var q := Request(size, align, room, newId);
      ghost var f := Scan(regions, desc, q);
      var i := 0;
      while i < |regions|
        invariant Scanning(regions, i, desc, q, f)
        decreases |regions| - i
      {
        if regions[i].used {
          ScanningUsed(regions, i, desc, q, f);
        } else {
          ghost var s := regions;
          CompactAt(i);
          assert regions[i..] == Compact(s[i..]);
          var fits := FitsAt(i, size, align, q);
          if fits {
            var mine := CarveAt(i, size, align, room, newId);
            ScanCompact(s[i..], desc, q);
            return Some(mine);
          }
          ScanningFree(s, regions, i, desc, q, f);
        }
        i := i + 1;
      }
      got := None;
    }

    /** dma_free on the element at `i` */
    method Free(i: nat)
      requires i < |regions| && Distinct(regions)
      modifies this
      ensures regions == Release(old(regions), old(regions[i].id))
    {
      ReleaseAt(regions, i);
      regions := regions[i := Freed(regions[i])];
      assert regions[i..] == [Freed(old(regions[i]))] + old(regions)[i + 1..];
      CompactAt(i);
      assert regions[..i] == old(regions)[..i];
    }

    /** _find_mem */
    method Find(offset: nat) returns (i: nat)
      requires regions != []
      ensures i < |regions| && regions[i] == FindMem(regions, offset)
    {
      i := 0;
      while i + 1 < |regions| && offset >= regions[i + 1].offset
        invariant i < |regions| && FindMem(regions[i..], offset) == FindMem(regions, offset)
        decreases |regions| - i
      {
        assert regions[i..][1..] == regions[i + 1..];
        i := i + 1;
      }
    }
  }

  /** A search of the nodes that has passed the first `i`. */
  ghost predicate Searching(s: seq<Node>, i: nat, q: Request, o: Outcome)
    requires q.align > 0
  {
    i <= |s| && o == Outcome(s[..i] + ScanNodes(s[i..], q).nodes, ScanNodes(s[i..], q).got)
  }

  lemma {:induction false} SearchingNext(s: seq<Node>, i: nat, q: Request, o: Outcome, f: Found)
    requires q.align > 0 && i < |s| && Searching(s, i, q, o) && f == Scan(s[i].regions, s[i].desc, q)
    ensures var n := s[i].(regions := f.regions);
            if f.got.None? then Searching(s[i := n], i + 1, q, o)
            else o == Outcome(s[i := n], Some(Block(n.desc, f.got.value)))
  {
    var n := s[i].(regions := f.regions);
    var t := s[i := n];
    assert s[i..][1..] == s[i + 1..] == t[i + 1..];
    assert t[..i + 1] == s[..i] + [n];
    assert t == s[..i] + ([n] + s[i + 1..]);
  }

  /** The same for the loop of dma_reclaim_mem. */
  ghost predicate Reclaiming(s: seq<Node>, i: nat, r: Reclaimed) {
    i <= |s| && Populated(s[i..]) && r == Reclaimed(s[..i] + ReclaimIn(s[i..]).nodes, ReclaimIn(s[i..]).desc)
  }

  lemma {:induction false} ReclaimingNext(s: seq<Node>, i: nat, r: Reclaimed)
    requires i < |s| && s[i].regions != [] && Reclaiming(s, i, r)
    ensures var c := Compact(s[i].regions);
            if !c[0].used && |c| == 1 then r == Reclaimed(s[..i] + s[i + 1..], Some(s[i].desc))
            else Reclaiming(s[i := s[i].(regions := c)], i + 1, r)
  {
    var n := s[i].(regions := Compact(s[i].regions));
    var t := s[i := n];
    assert s[i..][1..] == s[i + 1..] == t[i + 1..];
    assert t[..i + 1] == s[..i] + [n];
    assert t == s[..i] + ([n] + s[i + 1..]);
    assert Populated(t[i + 1..]) by {
      forall m | m in s[i + 1..] ensures m.regions != [] { assert m in s[i..]; }
    }
  }

  lemma {:induction false} ReleaseAbsent(rs: seq<Region>, id: nat)
    requires id !in Ids(rs)
    ensures Release(rs, id) == rs
  {
    if rs != [] {
      ReleaseAbsent(rs[1..], id);
    }
  }

  lemma {:induction false} FreeAbsent(ns: seq<Node>, id: nat)
    requires id !in R.AllIds(ns)
    ensures FreeIn(ns, id) == ns
  {
    if ns != [] {
      ReleaseAbsent(ns[0].regions, id);
      FreeAbsent(ns[1..], id);
    }
  }

  lemma {:induction false} NodeIds(ns: seq<Node>, k: nat, id: nat)
    requires R.NodesOk(ns) && k < |ns| && id in Ids(ns[k].regions)
    ensures id in R.AllIds(ns) && Distinct(ns[k].regions)
  {
    if k > 0 {
      NodeIds(ns[1..], k - 1, id);
    }
  }

  /** Freeing an element touches its own node only. */
  lemma {:induction false} FreeInAt(ns: seq<Node>, k: nat, id: nat)
    requires R.NodesOk(ns) && k < |ns| && id in Ids(ns[k].regions)
    ensures FreeIn(ns, id) == ns[k := ns[k].(regions := Release(ns[k].regions, id))]
  {
    if k == 0 {
      FreeAbsent(ns[1..], id);
    } else {
      var n, rest := ns[0], ns[1..];
      NodeIds(rest, k - 1, id);
      ReleaseAbsent(n.regions, id);
      FreeInAt(rest, k - 1, id);
      assert n.(regions := Release(n.regions, id)) == n;
      assert ns == [n] + rest;
      assert FreeIn(ns, id) == [n] + FreeIn(rest, id);
    }
  }

  class DmaAllocator {
    var nodes: seq<MemNode>
    var nextId: nat
    /** The node list on values. */
    ghost var st: seq<Node>

    ghost predicate Valid()
      reads this, nodes
    {
      && |st| == |nodes|
      && (forall i | 0 <= i < |nodes| :: st[i] == nodes[i].Value())
      && (forall i, j | 0 <= i < j < |nodes| :: nodes[i] != nodes[j])
    }

    constructor ()
      ensures Valid() && st == [] && nextId == 0
    {
      nodes, nextId, st := [], 0, [];
    }

    /** dma_provide_mem */
    method Provide(d: Desc)
      requires Valid()
      modifies this
      ensures Valid() && |nodes| > 0 && Allocator(st, nextId) == M.Provide(old(Allocator(st, nextId)), d)
      ensures fresh(nodes[0]) && nodes == [nodes[0]] + old(nodes)
    {
      var n := new MemNode(d, nextId);
      nodes, nextId, st := [n] + nodes, nextId + 1, [n.Value()] + st;
    }

    method AllocFrom(i: nat, size: nat, align: nat, room: bool) returns (got: Option<Region>)
      requires Valid() && align > 0 && i < |nodes|
      modifies this`st, nodes[i]
      ensures Valid()
      ensures var f := Scan(old(st)[i].regions, old(st)[i].desc, Request(size, align, room, nextId));
              st == old(st)[i := old(st)[i].(regions := f.regions)] && got == f.got
    {
      got := nodes[i].Alloc(size, align, room, nextId);
      st := st[i := nodes[i].Value()];
    }

    method AllocNext(i: nat, size: nat, align: nat, room: bool, ghost q: Request, ghost o: Outcome)
      returns (got: Option<Block>)
      requires Valid() && align > 0 && i < |nodes| && q == Request(size, align, room, nextId) && Searching(st, i, q, o)
      modifies this`st, nodes[i]
      ensures Valid() && if got.None? then Searching(st, i + 1, q, o) else o == Outcome(st, got)
    {
      SearchingNext(st, i, q, o, Scan(st[i].regions, st[i].desc, q));
      var r := AllocFrom(i, size, align, room);
      got := if r.Some? then Some(Block(nodes[i].desc, r.value)) else None;
    }

    /** The node loop of dma_alloc. */
    method AllocExisting(size: nat, align: nat, room: bool) returns (got: Option<Block>)
      requires Valid() && align > 0
      modifies this`st, nodes
      ensures Valid() && Outcome(st, got) == ScanNodes(old(st), Request(size, align, room, nextId))
    {
      ghost var q := Request(size, align, room, nextId);
      ghost var o := ScanNodes(st, q);
      var i := 0;
      while i < |nodes|
        invariant Valid() && Searching(st, i, q, o)
        decreases |nodes| - i
      {
        got := AllocNext(i, size, align, room, q, o);
        if got.Some? {
          return;
        }
        i := i + 1;
      }
      got := None;
    }

    /** dma_alloc once morecore has provided `d` */
    method AllocMore(size: nat, align: nat, d: Desc, room: bool) returns (got: Option<Block>)
      requires Valid() && align > 0
      modifies this
      ensures Valid() && Allocation(Allocator(st, nextId), got) == M.AllocMore(old(Allocator(st, nextId)), size, align, d, room)
    {
      Provide(d);
      var r := AllocFrom(0, size, align, room);
      nextId := nextId + 1;
      got := if r.Some? then Some(Block(d, r.value)) else None;
    }

    /** dma_alloc; `env` holds the answers of malloc and morecore */
    method Alloc(size: nat, align: int, env: Env) returns (got: Option<Block>)
      requires Valid()
      modifies this, nodes
      ensures Valid() && Allocation(Allocator(st, nextId), got) == M.Alloc(old(Allocator(st, nextId)), size, align, env)
    {
      var raised := RaisedAlign(align);
      got := AllocExisting(size, raised, env.room);
      nextId := nextId + 1;
      if got.None? && env.more.Some? {
        got := AllocMore(size, raised, env.more.value, env.moreRoom);
      }
    }

    method CompactHead(i: nat)
      requires Valid() && i < |nodes| && st[i].regions != []
      modifies this`st, nodes[i]
      ensures Valid() && st == old(st)[i := old(st)[i].(regions := Compact(old(st)[i].regions))]
    {
      ghost var rs := nodes[i].regions;
      assert rs[0..] == rs;
      nodes[i].CompactAt(0);
      assert nodes[i].regions == Compact(rs);
      st := st[i := nodes[i].Value()];
    }

    /** dma_reclaim_mem */
    method Reclaim() returns (d: Option<Desc>)
      requires Valid() && Populated(st)
      modifies this, nodes
      ensures Valid() && Reclaimed(st, d) == ReclaimIn(old(st))
    {
      ghost var r := ReclaimIn(st);
      var i := 0;
      assert st[0..] == st;
      while i < |nodes|
        invariant Valid() && nodes == old(nodes) && Reclaiming(st, i, r)
        decreases |nodes| - i
      {
        assert st[i] in st[i..];
        ReclaimingNext(st, i, r);
        CompactHead(i);
        if !nodes[i].regions[0].used && |nodes[i].regions| == 1 {
          d := Some(nodes[i].desc);
          Unlink(i);
          return;
        }
        i := i + 1;
      }
      d := None;
    }

    method Unlink(i: nat)
      requires Valid() && i < |nodes|
      modifies this
      ensures Valid() && st == old(st)[..i] + old(st)[i + 1..]
    {
      nodes, st := nodes[..i] + nodes[i + 1..], st[..i] + st[i + 1..];
    }

    /** dma_vlookup: the node and the position of the region in it, if the address is in a node */
    method Vlookup(vaddr: nat) returns (k: nat, i: nat, b: Option<Block>)
      requires Valid() && Populated(st)
      ensures b == M.Vlookup(Allocator(st, nextId), vaddr)
      ensures b.Some? ==> k < |nodes| && i < |nodes[k].regions| && b.value == Block(nodes[k].desc, nodes[k].regions[i])
    {
      k := 0;
      while k < |nodes| && !(nodes[k].desc.vaddr <= vaddr < nodes[k].desc.vaddr + nodes[k].desc.size)
        invariant k <= |nodes| && NodeAt(st[k..], vaddr) == NodeAt(st, vaddr)
        decreases |nodes| - k
      {
        assert st[k..][1..] == st[k + 1..];
        k := k + 1;
      }
      i, b := 0, None;
      if k < |nodes| {
        assert st[k] in st;
        i := nodes[k].Find(vaddr - nodes[k].desc.vaddr);
        b := Some(Block(nodes[k].desc, nodes[k].regions[i]));
      }
    }

    /** dma_dma_free: free the block an address belongs to */
    method FreeAddress(vaddr: nat) returns (b: Option<Block>)
      requires Valid() && Populated(st) && R.NodesOk(st)
      modifies this`st, nodes
      ensures Valid() && b == M.Vlookup(old(Allocator(st, nextId)), vaddr)
      ensures Allocator(st, nextId) == if b.None? then old(Allocator(st, nextId)) else M.Free(old(Allocator(st, nextId)), b.value.region.id)
    {
      var k, i;
      k, i, b := Vlookup(vaddr);
      if b.Some? {
        IdAt(st[k].regions, i);
        NodeIds(st, k, st[k].regions[i].id);
        FreeInAt(st, k, st[k].regions[i].id);
        nodes[k].Free(i);
        st := st[k := nodes[k].Value()];
      }
    }
  }
}
