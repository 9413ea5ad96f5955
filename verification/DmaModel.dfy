/** The DMA memory allocator on values: each node of provided memory is a list of regions that is
    split, merged lazily and shifted for alignment. */
module DmaModel {
  import opened Common
  import opened Arith

  /** `id` stands for the identity of the list element, which is the handle given to the caller.
      `size` and `align` are history: what the holder of an allocated region asked for. */
  datatype Region = Region(id: nat, offset: nat, used: bool, size: nat, align: nat)

  /** Where a node's memory sits. */
  datatype Desc = Desc(vaddr: nat, paddr: nat, size: nat)

  datatype Node = Node(desc: Desc, regions: seq<Region>)

  const MIN_ALIGN: nat := 32

  // ----- one node

  /** _mem_size, as an end: the head region reaches to the next one or to the end of the node. */
  function EndOf(rs: seq<Region>, d: Desc): nat
  {
    if |rs| > 1 then rs[1].offset else d.size
  }

  function DropFree(rs: seq<Region>): (r: seq<Region>)
    ensures r == [] || r[0].used
    ensures |r| <= |rs|
  {
    if rs == [] || rs[0].used then rs else DropFree(rs[1..])
  }

  /** _mem_compact: the head swallows the free regions that follow it. */
  function Compact(rs: seq<Region>): (r: seq<Region>)
    requires rs != []
    ensures |r| > 0 && r[0] == rs[0] && |r| <= |rs|
  {
    [rs[0]] + DropFree(rs[1..])
  }

  /** Bytes to skip to reach an aligned address. */
  function Pad(addr: nat, align: nat): (pad: nat)
    requires align > 0
    ensures pad < align && (addr + pad) % align == 0
  {
    PadAligns(addr, align);
    var m := align - addr % align;
    if m == align then 0 else m
  }

  lemma {:induction false} PadAligns(addr: nat, align: nat)
    requires align > 0
    ensures (addr + (align - addr % align)) % align == 0
  {
    assert addr + (align - addr % align) == (addr / align + 1) * align;
    MultipleMod(addr / align + 1, align);
  }

  /** A request: `room` says whether there is memory for a new list element when splitting. */
  datatype Request = Request(size: nat, align: nat, room: bool, newId: nat)

  datatype Found = Found(regions: seq<Region>, got: Option<Region>)

  /** The test of dma_memd_alloc on a compacted free head. */
  predicate Fits(rs: seq<Region>, d: Desc, q: Request)
    requires rs != [] && q.align > 0
  {
    var pad := Pad(d.paddr + rs[0].offset, q.align);
    var size := EndOf(rs, d) - rs[0].offset;
    size > pad && size - pad >= q.size
  }

  /** Take the head: shift it to the aligned address and split off what is left over. */
  function Carve(rs: seq<Region>, d: Desc, q: Request): (f: Found)
    requires rs != [] && q.align > 0 && Fits(rs, d, q)
  {
    var at := rs[0].offset + Pad(d.paddr + rs[0].offset, q.align);
    var mine := Region(rs[0].id, at, true, q.size, q.align);
    if EndOf(rs, d) - at > q.size && q.room
    then Found([mine, Region(q.newId, at + q.size, false, 0, 0)] + rs[1..], Some(mine))
    else Found([mine] + rs[1..], Some(mine))
  }

  /** dma_memd_alloc */
  function Scan(rs: seq<Region>, d: Desc, q: Request): Found
    requires q.align > 0
    decreases |rs|
  {
    if rs == [] then Found([], None)
    else if rs[0].used then
      var f := Scan(rs[1..], d, q);
      f.(regions := [rs[0]] + f.regions)
    else
      var c := Compact(rs);
      if Fits(c, d, q) then Carve(c, d, q)
      else
        var f := Scan(c[1..], d, q);
        f.(regions := [c[0]] + f.regions)
  }

  /** dma_free on the element `id` of the list. */
  function Release(rs: seq<Region>, id: nat): seq<Region>
    decreases |rs|
  {
    if rs == [] then []
    else if rs[0].id == id then Compact([Freed(rs[0])] + rs[1..])
    else [rs[0]] + Release(rs[1..], id)
  }

  function Freed(r: Region): Region { Region(r.id, r.offset, false, 0, 0) }

  /** _find_mem */
  function FindMem(rs: seq<Region>, offset: nat): Region
    requires rs != []
    decreases |rs|
  {
    if |rs| > 1 && offset >= rs[1].offset then FindMem(rs[1..], offset) else rs[0]
  }

  // ----- the allocator

  datatype Allocator = Allocator(nodes: seq<Node>, nextId: nat)

  function NewNode(d: Desc, id: nat): Node { Node(d, [Region(id, 0, false, 0, 0)]) }

  /** do_dma_provide_mem, when it finds memory for its own bookkeeping. */
  function Provide(a: Allocator, d: Desc): Allocator {
    Allocator([NewNode(d, a.nextId)] + a.nodes, a.nextId + 1)
  }

  /** An allocated region and the node it is in. */
  datatype Block = Block(desc: Desc, region: Region)

  datatype Outcome = Outcome(nodes: seq<Node>, got: Option<Block>)

  function ScanNodes(ns: seq<Node>, q: Request): Outcome
    requires q.align > 0
    decreases |ns|
  {
    if ns == [] then Outcome([], None)
    else
      var f := Scan(ns[0].regions, ns[0].desc, q);
      var n := ns[0].(regions := f.regions);
      if f.got.Some? then Outcome([n] + ns[1..], Some(Block(n.desc, f.got.value)))
      else
        var o := ScanNodes(ns[1..], q);
        o.(nodes := [n] + o.nodes)
  }

  function RaisedAlign(align: int): nat { if align < MIN_ALIGN then MIN_ALIGN else align }

  /** What the world outside answers to one dma_alloc: memory for a split, the memory morecore
      provides if it is asked, and memory for a split of that. */
  datatype Env = Env(room: bool, more: Option<Desc>, moreRoom: bool)

  datatype Allocation = Allocation(allocator: Allocator, got: Option<Block>)

  /** dma_alloc once the existing nodes have failed and morecore has provided memory. */
  function AllocMore(a: Allocator, size: nat, align: nat, d: Desc, room: bool): Allocation
    requires align > 0
  {
    var n := NewNode(d, a.nextId);
    var f := Scan(n.regions, d, Request(size, align, room, a.nextId + 1));
    Allocation(Allocator([n.(regions := f.regions)] + a.nodes, a.nextId + 2),
               if f.got.Some? then Some(Block(d, f.got.value)) else None)
  }

  /** dma_alloc */
  function Alloc(a: Allocator, size: nat, align: int, env: Env): Allocation {
    var o := ScanNodes(a.nodes, Request(size, RaisedAlign(align), env.room, a.nextId));
    var a1 := Allocator(o.nodes, a.nextId + 1);
    if o.got.Some? || env.more.None? then Allocation(a1, o.got)
    else AllocMore(a1, size, RaisedAlign(align), env.more.value, env.moreRoom)
  }

  function FreeIn(ns: seq<Node>, id: nat): seq<Node>
    decreases |ns|
  {
    if ns == [] then [] else [ns[0].(regions := Release(ns[0].regions, id))] + FreeIn(ns[1..], id)
  }

  function Free(a: Allocator, id: nat): Allocator { a.(nodes := FreeIn(a.nodes, id)) }

  predicate Populated(ns: seq<Node>) { forall n | n in ns :: n.regions != [] }

  datatype Reclaimed = Reclaimed(nodes: seq<Node>, desc: Option<Desc>)

  /** dma_reclaim_mem: compacts the head of every node on the way, used or not. */
  function ReclaimIn(ns: seq<Node>): Reclaimed
    requires Populated(ns)
    decreases |ns|
  {
    if ns == [] then Reclaimed([], None)
    else
      var c := Compact(ns[0].regions);
      if !c[0].used && |c| == 1 then Reclaimed(ns[1..], Some(ns[0].desc))
      else
        var r := ReclaimIn(ns[1..]);
        r.(nodes := [ns[0].(regions := c)] + r.nodes)
  }

  /** The node loop of dma_vlookup. */
  function NodeAt(ns: seq<Node>, vaddr: nat): (n: Option<Node>)
    ensures n.Some? ==> n.value in ns && n.value.desc.vaddr <= vaddr < n.value.desc.vaddr + n.value.desc.size
    decreases |ns|
  {
    if ns == [] then None
    else if ns[0].desc.vaddr <= vaddr < ns[0].desc.vaddr + ns[0].desc.size then Some(ns[0])
    else NodeAt(ns[1..], vaddr)
  }

  function Vlookup(a: Allocator, vaddr: nat): Option<Block>
    requires Populated(a.nodes)
  {
    match NodeAt(a.nodes, vaddr)
    case None => None
    case Some(n) => Some(Block(n.desc, FindMem(n.regions, vaddr - n.desc.vaddr)))
  }
}
