/** Runs of the DMA allocator: memory provided and reclaimed, blocks allocated and freed, in any
    order. */
module DmaRuns {
  import opened Common
  import opened DmaModel
  import opened DmaSafety
  import opened DmaFit

  // ----- the node list

  function AllIds(ns: seq<Node>): set<nat> { if ns == [] then {} else Ids(ns[0].regions) + AllIds(ns[1..]) }

  predicate NodesOk(ns: seq<Node>) {
    ns == [] || (
      && ns[0].regions != [] && Ok(ns[0].regions, ns[0].desc) && Distinct(ns[0].regions)
      && Ids(ns[0].regions) !! AllIds(ns[1..])
      && NodesOk(ns[1..]))
  }

  function Descs(ns: seq<Node>): (ds: seq<Desc>)
    ensures |ds| == |ns|
  {
    if ns == [] then [] else [ns[0].desc] + Descs(ns[1..])
  }

  /** Two pieces of memory share no virtual and no physical address. */
  predicate Separate(d: Desc, e: Desc) {
    && (d.vaddr + d.size <= e.vaddr || e.vaddr + e.size <= d.vaddr)
    && (d.paddr + d.size <= e.paddr || e.paddr + e.size <= d.paddr)
  }

  predicate AwayFrom(d: Desc, ds: seq<Desc>) { forall e | e in ds :: Separate(d, e) }

  predicate AllSeparate(ds: seq<Desc>) { ds == [] || (AwayFrom(ds[0], ds[1..]) && AllSeparate(ds[1..])) }

  predicate Inv(a: Allocator) {
    NodesOk(a.nodes) && AllSeparate(Descs(a.nodes)) && forall id | id in AllIds(a.nodes) :: id < a.nextId
  }

  /** The live blocks: what the callers hold. */
  function Wrap(d: Desc, s: set<Region>): set<Block> { set x | x in s :: Block(d, x) }

  function Blocks(ns: seq<Node>): set<Block> {
    if ns == [] then {} else Wrap(ns[0].desc, Live(ns[0].regions)) + Blocks(ns[1..])
  }

  lemma {:induction false} ConsNode(n: Node, ns: seq<Node>)
    ensures ([n] + ns)[1..] == ns && ([n] + ns)[0] == n
  {
  }

  lemma {:induction false} BlockNode(ns: seq<Node>, b: Block) returns (n: Node)
    requires b in Blocks(ns) && NodesOk(ns)
    ensures n in ns && n.desc == b.desc && b.region in Live(n.regions) && Ok(n.regions, n.desc)
    ensures b.region.id in AllIds(ns) && n.desc in Descs(ns)
  {
    if b in Wrap(ns[0].desc, Live(ns[0].regions)) {
      n := ns[0];
      LiveHasId(n.regions, b.region);
    } else {
      n := BlockNode(ns[1..], b);
    }
  }

  lemma {:induction false} BlockHasId(ns: seq<Node>, b: Block)
    requires b in Blocks(ns) && NodesOk(ns)
    ensures b.region.id in AllIds(ns) && b.desc in Descs(ns)
  {
    var n := BlockNode(ns, b);
  }

  lemma {:induction false} NodesPopulated(ns: seq<Node>)
    requires NodesOk(ns)
    ensures Populated(ns)
  {
    if ns != [] {
      NodesPopulated(ns[1..]);
      assert forall n | n in ns :: n == ns[0] || n in ns[1..];
    }
  }

  // ----- what callers rely on

  /** A live block is aligned to the larger of what was asked for and 32, and inside its node. */
  lemma {:induction false} BlockServed(a: Allocator, b: Block)
    requires Inv(a) && b in Blocks(a.nodes)
    ensures b.region.align >= MIN_ALIGN && (b.desc.paddr + b.region.offset) % b.region.align == 0
    ensures b.region.offset + b.region.size <= b.desc.size
  {
    var n := BlockNode(a.nodes, b);
    LiveServed(n.regions, n.desc, b.region);
  }

  predicate Disjoint(b: Block, c: Block) {
    && (b.desc.paddr + b.region.offset + b.region.size <= c.desc.paddr + c.region.offset
        || c.desc.paddr + c.region.offset + c.region.size <= b.desc.paddr + b.region.offset)
    && (b.desc.vaddr + b.region.offset + b.region.size <= c.desc.vaddr + c.region.offset
        || c.desc.vaddr + c.region.offset + c.region.size <= b.desc.vaddr + b.region.offset)
  }

  lemma {:induction false} BlocksApart(ns: seq<Node>, b: Block, c: Block)
    requires NodesOk(ns) && AllSeparate(Descs(ns)) && b in Blocks(ns) && c in Blocks(ns) && b != c
    ensures Disjoint(b, c)
  {
    var here := Wrap(ns[0].desc, Live(ns[0].regions));
    if b in here && c in here {
      LiveApart(ns[0].regions, ns[0].desc, b.region, c.region);
    } else if b in here {
      LiveServed(ns[0].regions, ns[0].desc, b.region);
      var n := BlockNode(ns[1..], c);
      LiveServed(n.regions, n.desc, c.region);
    } else if c in here {
      LiveServed(ns[0].regions, ns[0].desc, c.region);
      var n := BlockNode(ns[1..], b);
      LiveServed(n.regions, n.desc, b.region);
    } else {
      BlocksApart(ns[1..], b, c);
    }
  }

  /** Distinct live blocks never overlap, physically or virtually. */
  lemma {:induction false} LiveDisjoint(a: Allocator, b: Block, c: Block)
    requires Inv(a) && b in Blocks(a.nodes) && c in Blocks(a.nodes) && b != c
    ensures Disjoint(b, c)
  {
    BlocksApart(a.nodes, b, c);
  }

  // ----- the operations

  ghost predicate NodesGrant(ns: seq<Node>, o: Outcome, q: Request) {
    match o.got
    case None => Blocks(o.nodes) == Blocks(ns) && AllIds(o.nodes) <= AllIds(ns)
    case Some(b) =>
      && b.region.used && b.region.size == q.size && b.region.align == q.align && b.region.id in AllIds(ns)
      && (forall c | c in Blocks(ns) :: c.region.id != b.region.id)
      && Blocks(o.nodes) == Blocks(ns) + {b}
  }

  ghost predicate NodesKeep(ns: seq<Node>, o: Outcome, q: Request) {
    && NodesOk(o.nodes) && Descs(o.nodes) == Descs(ns) && AllIds(o.nodes) <= AllIds(ns) + {q.newId}
    && NodesGrant(ns, o, q)
  }

  lemma {:induction false} WrapAdd(d: Desc, s: set<Region>, r: Region)
    ensures Wrap(d, s + {r}) == Wrap(d, s) + {Block(d, r)}
  {
  }

  lemma {:induction false} GrantHere(n: Node, ns: seq<Node>, q: Request)
    requires NodesOk([n] + ns) && q.newId !in AllIds([n] + ns) && q.align >= MIN_ALIGN
    requires Scan(n.regions, n.desc, q).got.Some?
    ensures var f := Scan(n.regions, n.desc, q);
            NodesKeep([n] + ns, Outcome([n.(regions := f.regions)] + ns, Some(Block(n.desc, f.got.value))), q)
  {
    ConsNode(n, ns);
    var f := Scan(n.regions, n.desc, q);
    ScanSafe(n.regions, n.desc, q);
    var m := n.(regions := f.regions);
    ConsNode(m, ns);
    WrapAdd(n.desc, Live(n.regions), f.got.value);
    forall c | c in Blocks([n] + ns) ensures c.region.id != f.got.value.id {
      if c in Blocks(ns) {
        BlockHasId(ns, c);
      }
    }
  }

  lemma {:induction false} GrantBehind(n: Node, ns: seq<Node>, q: Request, o: Outcome)
    requires NodesOk([n] + ns) && q.newId !in AllIds([n] + ns) && q.align >= MIN_ALIGN
    requires Scan(n.regions, n.desc, q).got.None? && NodesKeep(ns, o, q)
    ensures var f := Scan(n.regions, n.desc, q);
            NodesKeep([n] + ns, o.(nodes := [n.(regions := f.regions)] + o.nodes), q)
  {
    ConsNode(n, ns);
    var f := Scan(n.regions, n.desc, q);
    ScanSafe(n.regions, n.desc, q);
    var m := n.(regions := f.regions);
    ConsNode(m, o.nodes);
    if o.got.Some? {
      forall c | c in Blocks([n] + ns) ensures c.region.id != o.got.value.region.id {
        if c !in Blocks(ns) {
          LiveHasId(n.regions, c.region);
        }
      }
    }
  }

  lemma {:induction false} ScanNodesSafe(ns: seq<Node>, q: Request)
    requires NodesOk(ns) && q.newId !in AllIds(ns) && q.align >= MIN_ALIGN
    ensures NodesKeep(ns, ScanNodes(ns, q), q)
  {
    if ns != [] {
      assert ns == [ns[0]] + ns[1..];
      if Scan(ns[0].regions, ns[0].desc, q).got.Some? {
        GrantHere(ns[0], ns[1..], q);
      } else {
        ScanNodesSafe(ns[1..], q);
        GrantBehind(ns[0], ns[1..], q, ScanNodes(ns[1..], q));
      }
    }
  }

  lemma {:induction false} NewNodeOk(d: Desc, id: nat)
    requires d.size > 0
    ensures var rs := NewNode(d, id).regions;
            Ok(rs, d) && Distinct(rs) && Ids(rs) == {id} && Live(rs) == {}
  {
    assert NewNode(d, id).regions[1..] == [];
  }

  lemma {:induction false} ProvideSafe(a: Allocator, d: Desc)
    requires Inv(a) && d.size > 0 && AwayFrom(d, Descs(a.nodes))
    ensures Inv(Provide(a, d)) && Blocks(Provide(a, d).nodes) == Blocks(a.nodes)
    ensures Descs(Provide(a, d).nodes) == [d] + Descs(a.nodes)
  {
    var n := NewNode(d, a.nextId);
    ConsNode(n, a.nodes);
    NewNodeOk(d, a.nextId);
    assert Wrap(d, {}) == {};
    assert ([d] + Descs(a.nodes))[1..] == Descs(a.nodes);
  }

  /** How an allocation changes what is live. */
  ghost predicate Allocates(a: Allocator, size: nat, align: nat, r: Allocation) {
    match r.got
    case None => Blocks(r.allocator.nodes) == Blocks(a.nodes)
    case Some(b) =>
      && b.region.used && b.region.size == size && b.region.align == align
      && (forall c | c in Blocks(a.nodes) :: c.region.id != b.region.id)
      && Blocks(r.allocator.nodes) == Blocks(a.nodes) + {b}
  }

  predicate EnvOk(a: Allocator, env: Env) {
    env.more.Some? ==> env.more.value.size > 0 && AwayFrom(env.more.value, Descs(a.nodes))
  }

  /** What a scan of the nodes of `a` left, as an allocation. */
  lemma {:induction false} KeptIsAllocated(a: Allocator, q: Request, o: Outcome)
    requires Inv(a) && q.newId == a.nextId && NodesKeep(a.nodes, o, q)
    ensures Inv(Allocator(o.nodes, a.nextId + 1))
    ensures Allocates(a, q.size, q.align, Allocation(Allocator(o.nodes, a.nextId + 1), o.got))
  {
  }

  lemma {:induction false} AllocMoreKeeps(a: Allocator, d: Desc, q: Request)
    requires Inv(Provide(a, d)) && q.newId == a.nextId + 1 && q.align >= MIN_ALIGN
    ensures var n := NewNode(d, a.nextId);
            var f := Scan(n.regions, d, q);
            NodesKeep([n] + a.nodes, Outcome([n.(regions := f.regions)] + a.nodes, if f.got.Some? then Some(Block(d, f.got.value)) else None), q)
  {
    var n := NewNode(d, a.nextId);
    if Scan(n.regions, d, q).got.Some? {
      GrantHere(n, a.nodes, q);
    } else {
      ConsNode(n, a.nodes);
      GrantBehind(n, a.nodes, q, Outcome(a.nodes, None));
    }
  }

  lemma {:induction false} AllocMoreSafe(a: Allocator, size: nat, align: nat, d: Desc, room: bool)
    requires Inv(a) && d.size > 0 && AwayFrom(d, Descs(a.nodes)) && align >= MIN_ALIGN
    ensures var r := AllocMore(a, size, align, d, room);
            Inv(r.allocator) && Allocates(a, size, align, r)
  {
    var n, q := NewNode(d, a.nextId), Request(size, align, room, a.nextId + 1);
    var f := Scan(n.regions, d, q);
    ProvideSafe(a, d);
    AllocMoreKeeps(a, d, q);
    KeptIsAllocated(Provide(a, d), q,
                    Outcome([n.(regions := f.regions)] + a.nodes, if f.got.Some? then Some(Block(d, f.got.value)) else None));
  }

  /** dma_alloc grants a block of the size and alignment asked for, or nothing; whatever was live stays
      exactly as it was. */
  lemma {:induction false} AllocSafe(a: Allocator, size: nat, align: int, env: Env)
    requires Inv(a) && EnvOk(a, env)
    ensures var r := Alloc(a, size, align, env);
            Inv(r.allocator) && Allocates(a, size, RaisedAlign(align), r)
  {
    var q := Request(size, RaisedAlign(align), env.room, a.nextId);
    ScanNodesSafe(a.nodes, q);
    var o := ScanNodes(a.nodes, q);
    KeptIsAllocated(a, q, o);
    if o.got.None? && env.more.Some? {
      AllocMoreSafe(Allocator(o.nodes, a.nextId + 1), size, RaisedAlign(align), env.more.value, env.moreRoom);
    }
  }

  function WithoutBlock(s: set<Block>, id: nat): set<Block> { set b | b in s && b.region.id != id }

  lemma {:induction false} WrapWithout(d: Desc, s: set<Region>, id: nat)
    ensures Wrap(d, Without(s, id)) == WithoutBlock(Wrap(d, s), id)
  {
  }

  lemma {:induction false} FreeInSafe(ns: seq<Node>, id: nat)
    requires NodesOk(ns)
    ensures var r := FreeIn(ns, id);
            NodesOk(r) && Descs(r) == Descs(ns) && AllIds(r) <= AllIds(ns) && Blocks(r) == WithoutBlock(Blocks(ns), id)
  {
    if ns != [] {
      FreeInSafe(ns[1..], id);
      ReleaseSafe(ns[0].regions, ns[0].desc, id);
      WrapWithout(ns[0].desc, Live(ns[0].regions), id);
      ConsNode(ns[0].(regions := Release(ns[0].regions, id)), FreeIn(ns[1..], id));
    }
  }

  lemma {:induction false} FreeSafe(a: Allocator, id: nat)
    requires Inv(a)
    ensures Inv(Free(a, id)) && Blocks(Free(a, id).nodes) == WithoutBlock(Blocks(a.nodes), id)
  {
    FreeInSafe(a.nodes, id);
  }

  // ----- reclaiming

  /** The test of dma_reclaim_mem holds exactly of nodes nobody holds a block of. */
  lemma {:induction false} UnusedIff(rs: seq<Region>, d: Desc)
    requires rs != [] && Ok(rs, d)
    ensures !Compact(rs)[0].used && |Compact(rs)| == 1 <==> Live(rs) == {}
  {
    DropFreeKeeps(rs[1..], d);
    var rest := DropFree(rs[1..]);
    assert rest != [] ==> rest[0] in Live(rest);
  }

  predicate Idle(n: Node) { Live(n.regions) == {} }

  /** The first node without a live block, or the number of nodes. */
  function FirstIdle(ns: seq<Node>): (k: nat)
    ensures k <= |ns| && (k < |ns| ==> Idle(ns[k])) && forall j | 0 <= j < k :: !Idle(ns[j])
  {
    if ns == [] || Idle(ns[0]) then 0 else 1 + FirstIdle(ns[1..])
  }

  function Remove(ds: seq<Desc>, k: nat): seq<Desc> { if k < |ds| then ds[..k] + ds[k + 1..] else ds }

  ghost predicate Reclaims(ns: seq<Node>, r: Reclaimed) {
    var k := FirstIdle(ns);
    Descs(r.nodes) == Remove(Descs(ns), k) && r.desc == if k < |ns| then Some(ns[k].desc) else None
  }

  lemma {:induction false} AllSeparateRemove(ds: seq<Desc>, k: nat)
    requires k < |ds| && AllSeparate(ds)
    ensures AllSeparate(Remove(ds, k))
  {
    var rest := ds[..k] + ds[k + 1..];
    if k > 0 {
      AllSeparateRemove(ds[1..], k - 1);
      assert rest[1..] == ds[1..][..k - 1] + ds[1..][k..];
      assert rest[0] == ds[0];
    } else {
      assert rest == ds[1..];
    }
  }

  lemma {:induction false} ReclaimsCons(n: Node, m: Node, ns: seq<Node>, r: Reclaimed)
    requires Reclaims(ns, r) && !Idle(n) && m.desc == n.desc
    ensures Reclaims([n] + ns, r.(nodes := [m] + r.nodes))
  {
    ConsNode(n, ns);
    ConsNode(m, r.nodes);
    var k, ds := FirstIdle(ns), Descs(ns);
    assert FirstIdle([n] + ns) == k + 1;
    assert Remove([n.desc] + ds, k + 1) == [n.desc] + Remove(ds, k);
  }

  ghost predicate ReclaimOk(ns: seq<Node>, r: Reclaimed) {
    && NodesOk(r.nodes) && AllIds(r.nodes) <= AllIds(ns) && Blocks(r.nodes) == Blocks(ns) && Reclaims(ns, r)
  }

  lemma {:induction false} ReclaimFirst(n: Node, rest: seq<Node>)
    requires NodesOk([n] + rest) && Populated([n] + rest) && Idle(n)
    ensures ReclaimOk([n] + rest, ReclaimIn([n] + rest))
  {
    var ns := [n] + rest;
    ConsNode(n, rest);
    UnusedIff(n.regions, n.desc);
    assert ns[1..] == rest;
    assert FirstIdle(ns) == 0 && Remove(Descs(ns), 0) == Descs(rest);
  }

  lemma {:induction false} ReclaimLater(n: Node, rest: seq<Node>)
    requires NodesOk([n] + rest) && Populated([n] + rest) && !Idle(n) && Populated(rest) && ReclaimOk(rest, ReclaimIn(rest))
    ensures ReclaimOk([n] + rest, ReclaimIn([n] + rest))
  {
    var m := n.(regions := Compact(n.regions));
    ConsNode(n, rest);
    UnusedIff(n.regions, n.desc);
    CompactKeeps(n.regions, n.desc);
    assert ([n] + rest)[1..] == rest;
    ConsNode(m, ReclaimIn(rest).nodes);
    ReclaimsCons(n, m, rest, ReclaimIn(rest));
  }

  lemma {:induction false} ReclaimInSafe(ns: seq<Node>)
    requires NodesOk(ns)
    ensures Populated(ns) && ReclaimOk(ns, ReclaimIn(ns))
  {
    NodesPopulated(ns);
    if ns != [] {
      var n, rest := ns[0], ns[1..];
      assert ns == [n] + rest;
      if Idle(n) {
        ReclaimFirst(n, rest);
      } else {
        ReclaimInSafe(rest);
        ReclaimLater(n, rest);
      }
    }
  }

  /** Memory is handed back exactly when some node has no live block, and then from the first such
      node; nothing live changes. */
  lemma {:induction false} ReclaimSafe(a: Allocator)
    requires Inv(a)
    ensures Populated(a.nodes)
    ensures var r := ReclaimIn(a.nodes);
            Inv(a.(nodes := r.nodes)) && Blocks(r.nodes) == Blocks(a.nodes) && Reclaims(a.nodes, r)
  {
    ReclaimInSafe(a.nodes);
    if FirstIdle(a.nodes) < |a.nodes| {
      AllSeparateRemove(Descs(a.nodes), FirstIdle(a.nodes));
    }
  }

  // ----- whole runs

  predicate NoEmptyBlocks(ns: seq<Node>) { forall b | b in Blocks(ns) :: b.region.size > 0 }

  datatype Event =
    | Give(desc: Desc, room: bool)
    | Take(size: nat, align: int, env: Env)
    | Return(id: nat)
    | Reclaim

  /** Provided memory is not empty and apart from what is already there; only live blocks are freed. */
  ghost predicate CanHappen(a: Allocator, e: Event) {
    match e
    case Give(desc, _) => desc.size > 0 && AwayFrom(desc, Descs(a.nodes))
    case Take(_, _, env) => EnvOk(a, env)
    case Return(id) => exists b :: b in Blocks(a.nodes) && b.region.id == id
    case Reclaim => Populated(a.nodes)
  }

  function Step(a: Allocator, e: Event): Allocator
    requires e.Reclaim? ==> Populated(a.nodes)
  {
    match e
    case Give(desc, room) => if room then Provide(a, desc) else a
    case Take(size, align, env) => Alloc(a, size, align, env).allocator
    case Return(id) => Free(a, id)
    case Reclaim => a.(nodes := ReclaimIn(a.nodes).nodes)
  }

  lemma {:induction false} StepSafe(a: Allocator, e: Event)
    requires Inv(a) && CanHappen(a, e)
    ensures Inv(Step(a, e))
    ensures forall b | b in Blocks(a.nodes) && e != Return(b.region.id) :: b in Blocks(Step(a, e).nodes)
    ensures NoEmptyBlocks(a.nodes) && (e.Take? ==> e.size > 0) ==> NoEmptyBlocks(Step(a, e).nodes)
  {
    match e
    case Give(desc, _) => ProvideSafe(a, desc);
    case Take(size, align, env) => AllocSafe(a, size, align, env);
    case Return(id) => FreeSafe(a, id);
    case Reclaim => ReclaimSafe(a);
  }

  ghost predicate CanRun(a: Allocator, es: seq<Event>)
    decreases |es|
  {
    es == [] || (CanHappen(a, es[0]) && CanRun(Step(a, es[0]), es[1..]))
  }

  function Run(a: Allocator, es: seq<Event>): Allocator
    requires CanRun(a, es)
    decreases |es|
  {
    if es == [] then a else Run(Step(a, es[0]), es[1..])
  }

  /** Over any run every block stays live, at its offset and with its size and alignment, until it is
      itself freed. */
  lemma {:induction false} RunSafe(a: Allocator, es: seq<Event>, b: Block)
    requires Inv(a) && CanRun(a, es)
    ensures Inv(Run(a, es))
    ensures b in Blocks(a.nodes) && Return(b.region.id) !in es ==> b in Blocks(Run(a, es).nodes)
    ensures NoEmptyBlocks(a.nodes) && (forall e | e in es && e.Take? :: e.size > 0) ==> NoEmptyBlocks(Run(a, es).nodes)
    decreases |es|
  {
    if es != [] {
      StepSafe(a, es[0]);
      RunSafe(Step(a, es[0]), es[1..], b);
    }
  }

  lemma {:induction false} EmptyInv()
    ensures Inv(Allocator([], 0))
  {
  }

  // ----- lookup by address

  lemma {:induction false} NodeAtOwns(ns: seq<Node>, b: Block, vaddr: nat)
    requires NodesOk(ns) && AllSeparate(Descs(ns)) && b in Blocks(ns)
    requires b.desc.vaddr <= vaddr < b.desc.vaddr + b.desc.size
    ensures var n := NodeAt(ns, vaddr);
            n.Some? && n.value.desc == b.desc && b.region in Live(n.value.regions) && Ok(n.value.regions, n.value.desc)
  {
    if b in Wrap(ns[0].desc, Live(ns[0].regions)) {
    } else {
      BlockHasId(ns[1..], b);
      NodeAtOwns(ns[1..], b, vaddr);
    }
  }

  /** dma_vlookup on any byte of a live block gives that block's own handle. */
  lemma {:induction false} VlookupOwns(a: Allocator, b: Block, vaddr: nat)
    requires Inv(a) && b in Blocks(a.nodes)
    requires b.desc.vaddr + b.region.offset <= vaddr < b.desc.vaddr + b.region.offset + b.region.size
    ensures Populated(a.nodes) && Vlookup(a, vaddr) == Some(b)
  {
    NodesPopulated(a.nodes);
    BlockServed(a, b);
    NodeAtOwns(a.nodes, b, vaddr);
    FindMemOwns(NodeAt(a.nodes, vaddr).value.regions, b.desc, b.region, vaddr - b.desc.vaddr);
  }

  /** So freeing by address frees exactly that block. */
  lemma {:induction false} FreeByAddress(a: Allocator, b: Block, vaddr: nat)
    requires Inv(a) && b in Blocks(a.nodes)
    requires b.desc.vaddr + b.region.offset <= vaddr < b.desc.vaddr + b.region.offset + b.region.size
    ensures Populated(a.nodes) && Vlookup(a, vaddr).Some?
    ensures Blocks(Free(a, Vlookup(a, vaddr).value.region.id).nodes) == Blocks(a.nodes) - {b}
  {
    VlookupOwns(a, b, vaddr);
    FreeSafe(a, b.region.id);
    forall c | c in Blocks(a.nodes) && c.region.id == b.region.id ensures c == b { SameIdSameBlock(a.nodes, b, c); }
  }

  lemma {:induction false} SameIdSameRegion(rs: seq<Region>, x: Region, y: Region)
    requires Distinct(rs) && x in Live(rs) && y in Live(rs) && x.id == y.id
    ensures x == y
  {
    if x in Live(rs[1..]) && y in Live(rs[1..]) {
      SameIdSameRegion(rs[1..], x, y);
    } else if x in Live(rs[1..]) {
      LiveHasId(rs[1..], x);
    } else if y in Live(rs[1..]) {
      LiveHasId(rs[1..], y);
    }
  }

  lemma {:induction false} SameIdSameBlock(ns: seq<Node>, b: Block, c: Block)
    requires NodesOk(ns) && b in Blocks(ns) && c in Blocks(ns) && b.region.id == c.region.id
    ensures b == c
  {
    var here := Wrap(ns[0].desc, Live(ns[0].regions));
    if b in here && c in here {
      SameIdSameRegion(ns[0].regions, b.region, c.region);
    } else if b in here {
      LiveHasId(ns[0].regions, b.region);
      BlockHasId(ns[1..], c);
    } else if c in here {
      LiveHasId(ns[0].regions, c.region);
      BlockHasId(ns[1..], b);
    } else {
      SameIdSameBlock(ns[1..], b, c);
    }
  }

  // ----- completeness

  /** Some node has an aligned block inside a run of adjacent free regions. */
  ghost predicate HasRoom(ns: seq<Node>, size: nat, align: nat)
    requires align > 0
  {
    exists n, p: nat :: n in ns && Suits(n.regions, n.desc, size, align, p)
  }

  lemma {:induction false} ScanNodesIff(ns: seq<Node>, q: Request)
    requires NodesOk(ns) && q.align > 0
    ensures ScanNodes(ns, q).got.Some? <==> HasRoom(ns, q.size, q.align)
  {
    if ns != [] {
      var n := ns[0];
      ScanIsFirstFit(n.regions, n.desc, q);
      ScanNodesIff(ns[1..], q);
      if HasRoom(ns[1..], q.size, q.align) {
        var m, p: nat :| m in ns[1..] && Suits(m.regions, m.desc, q.size, q.align, p);
        assert m in ns;
      }
    }
  }

  /** Without morecore, dma_alloc fails exactly when in no node a run of adjacent free regions holds an
      aligned block of the size asked for. */
  lemma {:induction false} AllocFailsIff(a: Allocator, size: nat, align: int, env: Env)
    requires Inv(a) && env.more.None?
    ensures Alloc(a, size, align, env).got.None? <==> !HasRoom(a.nodes, size, RaisedAlign(align))
  {
    ScanNodesIff(a.nodes, Request(size, RaisedAlign(align), env.room, a.nextId));
  }

  /** After morecore, the assertion that the new memory serves the request holds exactly when that
      memory has room for it behind its first aligned address. */
  lemma {:induction false} MoreServesIff(a: Allocator, size: nat, align: nat, d: Desc, room: bool)
    requires align > 0
    ensures AllocMore(a, size, align, d, room).got.Some? <==> Pad(d.paddr, align) < d.size && Pad(d.paddr, align) + size <= d.size
  {
    var rs := NewNode(d, a.nextId).regions;
    assert rs[1..] == [] && Compact(rs) == rs;
    assert Scan([], d, Request(size, align, room, a.nextId + 1)).got.None?;
  }
}
