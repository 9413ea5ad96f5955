/** What allocation and release do to the free bytes of a node, and where dma_alloc looks for them. */
module DmaEffects {
  import opened Common
  import opened DmaModel
  import opened DmaSafety
  import opened DmaFit
  import opened DmaRuns

  // ----- one node

  /** Elements `i` to `j` are a run of free regions that no other one continues. */
  predicate MaximalRun(rs: seq<Region>, i: nat, j: nat) {
    && i < j <= |rs| && (forall k | i <= k < j :: !rs[k].used)
    && (i == 0 || rs[i - 1].used) && (j == |rs| || rs[j].used)
  }

  /** The free bytes are those there were, without [lo, hi). */
  ghost predicate Loses(rs: seq<Region>, after: seq<Region>, d: Desc, lo: nat, hi: nat) {
    forall b: nat :: FreeByte(after, d, b) <==> FreeByte(rs, d, b) && !(lo <= b < hi)
  }

  /** They are those there were, and [lo, hi). */
  ghost predicate Gains(rs: seq<Region>, after: seq<Region>, d: Desc, lo: nat, hi: nat) {
    forall b: nat :: FreeByte(after, d, b) <==> FreeByte(rs, d, b) || lo <= b < hi
  }

  ghost predicate SameBytes(rs: seq<Region>, after: seq<Region>, d: Desc) {
    forall b: nat :: FreeByte(after, d, b) <==> FreeByte(rs, d, b)
  }

  lemma {:induction false} ConsByte(x: Region, rs: seq<Region>, d: Desc, b: nat)
    ensures FreeByte([x] + rs, d, b) <==> (!x.used && x.offset <= b < Start(rs, d)) || FreeByte(rs, d, b)
  {
    Cons(x, rs);
  }

  lemma {:induction false} UsedHeadStays(rs: seq<Region>, d: Desc, q: Request)
    requires q.align > 0 && (rs == [] || rs[0].used)
    ensures Start(Scan(rs, d, q).regions, d) == Start(rs, d)
  {
  }

  /** Merging changes no free byte. */
  lemma {:induction false} CompactBytes(rs: seq<Region>, d: Desc)
    requires rs != [] && Ok(rs, d) && !rs[0].used
    ensures SameBytes(rs, Compact(rs), d)
  {
    var rest := DropFree(rs[1..]);
    forall b: nat ensures FreeByte(Compact(rs), d, b) <==> FreeByte(rs, d, b) {
      DropFreeBytes(rs, d, b);
      ConsByte(rs[0], rest, d, b);
    }
  }

  /** What carving takes from the head. */
  lemma {:induction false} CarveBytes(c: seq<Region>, d: Desc, q: Request)
    requires c != [] && Ok(c, d) && !c[0].used && q.align > 0 && Fits(c, d, q)
    ensures var f := Carve(c, d, q);
            f.got.Some? && Loses(c, f.regions, d, c[0].offset, if q.room then f.got.value.offset + q.size else EndOf(c, d))
  {
    var f, rest := Carve(c, d, q), c[1..];
    var mine := f.got.value;
    var split := Region(q.newId, mine.offset + q.size, false, 0, 0);
    forall b: nat
      ensures FreeByte(f.regions, d, b) <==>
              FreeByte(c, d, b) && !(c[0].offset <= b < if q.room then mine.offset + q.size else EndOf(c, d))
    {
      if FreeByte(rest, d, b) {
        FreeByteInside(rest, d, b);
      }
      ConsByte(mine, [split] + rest, d, b);
      ConsByte(split, rest, d, b);
      ConsByte(mine, rest, d, b);
      assert [mine, split] + rest == [mine] + ([split] + rest);
    }
  }

  lemma {:induction false} LosesBehind(x: Region, rs: seq<Region>, after: seq<Region>, d: Desc, lo: nat, hi: nat)
    requires Ok([x] + rs, d) && Loses(rs, after, d, lo, hi) && (!x.used ==> Start(after, d) == Start(rs, d)) && Start(rs, d) <= lo
    ensures Loses([x] + rs, [x] + after, d, lo, hi)
  {
    forall b: nat ensures FreeByte([x] + after, d, b) <==> FreeByte([x] + rs, d, b) && !(lo <= b < hi) {
      ConsByte(x, rs, d, b);
      ConsByte(x, after, d, b);
    }
  }

  lemma {:induction false} SameBehind(x: Region, rs: seq<Region>, after: seq<Region>, d: Desc)
    requires SameBytes(rs, after, d) && (!x.used ==> Start(after, d) == Start(rs, d))
    ensures SameBytes([x] + rs, [x] + after, d)
  {
    forall b: nat ensures FreeByte([x] + after, d, b) <==> FreeByte([x] + rs, d, b) {
      ConsByte(x, rs, d, b);
      ConsByte(x, after, d, b);
    }
  }

  /** A scan that grants nothing changes no free byte. */
  lemma {:induction false} FailedScanBytes(rs: seq<Region>, d: Desc, q: Request)
    requires Ok(rs, d) && q.align > 0 && Scan(rs, d, q).got.None?
    ensures SameBytes(rs, Scan(rs, d, q).regions, d)
    decreases |rs|
  {
    if rs == [] {
    } else if rs[0].used {
      FailedScanBytes(rs[1..], d, q);
      assert rs == [rs[0]] + rs[1..];
      SameBehind(rs[0], rs[1..], Scan(rs[1..], d, q).regions, d);
    } else {
      var c := Compact(rs);
      CompactKeeps(rs, d);
      CompactBytes(rs, d);
      FailedScanBytes(c[1..], d, q);
      UsedHeadStays(c[1..], d, q);
      assert c == [c[0]] + c[1..];
      SameBehind(c[0], c[1..], Scan(c[1..], d, q).regions, d);
    }
  }

  /** A scan that grants a block takes it from a run of free regions, at the first aligned address of the run: the free
      bytes lose the block and the padding in front of it and, only if there is no memory for a list element, the rest
      of the run. */
  ghost predicate TakesFrom(rs: seq<Region>, d: Desc, q: Request, f: Found, i: nat, j: nat) {
    && f.got.Some? && MaximalRun(rs, i, j) && q.align > 0
    && var at := f.got.value.offset;
       && at == rs[i].offset + Pad(d.paddr + rs[i].offset, q.align) && at + q.size <= EndAt(rs, d, j)
       && Loses(rs, f.regions, d, rs[i].offset, if q.room then at + q.size else EndAt(rs, d, j))
  }

  lemma {:induction false} TakesBehindUsed(x: Region, rs: seq<Region>, d: Desc, q: Request, f: Found, i: nat, j: nat)
    requires Ok([x] + rs, d) && x.used && TakesFrom(rs, d, q, f, i, j)
    ensures TakesFrom([x] + rs, d, q, f.(regions := [x] + f.regions), i + 1, j + 1)
  {
    Cons(x, rs);
    OffsetsGrow(rs, d, i);
    LosesBehind(x, rs, f.regions, d, rs[i].offset, if q.room then f.got.value.offset + q.size else EndAt(rs, d, j));
  }

  lemma {:induction false} OffsetsGrow(rs: seq<Region>, d: Desc, i: nat)
    requires Ok(rs, d) && i < |rs|
    ensures Start(rs, d) <= rs[i].offset
  {
    if i > 0 {
      OffsetsGrow(rs[1..], d, i - 1);
    }
  }

  /** The head and the free regions behind it are a run. */
  lemma {:induction false} HeadRun(rs: seq<Region>, d: Desc) returns (m: nat)
    requires rs != [] && !rs[0].used
    ensures 0 < m <= |rs| && rs[m..] == DropFree(rs[1..]) && MaximalRun(rs, 0, m) && EndAt(rs, d, m) == Start(rs[m..], d)
  {
    DropFreeIs(rs);
    m := |rs| - |DropFree(rs)|;
  }

  lemma {:induction false} TakesBehindRun(rs: seq<Region>, d: Desc, q: Request, f: Found, i: nat, j: nat) returns (m: nat)
    requires Ok(rs, d) && rs != [] && !rs[0].used
    requires TakesFrom(DropFree(rs[1..]), d, q, f, i, j) && Start(f.regions, d) == Start(DropFree(rs[1..]), d)
    ensures TakesFrom(rs, d, q, f.(regions := [rs[0]] + f.regions), m + i, m + j)
  {
    m := HeadRun(rs, d);
    var c, hi := Compact(rs), if q.room then f.got.value.offset + q.size else EndAt(rs[m..], d, j);
    CompactKeeps(rs, d);
    CompactBytes(rs, d);
    Cons(rs[0], rs[m..]);
    OffsetsGrow(rs[m..], d, i);
    LosesBehind(rs[0], rs[m..], f.regions, d, rs[m..][i].offset, hi);
  }

  lemma {:induction false} CarveTakes(rs: seq<Region>, d: Desc, q: Request) returns (m: nat)
    requires Ok(rs, d) && rs != [] && !rs[0].used && q.align > 0 && Fits(Compact(rs), d, q)
    ensures TakesFrom(rs, d, q, Carve(Compact(rs), d, q), 0, m)
  {
    m := HeadRun(rs, d);
    CompactKeeps(rs, d);
    CompactBytes(rs, d);
    CarveBytes(Compact(rs), d, q);
  }

  lemma {:induction false} ScanSkips(rs: seq<Region>, d: Desc, q: Request)
    requires Ok(rs, d) && rs != [] && !rs[0].used && q.align > 0 && !Fits(Compact(rs), d, q)
    ensures var f := Scan(DropFree(rs[1..]), d, q);
            && Ok(DropFree(rs[1..]), d) && Start(f.regions, d) == Start(DropFree(rs[1..]), d)
            && Scan(rs, d, q) == f.(regions := [rs[0]] + f.regions)
  {
    CompactKeeps(rs, d);
    assert Compact(rs)[1..] == DropFree(rs[1..]);
    UsedHeadStays(DropFree(rs[1..]), d, q);
  }

  lemma {:induction false} ScanBytes(rs: seq<Region>, d: Desc, q: Request) returns (i: nat, j: nat)
    requires Ok(rs, d) && q.align > 0 && Scan(rs, d, q).got.Some?
    ensures TakesFrom(rs, d, q, Scan(rs, d, q), i, j)
    decreases |rs|
  {
    if rs[0].used {
      i, j := ScanBytes(rs[1..], d, q);
      assert rs == [rs[0]] + rs[1..];
      TakesBehindUsed(rs[0], rs[1..], d, q, Scan(rs[1..], d, q), i, j);
      i, j := i + 1, j + 1;
    } else if Fits(Compact(rs), d, q) {
      i := 0;
      j := CarveTakes(rs, d, q);
    } else {
      ScanSkips(rs, d, q);
      i, j := ScanBytes(DropFree(rs[1..]), d, q);
      var m := TakesBehindRun(rs, d, q, Scan(DropFree(rs[1..]), d, q), i, j);
      i, j := m + i, m + j;
    }
  }

  // ----- release

  lemma {:induction false} ReleaseStart(rs: seq<Region>, d: Desc, id: nat)
    ensures Start(Release(rs, id), d) == Start(rs, d)
  {
  }

  lemma {:induction false} GainsBehind(x: Region, rs: seq<Region>, after: seq<Region>, d: Desc, lo: nat, hi: nat)
    requires Gains(rs, after, d, lo, hi) && Start(after, d) == Start(rs, d)
    ensures Gains([x] + rs, [x] + after, d, lo, hi)
  {
    forall b: nat ensures FreeByte([x] + after, d, b) <==> FreeByte([x] + rs, d, b) || lo <= b < hi {
      ConsByte(x, rs, d, b);
      ConsByte(x, after, d, b);
    }
  }

  lemma {:induction false} FreedBytes(x: Region, rest: seq<Region>, d: Desc)
    requires Ok([x] + rest, d)
    ensures Gains([x] + rest, Compact([Freed(x)] + rest), d, x.offset, Start(rest, d))
  {
    var freed := [Freed(x)] + rest;
    Cons(x, rest);
    Cons(Freed(x), rest);
    CompactBytes(freed, d);
    forall b: nat ensures FreeByte(Compact(freed), d, b) <==> FreeByte([x] + rest, d, b) || x.offset <= b < Start(rest, d) {
      ConsByte(x, rest, d, b);
      ConsByte(Freed(x), rest, d, b);
    }
  }

  /** Freeing an element makes the bytes from it to the next one free and changes no other. */
  lemma {:induction false} ReleaseBytes(rs: seq<Region>, d: Desc, id: nat) returns (k: nat)
    requires Ok(rs, d) && id in Ids(rs)
    ensures k < |rs| && rs[k].id == id && Gains(rs, Release(rs, id), d, rs[k].offset, EndAt(rs, d, k + 1))
  {
    assert rs == [rs[0]] + rs[1..];
    if rs[0].id == id {
      k := 0;
      FreedBytes(rs[0], rs[1..], d);
    } else {
      k := ReleaseBytes(rs[1..], d, id);
      ReleaseStart(rs[1..], d, id);
      GainsBehind(rs[0], rs[1..], Release(rs[1..], id), d, rs[k + 1].offset, EndAt(rs, d, k + 2));
      k := k + 1;
    }
  }

  lemma {:induction false} ReleaseOther(rs: seq<Region>, id: nat)
    requires id !in Ids(rs)
    ensures Release(rs, id) == rs
  {
    if rs != [] {
      ReleaseOther(rs[1..], id);
      assert rs == [rs[0]] + rs[1..];
    }
  }

  /** So every byte of a block is free once the block has been freed. */
  lemma {:induction false} BlockIsFreed(rs: seq<Region>, d: Desc, x: Region)
    requires Ok(rs, d) && Distinct(rs) && x in Live(rs)
    ensures FreeBlock(Release(rs, x.id), d, x.size, x.offset)
  {
    LiveHasId(rs, x);
    var k := ReleaseBytes(rs, d, x.id);
    LiveAt(rs, d, x, k);
  }

  lemma {:induction false} LiveAt(rs: seq<Region>, d: Desc, x: Region, k: nat)
    requires Ok(rs, d) && Distinct(rs) && x in Live(rs) && k < |rs| && rs[k].id == x.id
    ensures rs[k] == x && x.offset + x.size <= EndAt(rs, d, k + 1)
  {
    if k > 0 {
      IdAt(rs[1..], k - 1);
      LiveAt(rs[1..], d, x, k - 1);
    } else if x in Live(rs[1..]) {
      LiveHasId(rs[1..], x);
    }
  }

  // ----- all nodes

  ghost predicate NodeSame(n: Node, m: Node) { m.desc == n.desc && SameBytes(n.regions, m.regions, n.desc) }

  ghost predicate AllSame(ns: seq<Node>, ms: seq<Node>) {
    |ms| == |ns| && forall k | 0 <= k < |ns| :: NodeSame(ns[k], ms[k])
  }

  ghost predicate HasPlace(n: Node, q: Request)
    requires q.align > 0
  {
    exists p: nat :: Suits(n.regions, n.desc, q.size, q.align, p)
  }

  ghost predicate NodeTakes(n: Node, m: Node, q: Request, b: Block) {
    && m.desc == n.desc == b.desc
    && exists i: nat, j: nat :: TakesFrom(n.regions, n.desc, q, Found(m.regions, Some(b.region)), i, j)
  }

  /** The block comes from node `k`, the first that has a place for it; no other node loses or gains a byte. */
  ghost predicate OneTakes(ns: seq<Node>, ms: seq<Node>, q: Request, b: Block, k: nat)
    requires q.align > 0
  {
    && |ms| == |ns| && k < |ns| && NodeTakes(ns[k], ms[k], q, b)
    && (forall m | 0 <= m < |ns| && m != k :: NodeSame(ns[m], ms[m]))
    && (forall m | 0 <= m < k :: !HasPlace(ns[m], q))
  }

  lemma {:induction false} NodeScanBytes(n: Node, q: Request)
    requires Ok(n.regions, n.desc) && q.align > 0
    ensures var f := Scan(n.regions, n.desc, q);
            && (f.got.Some? <==> HasPlace(n, q))
            && (f.got.None? ==> NodeSame(n, n.(regions := f.regions)))
            && (f.got.Some? ==> NodeTakes(n, n.(regions := f.regions), q, Block(n.desc, f.got.value)))
  {
    ScanIsFirstFit(n.regions, n.desc, q);
    if Scan(n.regions, n.desc, q).got.None? {
      FailedScanBytes(n.regions, n.desc, q);
    } else {
      var i, j := ScanBytes(n.regions, n.desc, q);
    }
  }

  lemma {:induction false} SameCons(n: Node, m: Node, ns: seq<Node>, ms: seq<Node>)
    requires NodeSame(n, m) && AllSame(ns, ms)
    ensures AllSame([n] + ns, [m] + ms)
  {
    forall k | 0 <= k < |[n] + ns| ensures NodeSame(([n] + ns)[k], ([m] + ms)[k]) {
      if k > 0 {
        assert NodeSame(ns[k - 1], ms[k - 1]);
      }
    }
  }

  lemma {:induction false} TakesCons(n: Node, m: Node, ns: seq<Node>, ms: seq<Node>, q: Request, b: Block, k: nat)
    requires q.align > 0 && NodeSame(n, m) && !HasPlace(n, q) && OneTakes(ns, ms, q, b, k)
    ensures OneTakes([n] + ns, [m] + ms, q, b, k + 1)
  {
    var xs, ys := [n] + ns, [m] + ms;
    forall i | 0 <= i < |xs| && i != k + 1 ensures NodeSame(xs[i], ys[i]) {
      if i > 0 {
        assert NodeSame(ns[i - 1], ms[i - 1]);
      }
    }
    forall i | 0 <= i < k + 1 ensures !HasPlace(xs[i], q) {
      if i > 0 {
        assert !HasPlace(ns[i - 1], q);
      }
    }
  }

  lemma {:induction false} ScanNodesBytes(ns: seq<Node>, q: Request) returns (k: nat)
    requires NodesOk(ns) && q.align > 0
    ensures ScanNodes(ns, q).got.None? ==> AllSame(ns, ScanNodes(ns, q).nodes)
    ensures ScanNodes(ns, q).got.Some? ==> OneTakes(ns, ScanNodes(ns, q).nodes, q, ScanNodes(ns, q).got.value, k)
  {
    k := 0;
    if ns != [] {
      var n, rest := ns[0], ns[1..];
      var m := n.(regions := Scan(n.regions, n.desc, q).regions);
      assert ns == [n] + rest;
      NodeScanBytes(n, q);
      if Scan(n.regions, n.desc, q).got.Some? {
        forall i | 0 <= i < |ns| && i != 0 ensures NodeSame(ns[i], ([m] + rest)[i]) {}
      } else {
        k := ScanNodesBytes(rest, q);
        if ScanNodes(rest, q).got.None? {
          SameCons(n, m, rest, ScanNodes(rest, q).nodes);
        } else {
          TakesCons(n, m, rest, ScanNodes(rest, q).nodes, q, ScanNodes(rest, q).got.value, k);
          k := k + 1;
        }
      }
    }
  }

  // ----- dma_alloc

  function Asked(a: Allocator, size: nat, align: int, env: Env): Request {
    Request(size, RaisedAlign(align), env.room, a.nextId)
  }

  /** An alignment below 32 counts as 32; what is granted is aligned to what was asked for. */
  lemma {:induction false} AlignedAsAsked(a: Allocator, size: nat, align: int, env: Env)
    requires Inv(a) && EnvOk(a, env) && Alloc(a, size, align, env).got.Some?
    ensures var b := Alloc(a, size, align, env).got.value;
            && b.region.size == size
            && (if align >= 32 then (b.desc.paddr + b.region.offset) % align == 0 else (b.desc.paddr + b.region.offset) % 32 == 0)
  {
    AllocSafe(a, size, align, env);
    var r := Alloc(a, size, align, env);
    BlockServed(r.allocator, r.got.value);
  }

  /** If an existing node has a place, the first such node serves the request. */
  lemma {:induction false} AllocFromNode(a: Allocator, size: nat, align: int, env: Env) returns (k: nat)
    requires Inv(a) && HasRoom(a.nodes, size, RaisedAlign(align))
    ensures var r := Alloc(a, size, align, env);
            r.got.Some? && OneTakes(a.nodes, r.allocator.nodes, Asked(a, size, align, env), r.got.value, k)
  {
    var q := Asked(a, size, align, env);
    ScanNodesIff(a.nodes, q);
    k := ScanNodesBytes(a.nodes, q);
  }

  /** If none has one and there is no more memory, the request fails and no free byte changes. */
  lemma {:induction false} AllocFails(a: Allocator, size: nat, align: int, env: Env)
    requires Inv(a) && !HasRoom(a.nodes, size, RaisedAlign(align)) && env.more.None?
    ensures var r := Alloc(a, size, align, env);
            r.got.None? && AllSame(a.nodes, r.allocator.nodes)
  {
    var q := Asked(a, size, align, env);
    ScanNodesIff(a.nodes, q);
    var k := ScanNodesBytes(a.nodes, q);
  }

  /** All of a new node is free. */
  lemma {:induction false} NewNodeBytes(d: Desc, id: nat, b: nat)
    ensures FreeByte(NewNode(d, id).regions, d, b) <==> b < d.size
  {
    assert NewNode(d, id).regions[1..] == [];
  }

  /** What is left of new memory once the request has been served from its first aligned address. */
  ghost predicate Leaves(n: Node, d: Desc, served: bool, end: nat) {
    n.desc == d && forall b: nat :: FreeByte(n.regions, d, b) <==> b < d.size && !(served && b < end)
  }

  lemma {:induction false} MoreBytes(a: Allocator, size: nat, align: nat, d: Desc, room: bool)
    requires d.size > 0 && align > 0
    ensures var r := AllocMore(a, size, align, d, room);
            && r.allocator.nodes != [] && r.allocator.nodes[1..] == a.nodes
            && (r.got.Some? ==> r.got.value.desc == d && r.got.value.region.offset == Pad(d.paddr, align))
            && Leaves(r.allocator.nodes[0], d, r.got.Some?, if room then Pad(d.paddr, align) + size else d.size)
  {
    var n, q := NewNode(d, a.nextId), Request(size, align, room, a.nextId + 1);
    var f := Scan(n.regions, d, q);
    NewNodeOk(d, a.nextId);
    forall b: nat ensures FreeByte(n.regions, d, b) <==> b < d.size { NewNodeBytes(d, a.nextId, b); }
    if f.got.Some? {
      var i, j := ScanBytes(n.regions, d, q);
    } else {
      FailedScanBytes(n.regions, d, q);
    }
  }

  /** If none has one, morecore is asked, and its memory serves the request exactly if it has room behind its first
      aligned address; the nodes there were keep their free bytes. */
  lemma {:induction false} AllocFromMore(a: Allocator, size: nat, align: int, env: Env)
    requires Inv(a) && EnvOk(a, env) && !HasRoom(a.nodes, size, RaisedAlign(align)) && env.more.Some?
    ensures var r, d, pad := Alloc(a, size, align, env), env.more.value, Pad(env.more.value.paddr, RaisedAlign(align));
            && (r.got.Some? <==> pad < d.size && pad + size <= d.size)
            && (r.got.Some? ==> r.got.value.desc == d && r.got.value.region.offset == pad)
            && r.allocator.nodes != [] && AllSame(a.nodes, r.allocator.nodes[1..])
            && Leaves(r.allocator.nodes[0], d, r.got.Some?, if env.moreRoom then pad + size else d.size)
  {
    var q := Asked(a, size, align, env);
    ScanNodesIff(a.nodes, q);
    var k := ScanNodesBytes(a.nodes, q);
    var a1 := Allocator(ScanNodes(a.nodes, q).nodes, a.nextId + 1);
    MoreServesIff(a1, size, q.align, env.more.value, env.moreRoom);
    MoreBytes(a1, size, q.align, env.more.value, env.moreRoom);
  }

  // ----- dma_free

  ghost predicate NodeGains(n: Node, m: Node, id: nat) {
    && m.desc == n.desc
    && exists i: nat :: i < |n.regions| && n.regions[i].id == id &&
                        Gains(n.regions, m.regions, n.desc, n.regions[i].offset, EndAt(n.regions, n.desc, i + 1))
  }

  /** Freeing a handle makes its bytes free, in its own node, and changes no other byte. */
  lemma {:induction false} FreeBytes(ns: seq<Node>, id: nat) returns (k: nat)
    requires NodesOk(ns)
    ensures |FreeIn(ns, id)| == |ns|
    ensures id !in AllIds(ns) ==> FreeIn(ns, id) == ns
    ensures id in AllIds(ns) ==> k < |ns| && NodeGains(ns[k], FreeIn(ns, id)[k], id)
    ensures id in AllIds(ns) ==> forall m | 0 <= m < |ns| && m != k :: FreeIn(ns, id)[m] == ns[m]
  {
    k := 0;
    if ns != [] {
      var n, rest := ns[0], ns[1..];
      assert ns == [n] + rest;
      k := FreeBytes(rest, id);
      if id in Ids(n.regions) {
        var i := ReleaseBytes(n.regions, n.desc, id);
        k := 0;
      } else {
        ReleaseOther(n.regions, id);
        k := k + 1;
      }
    }
  }

  // ----- dma_reclaim_mem

  /** What looking at a node for reclaiming does to it: a used head swallows the free regions directly behind it. */
  ghost predicate Passed(n: Node, m: Node) {
    && n.regions != [] && m.desc == n.desc
    && if n.regions[0].used then
         exists j: nat :: 1 <= j <= |n.regions| && FreeUpTo(n.regions, j) &&
                          Loses(n.regions, m.regions, n.desc, EndAt(n.regions, n.desc, 1), EndAt(n.regions, n.desc, j))
       else SameBytes(n.regions, m.regions, n.desc)
  }

  /** The regions behind the head are free up to the `j`-th, which is not. */
  predicate FreeUpTo(rs: seq<Region>, j: nat) {
    j <= |rs| && (forall k | 1 <= k < j :: !rs[k].used) && (j == |rs| || rs[j].used)
  }

  lemma {:induction false} RunBehind(rs: seq<Region>, d: Desc) returns (j: nat)
    requires rs != []
    ensures 1 <= j <= |rs| && FreeUpTo(rs, j)
    ensures EndAt(rs, d, 1) == Start(rs[1..], d) && EndAt(rs, d, j) == Start(DropFree(rs[1..]), d)
  {
    DropFreeIs(rs[1..]);
    j := |rs| - |DropFree(rs[1..])|;
    forall k | 1 <= k < j ensures !rs[k].used { assert rs[k] == rs[1..][k - 1]; }
  }

  lemma {:induction false} SwallowedBytes(rs: seq<Region>, d: Desc)
    requires Ok(rs, d) && rs != [] && rs[0].used
    ensures Loses(rs, Compact(rs), d, Start(rs[1..], d), Start(DropFree(rs[1..]), d))
  {
    var rest := DropFree(rs[1..]);
    DropFreeKeeps(rs[1..], d);
    forall b: nat ensures FreeByte(Compact(rs), d, b) <==> FreeByte(rs, d, b) && !(Start(rs[1..], d) <= b < Start(rest, d)) {
      DropFreeBytes(rs[1..], d, b);
      ConsByte(rs[0], rest, d, b);
      if FreeByte(rest, d, b) {
        FreeByteInside(rest, d, b);
      }
    }
  }

  lemma {:induction false} PassedBytes(n: Node)
    requires Ok(n.regions, n.desc) && n.regions != []
    ensures Passed(n, n.(regions := Compact(n.regions)))
  {
    if n.regions[0].used {
      SwallowedBytes(n.regions, n.desc);
      var j := RunBehind(n.regions, n.desc);
    } else {
      CompactBytes(n.regions, n.desc);
    }
  }

  /** The nodes in front of the `k`-th, which is handed back if there is one, have been looked at; those behind it are as
      they were. */
  ghost predicate LookedUpTo(ns: seq<Node>, left: seq<Node>, k: nat) {
    && k <= |ns| && |left| == (if k < |ns| then |ns| - 1 else |ns|)
    && (forall i | 0 <= i < k :: Passed(ns[i], left[i]))
    && (forall i | k <= i < |left| :: left[i] == ns[i + 1])
  }

  lemma {:induction false} LookedCons(n: Node, m: Node, ns: seq<Node>, left: seq<Node>, k: nat)
    requires Passed(n, m) && LookedUpTo(ns, left, k)
    ensures LookedUpTo([n] + ns, [m] + left, k + 1)
  {
    var xs, ys := [n] + ns, [m] + left;
    forall i | 0 <= i < k + 1 ensures Passed(xs[i], ys[i]) {
      if i > 0 {
        assert Passed(ns[i - 1], left[i - 1]);
      }
    }
    forall i | k + 1 <= i < |ys| ensures ys[i] == xs[i + 1] { assert left[i - 1] == ns[i]; }
  }

  lemma {:induction false} ReclaimBytes(ns: seq<Node>)
    requires NodesOk(ns) && Populated(ns)
    ensures LookedUpTo(ns, ReclaimIn(ns).nodes, FirstIdle(ns))
  {
    if ns != [] {
      var n, rest := ns[0], ns[1..];
      assert ns == [n] + rest;
      UnusedIff(n.regions, n.desc);
      if !Idle(n) {
        PassedBytes(n);
        ReclaimBytes(rest);
        LookedCons(n, n.(regions := Compact(n.regions)), rest, ReclaimIn(rest).nodes, FirstIdle(rest));
      }
    }
  }
}
