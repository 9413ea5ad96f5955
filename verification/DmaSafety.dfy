/** What the DMA allocator's list surgery keeps: live regions stay where they are, aligned, large
    enough and apart. */
module DmaSafety {
  import opened Common
  import opened DmaModel

  // ----- one node

  function Start(rs: seq<Region>, d: Desc): nat { if rs == [] then d.size else rs[0].offset }

  /** A live region is aligned and holds what was asked for before `end`. */
  predicate Serves(r: Region, end: nat, d: Desc) {
    r.used ==> r.align >= MIN_ALIGN && (d.paddr + r.offset) % r.align == 0 && r.offset + r.size <= end
  }

  predicate Ok(rs: seq<Region>, d: Desc) {
    rs == [] || (
      && rs[0].offset < d.size
      && rs[0].offset <= Start(rs[1..], d)
      && Serves(rs[0], Start(rs[1..], d), d)
      && Ok(rs[1..], d))
  }

  function Ids(rs: seq<Region>): set<nat> { if rs == [] then {} else {rs[0].id} + Ids(rs[1..]) }

  predicate Distinct(rs: seq<Region>) { rs == [] || (rs[0].id !in Ids(rs[1..]) && Distinct(rs[1..])) }

  lemma {:induction false} IdAt(rs: seq<Region>, i: nat)
    requires i < |rs|
    ensures rs[i].id in Ids(rs)
  {
    if i > 0 {
      IdAt(rs[1..], i - 1);
    }
  }

  function Live(rs: seq<Region>): set<Region> {
    if rs == [] then {} else (if rs[0].used then {rs[0]} else {}) + Live(rs[1..])
  }

  /** A list that can stand in for another behind the same predecessor. */
  predicate Follows(rs: seq<Region>, r2: seq<Region>, d: Desc) {
    Ok(r2, d) && Start(r2, d) >= Start(rs, d)
  }

  lemma {:induction false} Cons(x: Region, rs: seq<Region>)
    ensures ([x] + rs)[1..] == rs && ([x] + rs)[0] == x
  {
  }

  lemma {:induction false} ConsOk(x: Region, rs: seq<Region>, r2: seq<Region>, d: Desc)
    requires Ok([x] + rs, d) && Follows(rs, r2, d)
    ensures Ok([x] + r2, d)
  {
    Cons(x, rs);
    Cons(x, r2);
  }

  lemma {:induction false} DropFreeKeeps(rs: seq<Region>, d: Desc)
    requires Ok(rs, d)
    ensures Follows(rs, DropFree(rs), d) && Live(DropFree(rs)) == Live(rs) && Ids(DropFree(rs)) <= Ids(rs)
    ensures Distinct(rs) ==> Distinct(DropFree(rs))
  {
    if rs != [] && !rs[0].used {
      DropFreeKeeps(rs[1..], d);
    }
  }

  lemma {:induction false} CompactKeeps(rs: seq<Region>, d: Desc)
    requires rs != [] && Ok(rs, d)
    ensures Follows(rs, Compact(rs), d) && Live(Compact(rs)) == Live(rs) && Ids(Compact(rs)) <= Ids(rs)
    ensures Distinct(rs) ==> Distinct(Compact(rs))
  {
    DropFreeKeeps(rs[1..], d);
    assert rs == [rs[0]] + rs[1..];
    ConsOk(rs[0], rs[1..], DropFree(rs[1..]), d);
    Cons(rs[0], DropFree(rs[1..]));
  }

  lemma {:induction false} LiveHasId(rs: seq<Region>, x: Region)
    requires x in Live(rs)
    ensures x.id in Ids(rs) && x.used
  {
    if x in Live(rs[1..]) {
      LiveHasId(rs[1..], x);
    }
  }

  /** Every live region is aligned and inside its node. */
  lemma {:induction false} LiveServed(rs: seq<Region>, d: Desc, x: Region)
    requires Ok(rs, d) && x in Live(rs)
    ensures x.align >= MIN_ALIGN && (d.paddr + x.offset) % x.align == 0
    ensures Start(rs, d) <= x.offset && x.offset + x.size <= d.size
  {
    if x == rs[0] && x.used {
      StartInside(rs[1..], d);
    } else {
      LiveServed(rs[1..], d, x);
    }
  }

  lemma {:induction false} StartInside(rs: seq<Region>, d: Desc)
    requires Ok(rs, d)
    ensures Start(rs, d) <= d.size
  {
  }

  predicate Apart(x: Region, y: Region) { x.offset + x.size <= y.offset || y.offset + y.size <= x.offset }

  /** Two live regions of a node do not overlap. */
  lemma {:induction false} LiveApart(rs: seq<Region>, d: Desc, x: Region, y: Region)
    requires Ok(rs, d) && x in Live(rs) && y in Live(rs) && x != y
    ensures Apart(x, y)
  {
    if x !in Live(rs[1..]) {
      LiveServed(rs[1..], d, y);
    } else if y !in Live(rs[1..]) {
      LiveServed(rs[1..], d, x);
    } else {
      LiveApart(rs[1..], d, x, y);
    }
  }

  // ----- allocation from a node

  /** The outcome of a scan: nothing live has changed but for the region granted, if any. */
  predicate Granted(rs: seq<Region>, f: Found, q: Request) {
    match f.got
    case None => Live(f.regions) == Live(rs)
    case Some(r) =>
      && r.used && r.size == q.size && r.align == q.align && r.id in Ids(rs)
      && (forall x | x in Live(rs) :: x.id != r.id)
      && Live(f.regions) == Live(rs) + {r}
  }

  predicate ScanKeeps(rs: seq<Region>, d: Desc, q: Request, f: Found) {
    && Follows(rs, f.regions, d) && Distinct(f.regions)
    && Ids(f.regions) <= Ids(rs) + {q.newId} && (f.got.None? ==> Ids(f.regions) <= Ids(rs))
    && (rs != [] ==> f.regions != [])
    && Granted(rs, f, q)
  }

  lemma {:induction false} CarveKeeps(rs: seq<Region>, d: Desc, q: Request)
    requires rs != [] && !rs[0].used && Ok(rs, d) && Distinct(rs) && q.newId !in Ids(rs)
    requires q.align >= MIN_ALIGN && Fits(rs, d, q)
    ensures ScanKeeps(rs, d, q, Carve(rs, d, q))
  {
    var f := Carve(rs, d, q);
    var mine, rest := f.got.value, rs[1..];
    forall x | x in Live(rs) ensures x.id != mine.id { LiveHasId(rest, x); }
    if EndOf(rs, d) - mine.offset > q.size && q.room {
      var split := Region(q.newId, mine.offset + q.size, false, 0, 0);
      assert f.regions == [mine] + ([split] + rest);
      Cons(mine, [split] + rest);
      Cons(split, rest);
    } else {
      Cons(mine, rest);
    }
  }

  lemma {:induction false} ConsScan(x: Region, rs: seq<Region>, d: Desc, q: Request, f: Found)
    requires Ok([x] + rs, d) && Distinct([x] + rs) && q.newId !in Ids([x] + rs) && ScanKeeps(rs, d, q, f)
    ensures ScanKeeps([x] + rs, d, q, f.(regions := [x] + f.regions))
  {
    Cons(x, rs);
    Cons(x, f.regions);
    ConsOk(x, rs, f.regions, d);
  }

  /** dma_memd_alloc keeps every live region as it is and grants at most one more, with the size and
      alignment asked for. */
  lemma {:induction false} ScanSafe(rs: seq<Region>, d: Desc, q: Request)
    requires Ok(rs, d) && Distinct(rs) && q.newId !in Ids(rs) && q.align >= MIN_ALIGN
    ensures ScanKeeps(rs, d, q, Scan(rs, d, q))
    decreases |rs|
  {
    if rs == [] {
    } else if rs[0].used {
      ScanSafe(rs[1..], d, q);
      assert rs == [rs[0]] + rs[1..];
      ConsScan(rs[0], rs[1..], d, q, Scan(rs[1..], d, q));
    } else {
      var c := Compact(rs);
      CompactKeeps(rs, d);
      if Fits(c, d, q) {
        CarveKeeps(c, d, q);
      } else {
        ScanSafe(c[1..], d, q);
        assert c == [c[0]] + c[1..];
        ConsScan(c[0], c[1..], d, q, Scan(c[1..], d, q));
      }
    }
  }

  // ----- release and lookup

  function Without(s: set<Region>, id: nat): set<Region> { set x | x in s && x.id != id }

  lemma {:induction false} NoSuchId(rs: seq<Region>, id: nat)
    requires id !in Ids(rs)
    ensures Without(Live(rs), id) == Live(rs)
  {
    forall x | x in Live(rs) ensures x.id != id { LiveHasId(rs, x); }
  }

  /** dma_free takes exactly the freed handle out of the live ones. */
  lemma {:induction false} ReleaseSafe(rs: seq<Region>, d: Desc, id: nat)
    requires Ok(rs, d) && Distinct(rs)
    ensures var r := Release(rs, id);
            && Follows(rs, r, d) && Distinct(r) && Ids(r) <= Ids(rs)
            && Live(r) == Without(Live(rs), id)
            && (rs != [] ==> r != [])
  {
    if rs != [] {
      if rs[0].id == id {
        var freed := [Freed(rs[0])] + rs[1..];
        Cons(Freed(rs[0]), rs[1..]);
        NoSuchId(rs[1..], id);
        CompactKeeps(freed, d);
      } else {
        ReleaseSafe(rs[1..], d, id);
        assert rs == [rs[0]] + rs[1..];
        ConsOk(rs[0], rs[1..], Release(rs[1..], id), d);
        Cons(rs[0], Release(rs[1..], id));
      }
    }
  }

  /** _find_mem on any byte of a live region finds that region. */
  lemma {:induction false} FindMemOwns(rs: seq<Region>, d: Desc, x: Region, offset: nat)
    requires Ok(rs, d) && x in Live(rs) && x.offset <= offset < x.offset + x.size
    ensures FindMem(rs, offset) == x
  {
    if x in Live(rs[1..]) {
      LiveServed(rs[1..], d, x);
      FindMemOwns(rs[1..], d, x, offset);
    }
  }
}
