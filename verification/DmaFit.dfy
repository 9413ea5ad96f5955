/** The lazily merging scan is first fit: it finds the lowest aligned block inside a run of adjacent free
    regions, and fails only when no run holds one. */
module DmaFit {
  import opened Common
  import opened Arith
  import opened DmaModel
  import opened DmaSafety

  // ----- runs of adjacent free regions

  /** Where the elements before position `j` end. */
  function EndAt(rs: seq<Region>, d: Desc, j: nat): nat
    requires j <= |rs|
  {
    if j < |rs| then rs[j].offset else d.size
  }

  /** The elements from `i` to `j` are free and hold `size` bytes from `p` on. */
  predicate RunHolds(rs: seq<Region>, d: Desc, size: nat, p: nat, i: nat, j: nat) {
    && i < j <= |rs| && (forall k | i <= k < j :: !rs[k].used)
    && rs[i].offset <= p < EndAt(rs, d, j) && p + size <= EndAt(rs, d, j)
  }

  /** An aligned block of `size` bytes at `p` lies in a run of adjacent free regions. */
  ghost predicate Suits(rs: seq<Region>, d: Desc, size: nat, align: nat, p: nat)
    requires align > 0
  {
    (d.paddr + p) % align == 0 && exists i: nat, j: nat :: RunHolds(rs, d, size, p, i, j)
  }

  /** The same by recursion, with every run as long as it can be. */
  predicate Room(rs: seq<Region>, d: Desc, size: nat, p: nat) {
    rs != [] && (HeadHolds(rs, d, size, p) || Room(rs[1..], d, size, p))
  }

  predicate HeadHolds(rs: seq<Region>, d: Desc, size: nat, p: nat)
    requires rs != []
  {
    !rs[0].used && rs[0].offset <= p < Start(DropFree(rs), d) && p + size <= Start(DropFree(rs), d)
  }

  /** What is dropped is a free prefix. */
  lemma {:induction false} DropFreeIs(rs: seq<Region>)
    ensures var n := |rs| - |DropFree(rs)|;
            0 <= n <= |rs| && DropFree(rs) == rs[n..] && forall k | 0 <= k < n :: !rs[k].used
  {
    if rs != [] && !rs[0].used {
      DropFreeIs(rs[1..]);
      var m := |rs[1..]| - |DropFree(rs[1..])|;
      forall k | 0 <= k < m + 1 ensures !rs[k].used { assert k > 0 ==> rs[k] == rs[1..][k - 1]; }
    }
  }

  /** A free prefix ends no later than what is dropped. */
  lemma {:induction false} PrefixEnd(rs: seq<Region>, d: Desc, j: nat)
    requires Ok(rs, d) && j <= |rs| && forall k | 0 <= k < j :: !rs[k].used
    ensures EndAt(rs, d, j) <= Start(DropFree(rs), d)
  {
    if j == 0 {
      DropFreeKeeps(rs, d);
    } else {
      forall k | 0 <= k < j - 1 ensures !rs[1..][k].used { assert rs[1..][k] == rs[k + 1]; }
      PrefixEnd(rs[1..], d, j - 1);
    }
  }

  lemma {:induction false} RoomHasRun(rs: seq<Region>, d: Desc, size: nat, p: nat) returns (i: nat, j: nat)
    requires Room(rs, d, size, p)
    ensures RunHolds(rs, d, size, p, i, j)
  {
    if HeadHolds(rs, d, size, p) {
      DropFreeIs(rs);
      i, j := 0, |rs| - |DropFree(rs)|;
    } else {
      i, j := RoomHasRun(rs[1..], d, size, p);
      i, j := i + 1, j + 1;
      forall k | i <= k < j ensures !rs[k].used { assert rs[k] == rs[1..][k - 1]; }
    }
  }

  lemma {:induction false} RunHasRoom(rs: seq<Region>, d: Desc, size: nat, p: nat, i: nat, j: nat)
    requires Ok(rs, d) && RunHolds(rs, d, size, p, i, j)
    ensures Room(rs, d, size, p)
  {
    if i == 0 {
      PrefixEnd(rs, d, j);
    } else {
      forall k | i - 1 <= k < j - 1 ensures !rs[1..][k].used { assert rs[1..][k] == rs[k + 1]; }
      RunHasRoom(rs[1..], d, size, p, i - 1, j - 1);
    }
  }

  lemma {:induction false} SuitsIsRoom(rs: seq<Region>, d: Desc, size: nat, align: nat, p: nat)
    requires Ok(rs, d) && align > 0
    ensures Suits(rs, d, size, align, p) <==> (d.paddr + p) % align == 0 && Room(rs, d, size, p)
  {
    if Suits(rs, d, size, align, p) {
      var i: nat, j: nat :| RunHolds(rs, d, size, p, i, j);
      RunHasRoom(rs, d, size, p, i, j);
    } else if Room(rs, d, size, p) {
      var i, j := RoomHasRun(rs, d, size, p);
    }
  }

  // ----- merging

  lemma {:induction false} RoomInside(rs: seq<Region>, d: Desc, size: nat, p: nat)
    requires Ok(rs, d) && Room(rs, d, size, p)
    ensures Start(rs, d) <= p < d.size
  {
    DropFreeKeeps(rs, d);
    StartInside(DropFree(rs), d);
    if Room(rs[1..], d, size, p) {
      RoomInside(rs[1..], d, size, p);
    }
  }

  /** Behind a free head the runs are its own and those behind what it swallows. */
  lemma {:induction false} RoomDrop(rs: seq<Region>, d: Desc, size: nat, p: nat)
    requires Ok(rs, d) && rs != [] && !rs[0].used
    ensures Room(rs, d, size, p) <==> HeadHolds(rs, d, size, p) || Room(DropFree(rs), d, size, p)
  {
    var rest := rs[1..];
    if rest != [] && !rest[0].used {
      RoomDrop(rest, d, size, p);
    }
  }

  lemma {:induction false} CompactRoom(rs: seq<Region>, d: Desc, size: nat, p: nat)
    requires Ok(rs, d) && rs != [] && !rs[0].used
    ensures Room(Compact(rs), d, size, p) <==> Room(rs, d, size, p)
  {
    var rest := DropFree(rs[1..]);
    RoomDrop(rs, d, size, p);
    Cons(rs[0], rest);
    CompactKeeps(rs, d);
    assert DropFree(Compact(rs)) == DropFree(rest) == rest;
  }

  /** `Pad` reaches the first aligned address. */
  lemma {:induction false} PadLeast(a: nat, x: nat, align: nat)
    requires align > 0 && a <= x && x % align == 0
    ensures x >= a + Pad(a, align)
  {
    if x < a + Pad(a, align) {
      ModAdd(a, x - a, align);
    }
  }

  // ----- first fit

  /** What first fit means. */
  ghost predicate LowestFit(rs: seq<Region>, d: Desc, q: Request, got: Option<Region>)
    requires q.align > 0
  {
    match got
    case None => forall p: nat :: !Suits(rs, d, q.size, q.align, p)
    case Some(r) =>
      && Suits(rs, d, q.size, q.align, r.offset)
      && forall p: nat | Suits(rs, d, q.size, q.align, p) :: r.offset <= p
  }

  predicate Aligned(rs: seq<Region>, d: Desc, q: Request, p: nat)
    requires q.align > 0
  {
    (d.paddr + p) % q.align == 0 && Room(rs, d, q.size, p)
  }

  /** The same through `Room`. */
  ghost predicate LowestRoom(rs: seq<Region>, d: Desc, q: Request, got: Option<Region>)
    requires q.align > 0
  {
    match got
    case None => forall p: nat :: !Aligned(rs, d, q, p)
    case Some(r) => Aligned(rs, d, q, r.offset) && forall p: nat | Aligned(rs, d, q, p) :: r.offset <= p
  }

  /** A free head that fits gives the lowest block. */
  lemma {:induction false} LowestHere(rs: seq<Region>, d: Desc, q: Request)
    requires Ok(rs, d) && rs != [] && !rs[0].used && (|rs| == 1 || rs[1].used) && q.align > 0 && Fits(rs, d, q)
    ensures LowestRoom(rs, d, q, Carve(rs, d, q).got)
  {
    assert DropFree(rs) == DropFree(rs[1..]) == rs[1..];
    forall p: nat | Aligned(rs, d, q, p)
      ensures p >= rs[0].offset + Pad(d.paddr + rs[0].offset, q.align)
    {
      RoomInside(rs, d, q.size, p);
      PadLeast(d.paddr + rs[0].offset, d.paddr + p, q.align);
    }
  }

  /** A free head that does not fit holds no aligned block. */
  lemma {:induction false} NotHere(rs: seq<Region>, d: Desc, q: Request, p: nat)
    requires Ok(rs, d) && rs != [] && !rs[0].used && (|rs| == 1 || rs[1].used) && q.align > 0 && !Fits(rs, d, q)
    ensures Aligned(rs, d, q, p) <==> Aligned(rs[1..], d, q, p)
  {
    assert DropFree(rs) == DropFree(rs[1..]) == rs[1..];
    if (d.paddr + p) % q.align == 0 && HeadHolds(rs, d, q.size, p) {
      PadLeast(d.paddr + rs[0].offset, d.paddr + p, q.align);
    }
  }

  lemma {:induction false} LowestSame(rs: seq<Region>, r2: seq<Region>, d: Desc, q: Request, got: Option<Region>)
    requires q.align > 0 && LowestRoom(rs, d, q, got)
    requires forall p: nat :: Aligned(rs, d, q, p) <==> Aligned(r2, d, q, p)
    ensures LowestRoom(r2, d, q, got)
  {
  }

  lemma {:induction false} ScanLowest(rs: seq<Region>, d: Desc, q: Request)
    requires Ok(rs, d) && q.align > 0
    ensures LowestRoom(rs, d, q, Scan(rs, d, q).got)
    decreases |rs|
  {
    if rs == [] {
    } else if rs[0].used {
      ScanLowest(rs[1..], d, q);
      LowestSame(rs[1..], rs, d, q, Scan(rs[1..], d, q).got);
    } else {
      var c := Compact(rs);
      CompactKeeps(rs, d);
      if Fits(c, d, q) {
        LowestHere(c, d, q);
      } else {
        ScanLowest(c[1..], d, q);
        forall p: nat ensures Aligned(c, d, q, p) <==> Aligned(c[1..], d, q, p) { NotHere(c, d, q, p); }
        LowestSame(c[1..], c, d, q, Scan(c[1..], d, q).got);
      }
      forall p: nat ensures Aligned(c, d, q, p) <==> Aligned(rs, d, q, p) { CompactRoom(rs, d, q.size, p); }
      LowestSame(c, rs, d, q, Scan(rs, d, q).got);
    }
  }

  /** dma_memd_alloc returns the lowest aligned block that lies in a run of adjacent free regions, and nothing
      exactly when no run holds one, although it merges regions only as it goes. */
  lemma {:induction false} ScanIsFirstFit(rs: seq<Region>, d: Desc, q: Request)
    requires Ok(rs, d) && q.align > 0
    ensures LowestFit(rs, d, q, Scan(rs, d, q).got)
  {
    ScanLowest(rs, d, q);
    forall p: nat ensures Suits(rs, d, q.size, q.align, p) <==> Aligned(rs, d, q, p) {
      SuitsIsRoom(rs, d, q.size, q.align, p);
    }
  }

  // ----- the same in bytes

  /** Byte `b` of the node belongs to a free region. */
  predicate FreeByte(rs: seq<Region>, d: Desc, b: nat) {
    rs != [] && ((!rs[0].used && rs[0].offset <= b < Start(rs[1..], d)) || FreeByte(rs[1..], d, b))
  }

  /** `size` free bytes start at `p`. */
  predicate FreeBlock(rs: seq<Region>, d: Desc, size: nat, p: nat) { forall b | p <= b < p + size :: FreeByte(rs, d, b) }

  /** No holder asked for zero bytes. */
  predicate NonEmpty(rs: seq<Region>) { forall x | x in Live(rs) :: x.size > 0 }

  lemma {:induction false} FreeByteInside(rs: seq<Region>, d: Desc, b: nat)
    requires Ok(rs, d) && FreeByte(rs, d, b)
    ensures Start(rs, d) <= b < d.size
  {
    StartInside(rs[1..], d);
    if FreeByte(rs[1..], d, b) {
      FreeByteInside(rs[1..], d, b);
    }
  }

  /** Merging moves no byte between free and used. */
  lemma {:induction false} DropFreeBytes(rs: seq<Region>, d: Desc, b: nat)
    requires Ok(rs, d)
    ensures FreeByte(rs, d, b) <==> Start(rs, d) <= b < Start(DropFree(rs), d) || FreeByte(DropFree(rs), d, b)
  {
    if rs != [] && !rs[0].used {
      DropFreeBytes(rs[1..], d, b);
      DropFreeKeeps(rs[1..], d);
    }
  }

  /** The byte where a used region begins is not free. */
  lemma {:induction false} UsedByte(rs: seq<Region>, d: Desc)
    requires Ok(rs, d) && NonEmpty(rs) && (rs == [] || rs[0].used)
    ensures !FreeByte(rs, d, Start(rs, d))
  {
    if rs != [] {
      assert rs[0] in Live(rs);
      if FreeByte(rs[1..], d, rs[0].offset) {
        FreeByteInside(rs[1..], d, rs[0].offset);
      }
    }
  }

  lemma {:induction false} FreeHeadBytes(rs: seq<Region>, d: Desc, size: nat, p: nat)
    requires Ok(rs, d) && NonEmpty(rs) && rs != [] && !rs[0].used && size > 0
    ensures FreeBlock(rs, d, size, p) <==> HeadHolds(rs, d, size, p) || FreeBlock(DropFree(rs), d, size, p)
  {
    var rest := DropFree(rs);
    var e := Start(rest, d);
    DropFreeKeeps(rs, d);
    UsedByte(rest, d);
    forall b: nat ensures FreeByte(rs, d, b) <==> rs[0].offset <= b < e || FreeByte(rest, d, b) { DropFreeBytes(rs, d, b); }
    assert !FreeByte(rs, d, e);
    if FreeBlock(rs, d, size, p) {
      assert FreeByte(rs, d, p);
      if FreeByte(rest, d, p) {
        FreeByteInside(rest, d, p);
        forall b | p <= b < p + size ensures FreeByte(rest, d, b) { assert FreeByte(rs, d, b); }
      }
    }
  }

  /** If no holder is empty, a block lies in a run of free regions exactly when all its bytes are free. */
  lemma {:induction false} RoomIsFree(rs: seq<Region>, d: Desc, size: nat, p: nat)
    requires Ok(rs, d) && NonEmpty(rs) && size > 0
    ensures Room(rs, d, size, p) <==> FreeBlock(rs, d, size, p)
    decreases |rs|
  {
    if rs == [] {
      assert !FreeByte(rs, d, p);
    } else if rs[0].used {
      RoomIsFree(rs[1..], d, size, p);
      assert DropFree(rs) == rs;
      assert forall b :: FreeByte(rs, d, b) <==> FreeByte(rs[1..], d, b);
    } else {
      DropFreeKeeps(rs, d);
      DropFreeIs(rs);
      RoomIsFree(DropFree(rs), d, size, p);
      RoomDrop(rs, d, size, p);
      FreeHeadBytes(rs, d, size, p);
    }
  }

  /** So the scan fails exactly when no aligned block of wholly free bytes is left. */
  lemma {:induction false} ScanFailsIffNoBytes(rs: seq<Region>, d: Desc, q: Request)
    requires Ok(rs, d) && NonEmpty(rs) && q.align > 0 && q.size > 0
    ensures Scan(rs, d, q).got.None? <==> forall p: nat | (d.paddr + p) % q.align == 0 :: !FreeBlock(rs, d, q.size, p)
  {
    ScanLowest(rs, d, q);
    forall p: nat ensures Room(rs, d, q.size, p) <==> FreeBlock(rs, d, q.size, p) { RoomIsFree(rs, d, q.size, p); }
    var got := Scan(rs, d, q).got;
    if got.None? {
      forall p: nat | (d.paddr + p) % q.align == 0 ensures !FreeBlock(rs, d, q.size, p) {
        assert !Aligned(rs, d, q, p);
      }
    } else {
      assert Aligned(rs, d, q, got.value.offset);
    }
  }

  /** A zero-byte holder splits a block of free bytes in two runs. */
  lemma {:induction false} EmptyHolderSplits()
    ensures var d := Desc(0, 0, 128);
            var rs := [Region(0, 0, false, 0, 0), Region(1, 64, true, 0, 32), Region(2, 64, false, 0, 0)];
            var q := Request(96, 32, true, 3);
            Ok(rs, d) && FreeBlock(rs, d, 96, 0) && Scan(rs, d, q).got.None?
  {
    var d := Desc(0, 0, 128);
    var rs := [Region(0, 0, false, 0, 0), Region(1, 64, true, 0, 32), Region(2, 64, false, 0, 0)];
    var q := Request(96, 32, true, 3);
    assert rs[1..] == [rs[1], rs[2]] && rs[1..][1..] == [rs[2]] && [rs[2]][1..] == [];
    forall b | 0 <= b < 96 ensures FreeByte(rs, d, b) {
      assert FreeByte([rs[2]], d, b) || b < 64;
    }
  }
}
