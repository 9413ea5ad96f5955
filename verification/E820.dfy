/** The e820 memory map handed to an x86 guest, built from the guest RAM list. */
module E820 {
  import opened Common
  import opened GuestRamModel
  import opened GuestRamSafety

  datatype Entry = Entry(addr: nat, size: nat, ram: bool)

  const E820_MAX: nat := 128
  const FOUR_GIB: nat := 0x1_0000_0000

  function Bound(e: Entry): nat { e.addr + e.size }

  function Last(es: seq<Entry>): Entry
    requires es != []
  {
    es[|es| - 1]
  }

  function WithLast(es: seq<Entry>, e: Entry): seq<Entry>
    requires es != []
  {
    es[|es| - 1 := e]
  }

  // ----- the construction

  /** The reserved entry that fills the hole before a region, the current entry being finished unless it
      is still empty. */
  function Pad(es: seq<Entry>, start: nat): seq<Entry>
    requires es != []
  {
    var e1 := if Last(es).size != 0 then es + [Entry(Bound(Last(es)), 0, false)] else es;
    WithLast(e1, Last(e1).(size := if start >= Last(e1).addr then start - Last(e1).addr else 0))
  }

  /** One turn of the loop of make_guest_e820_map. */
  function AddRegion(es: seq<Entry>, r: Region): seq<Entry>
    requires es != []
  {
    if Bound(Last(es)) != r.start then Pad(es, r.start) + [Entry(r.start, r.size, true)]
    else WithLast(es, Last(es).(size := Last(es).size + r.size))
  }

  function Entries(rs: seq<Region>): (es: seq<Entry>)
    ensures es != []
    decreases |rs|
  {
    if rs == [] then [Entry(0, 0, false)] else AddRegion(Entries(rs[..|rs| - 1]), rs[|rs| - 1])
  }

  /** make_guest_e820_map; `None` when one of its assertions fails. */
  function Map(rs: seq<Region>): Option<seq<Entry>> {
    var es := Entries(rs);
    var b := Bound(Last(es));
    if rs == [] || b >= FOUR_GIB || |es| + 1 > E820_MAX then None
    else Some(es + [Entry(b, FOUR_GIB - b, false)])
  }

  // ----- what the map should be

  predicate In(e: Entry, a: nat) { e.addr <= a < Bound(e) }

  ghost predicate Typed(es: seq<Entry>, a: nat, ram: bool) {
    exists i :: 0 <= i < |es| && In(es[i], a) && es[i].ram == ram
  }

  ghost predicate IsRam(rs: seq<Region>, a: nat) { exists r :: r in rs && Covers(r, a) }

  /** Entries from 0 on, none empty, each beginning where the one before ends. */
  predicate Tiles(es: seq<Entry>, to: nat) {
    && es != [] && es[0].addr == 0 && Bound(Last(es)) == to
    && (forall i | 0 <= i < |es| :: es[i].size > 0)
    && (forall i | 0 < i < |es| :: es[i].addr == Bound(es[i - 1]))
  }

  /** The number of stretches of adjacent regions. */
  function Stretches(rs: seq<Region>): nat
    decreases |rs|
  {
    if rs == [] then 0
    else if |rs| > 1 && End(rs[|rs| - 2]) == rs[|rs| - 1].start then Stretches(rs[..|rs| - 1])
    else Stretches(rs[..|rs| - 1]) + 1
  }

  // ----- proofs

  lemma {:induction false} ChainPrefix(rs: seq<Region>, n: nat)
    requires Chain(rs) && n <= |rs|
    ensures Chain(rs[..n])
    decreases |rs|
  {
    if n > 0 {
      ChainPrefix(rs[1..], n - 1);
      assert rs[..n][1..] == rs[1..][..n - 1];
    }
  }

  lemma {:induction false} TypedAppend(es: seq<Entry>, e: Entry, a: nat, ram: bool)
    ensures Typed(es + [e], a, ram) <==> Typed(es, a, ram) || (In(e, a) && e.ram == ram)
  {
    var t := es + [e];
    if Typed(es, a, ram) {
      var i :| 0 <= i < |es| && In(es[i], a) && es[i].ram == ram;
      assert t[i] == es[i];
    }
    if In(e, a) && e.ram == ram {
      assert t[|es|] == e;
    }
  }

  lemma {:induction false} TypedLast(es: seq<Entry>, e: Entry, a: nat, ram: bool)
    requires es != []
    ensures Typed(WithLast(es, e), a, ram) <==> Typed(es[..|es| - 1], a, ram) || (In(e, a) && e.ram == ram)
  {
    assert WithLast(es, e) == es[..|es| - 1] + [e];
    TypedAppend(es[..|es| - 1], e, a, ram);
  }

  /** After the regions `rs`, the first not at 0: the entries tile up to the end of the last region,
      the current one being RAM, and RAM is what the regions cover. */
  ghost predicate Faithful(rs: seq<Region>, es: seq<Entry>) {
    && rs != [] && Tiles(es, End(rs[|rs| - 1])) && Last(es).ram && |es| == 2 * Stretches(rs)
    && forall a: nat :: Typed(es, a, true) <==> IsRam(rs, a)
  }

  lemma {:induction false} IsRamAppend(rs: seq<Region>, r: Region, a: nat)
    ensures IsRam(rs + [r], a) <==> IsRam(rs, a) || Covers(r, a)
  {
    if IsRam(rs, a) {
      var x :| x in rs && Covers(x, a);
      assert x in rs + [r];
    }
    if Covers(r, a) {
      assert r in rs + [r];
    }
  }

  lemma {:induction false} ExtendKeeps(rs: seq<Region>, es: seq<Entry>, r: Region)
    requires Faithful(rs, es) && r.size > 0 && End(rs[|rs| - 1]) == r.start
    ensures Faithful(rs + [r], AddRegion(es, r))
  {
    var e := Last(es).(size := Last(es).size + r.size);
    assert AddRegion(es, r) == WithLast(es, e);
    assert (rs + [r])[..|rs|] == rs;
    assert es == es[..|es| - 1] + [Last(es)];
    forall a: nat ensures Typed(AddRegion(es, r), a, true) <==> IsRam(rs + [r], a) {
      TypedLast(es, e, a, true);
      TypedAppend(es[..|es| - 1], Last(es), a, true);
      IsRamAppend(rs, r, a);
    }
  }

  lemma {:induction false} OpenKeeps(rs: seq<Region>, es: seq<Entry>, r: Region)
    requires Faithful(rs, es) && r.size > 0 && End(rs[|rs| - 1]) < r.start
    ensures Faithful(rs + [r], AddRegion(es, r))
  {
    var hole := Entry(Bound(Last(es)), r.start - Bound(Last(es)), false);
    assert Pad(es, r.start) == es + [hole];
    assert AddRegion(es, r) == es + [hole] + [Entry(r.start, r.size, true)];
    assert (rs + [r])[..|rs|] == rs;
    forall a: nat ensures Typed(AddRegion(es, r), a, true) <==> IsRam(rs + [r], a) {
      TypedAppend(es + [hole], Entry(r.start, r.size, true), a, true);
      TypedAppend(es, hole, a, true);
      IsRamAppend(rs, r, a);
    }
  }

  lemma {:induction false} FirstKeeps(r: Region)
    requires r.start > 0 && r.size > 0
    ensures Entries([r]) == [Entry(0, r.start, false), Entry(r.start, r.size, true)]
    ensures Faithful([r], Entries([r]))
  {
    var es := [Entry(0, 0, false)];
    assert [r][..0] == [];
    assert Pad(es, r.start) == [Entry(0, r.start, false)];
    assert Entries([r]) == AddRegion(es, r);
    forall a: nat ensures Typed(Entries([r]), a, true) <==> IsRam([r], a) {
      TypedAppend([Entry(0, r.start, false)], Entry(r.start, r.size, true), a, true);
      IsRamAppend([], r, a);
      assert [] + [r] == [r];
    }
    assert Stretches([r]) == 1;
  }

  lemma {:induction false} EntriesFaithful(rs: seq<Region>)
    requires Chain(rs) && rs != [] && rs[0].start > 0
    ensures Faithful(rs, Entries(rs))
    decreases |rs|
  {
    var n := |rs| - 1;
    var before, r := rs[..n], rs[n];
    ChainBounds(rs);
    if n == 0 {
      assert rs == [r];
      FirstKeeps(r);
    } else {
      ChainPrefix(rs, n);
      EntriesFaithful(before);
      assert rs == before + [r] && before[n - 1] == rs[n - 1];
      if End(rs[n - 1]) == r.start {
        ExtendKeeps(before, Entries(before), r);
      } else {
        OpenKeeps(before, Entries(before), r);
      }
    }
  }

  /** For a sorted, disjoint list that does not start at 0, the map exists exactly when RAM ends below
      4 GiB and the entries fit, and then tiles the 4 GiB with RAM exactly where the regions are, in
      2k + 1 entries for k stretches of RAM. */
  lemma {:induction false} MapFaithful(rs: seq<Region>)
    requires Chain(rs) && rs != [] && rs[0].start > 0
    ensures Map(rs).Some? <==> End(rs[|rs| - 1]) < FOUR_GIB && 2 * Stretches(rs) + 1 <= E820_MAX
    ensures Map(rs).Some? ==>
              && Tiles(Map(rs).value, FOUR_GIB) && |Map(rs).value| == 2 * Stretches(rs) + 1
              && forall a: nat :: Typed(Map(rs).value, a, true) <==> IsRam(rs, a)
  {
    EntriesFaithful(rs);
    if Map(rs).Some? {
      var es := Entries(rs);
      var e := Entry(Bound(Last(es)), FOUR_GIB - Bound(Last(es)), false);
      forall a: nat ensures Typed(Map(rs).value, a, true) <==> IsRam(rs, a) { TypedAppend(es, e, a, true); }
    }
  }

  /** In a tiling every address below the end is in exactly one entry. */
  lemma {:induction false} TileOf(es: seq<Entry>, to: nat, a: nat) returns (i: nat)
    requires Tiles(es, to) && a < to
    ensures i < |es| && In(es[i], a) && forall j | 0 <= j < |es| && In(es[j], a) :: j == i
    decreases |es|
  {
    var n := |es| - 1;
    TilesAscend(es, to);
    if a >= es[n].addr {
      i := n;
    } else {
      assert Tiles(es[..n], es[n].addr);
      i := TileOf(es[..n], es[n].addr, a);
      forall j | 0 <= j < |es| && In(es[j], a) ensures j == i { assert j < n ==> es[..n][j] == es[j]; }
    }
  }

  lemma {:induction false} TilesAscend(es: seq<Entry>, to: nat)
    requires Tiles(es, to)
    ensures forall j | 0 <= j < |es| - 1 :: Bound(es[j]) <= es[|es| - 1].addr
    decreases |es|
  {
    var n := |es| - 1;
    if n > 0 {
      assert Tiles(es[..n], es[n].addr);
      TilesAscend(es[..n], es[n].addr);
      forall j | 0 <= j < n ensures Bound(es[j]) <= es[n].addr { assert es[..n][j] == es[j]; }
    }
  }

  // ----- RAM at address 0

  lemma {:induction false} ZeroReserved(rs: seq<Region>)
    requires Chain(rs) && rs != [] && rs[0].start == 0
    ensures var e := Entries(rs)[0]; e.addr == 0 && !e.ram && e.size > 0
    decreases |rs|
  {
    var n := |rs| - 1;
    ChainBounds(rs);
    assert rs[..0] == [];
    if n > 0 {
      ChainPrefix(rs, n);
      ZeroReserved(rs[..n]);
    }
  }

  /** With RAM at address 0 the first stretch is reported as reserved: the map is right exactly when the
      first region does not start there. */
  lemma {:induction false} RightIffNotAtZero(rs: seq<Region>)
    requires Chain(rs) && rs != [] && Map(rs).Some?
    ensures (forall a: nat :: Typed(Map(rs).value, a, true) <==> IsRam(rs, a)) && Tiles(Map(rs).value, FOUR_GIB)
            <==> rs[0].start > 0
  {
    if rs[0].start > 0 {
      MapFaithful(rs);
    } else {
      ZeroReserved(rs);
      ChainBounds(rs);
      var es := Map(rs).value;
      assert rs[0] in rs && Covers(rs[0], 0) && IsRam(rs, 0);
      assert es[0] == Entries(rs)[0] && In(es[0], 0);
      if Tiles(es, FOUR_GIB) {
        var i := TileOf(es, FOUR_GIB, 0);
        assert i == 0;
        assert !Typed(es, 0, true);
      }
    }
  }

  // ----- the loop

  lemma {:induction false} AddRegionEnds(es: seq<Entry>, r: Region)
    requires es != []
    ensures AddRegion(es, r) != [] && Bound(Last(AddRegion(es, r))) == End(r)
  {
  }

  lemma {:induction false} EntriesBound(rs: seq<Region>)
    ensures Bound(Last(Entries(rs))) == if rs == [] then 0 else End(rs[|rs| - 1])
  {
    if rs != [] {
      AddRegionEnds(Entries(rs[..|rs| - 1]), rs[|rs| - 1]);
    }
  }

  lemma {:induction false} AddRegionGrows(es: seq<Entry>, r: Region)
    requires es != []
    ensures |AddRegion(es, r)| >= |es|
  {
  }

  lemma {:induction false} EntriesGrow(rs: seq<Region>, n: nat)
    requires n <= |rs|
    ensures |Entries(rs[..n])| <= |Entries(rs)|
    decreases |rs|
  {
    if n == |rs| {
      assert rs[..n] == rs;
    } else {
      var before := rs[..|rs| - 1];
      EntriesGrow(before, n);
      assert before[..n] == rs[..n];
      AddRegionGrows(Entries(before), rs[|rs| - 1]);
    }
  }

  /** The reserved entry before a region, in place. */
  method PadTo(e820: array<Entry>, entry: nat, start: nat) returns (next: nat)
    requires entry + 1 < e820.Length && Bound(e820[entry]) <= start
    modifies e820
    ensures next < e820.Length && e820[..next + 1] == Pad(old(e820[..entry + 1]), start)
  {
    next := entry;
    if e820[entry].size != 0 {
      next := entry + 1;
      e820[next] := Entry(Bound(e820[entry]), 0, false);
    }
    e820[next] := e820[next].(size := start - e820[next].addr);
  }

  /** One turn of the loop; an assertion fails when the entries do not fit. */
  method AddTo(e820: array<Entry>, entry: nat, r: Region) returns (next: nat, ok: bool)
    requires entry < e820.Length && Bound(e820[entry]) <= r.start
    modifies e820
    ensures ok ==> next < e820.Length && e820[..next + 1] == AddRegion(old(e820[..entry + 1]), r)
    ensures !ok ==> |AddRegion(old(e820[..entry + 1]), r)| > e820.Length
  {
    next, ok := entry, true;
    if Bound(e820[entry]) != r.start {
      if entry + 1 == e820.Length {
        return entry, false;
      }
      next := PadTo(e820, entry, r.start);
      if next + 1 == e820.Length {
        return next, false;
      }
      next := next + 1;
      e820[next] := Entry(r.start, r.size, true);
    } else {
      e820[entry] := e820[entry].(size := r.start - e820[entry].addr + r.size);
    }
  }

  /** The current entry ends where the last region did, so before the next one. */
  lemma {:induction false} BeforeTurn(rs: seq<Region>, i: nat)
    requires Chain(rs) && i < |rs|
    ensures Bound(Last(Entries(rs[..i]))) <= rs[i].start
  {
    ChainBounds(rs);
    ChainPrefix(rs, i);
    EntriesBound(rs[..i]);
    assert i > 0 ==> rs[..i][i - 1] == rs[i - 1];
  }

  lemma {:induction false} AfterTurn(rs: seq<Region>, i: nat)
    requires i < |rs|
    ensures Entries(rs[..i + 1]) == AddRegion(Entries(rs[..i]), rs[i]) && |Entries(rs[..i + 1])| <= |Entries(rs)|
  {
    EntriesGrow(rs, i + 1);
    var p := rs[..i + 1];
    assert p[..|p| - 1] == rs[..i] && p[|p| - 1] == rs[i];
  }

  /** The loop of make_guest_e820_map. */
  method Fill(e820: array<Entry>, rs: seq<Region>) returns (entry: nat, ok: bool)
    requires e820.Length > 0 && Chain(rs)
    modifies e820
    ensures ok ==> entry < e820.Length && e820[..entry + 1] == Entries(rs)
    ensures !ok ==> |Entries(rs)| > e820.Length
  {
    entry, ok := 0, true;
    e820[0] := Entry(0, 0, false);
    for i := 0 to |rs|
      invariant entry < e820.Length && e820[..entry + 1] == Entries(rs[..i])
    {
      BeforeTurn(rs, i);
      AfterTurn(rs, i);
      assert Last(e820[..entry + 1]) == e820[entry];
      entry, ok := AddTo(e820, entry, rs[i]);
      if !ok {
        return;
      }
    }
    ok := true;
    assert rs[..|rs|] == rs;
  }

  /** make_guest_e820_map in place; `count` is 0 when an assertion fails. */
  method MakeMap(e820: array<Entry>, rs: seq<Region>) returns (count: nat)
    requires e820.Length == E820_MAX && Chain(rs)
    modifies e820
    ensures match Map(rs) {
      case None => count == 0
      case Some(es) => 0 < count <= E820_MAX && e820[..count] == es
    }
  {
    var entry, ok := Fill(e820, rs);
    if !ok || |rs| == 0 || entry + 1 == E820_MAX || Bound(e820[entry]) >= FOUR_GIB {
      return 0;
    }
    var bound := Bound(e820[entry]);
    e820[entry + 1] := Entry(bound, FOUR_GIB - bound, false);
    return entry + 2;
  }
}
