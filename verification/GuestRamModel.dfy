/** The list of guest RAM regions on values: pushed, sorted, merged and split, it stands for a map from
    addresses to free or allocated. */
module GuestRamModel {
  import opened Arith
  import opened Common

  datatype Region = Region(start: nat, size: nat, used: bool)

  function End(r: Region): nat { r.start + r.size }

  predicate Covers(r: Region, a: nat) { r.start <= a < End(r) }

  /** is_subregion, on naturals. */
  predicate IsSubregion(start: nat, size: nat, sub: nat, subSize: nat): (b: bool)
    ensures b <==> start <= sub && sub + subSize <= start + size
  {
    sub >= start && subSize <= size && sub - start <= size - subSize
  }

  /** The same test with its subtractions done in words. */
  predicate IsSubregionWords(start: nat, size: nat, sub: nat, subSize: nat) {
    sub >= start && subSize <= size && (sub - start) % WORD <= (size - subSize) % WORD
  }

  /** On words it is containment, even of ranges that reach beyond the address space. */
  lemma {:induction false} SubregionInWords(start: nat, size: nat, sub: nat, subSize: nat)
    requires start < WORD && size < WORD && sub < WORD && subSize < WORD
    ensures IsSubregionWords(start, size, sub, subSize) <==> IsSubregion(start, size, sub, subSize)
  {
    if sub >= start && subSize <= size {
      DivUnique(sub - start, 0, sub - start, WORD);
      DivUnique(size - subSize, 0, size - subSize, WORD);
    }
  }

  // ----- the comparator

  const HALF: nat := 0x8000_0000
  const UINT_RANGE: nat := 0x1_0000_0000

  /** The difference of two addresses as the int that ram_region_cmp returns. */
  function Cmp(a: nat, b: nat): int {
    var m := (a - b) % UINT_RANGE;
    if m < HALF then m else m - UINT_RANGE
  }

  /** The comparator tells which of two addresses is the smaller. */
  predicate Exact(a: nat, b: nat) { (Cmp(a, b) < 0 <==> a < b) && (Cmp(a, b) == 0 <==> a == b) }

  /** It does exactly when their distance, modulo 2^32, is not zero unless they are equal and stays below
      2^31, or is 2^31 with the smaller address first. */
  lemma {:induction false} CmpExactIff(a: nat, b: nat)
    ensures Exact(a, b) <==>
            a == b || (a > b && 0 < (a - b) % UINT_RANGE < HALF) || (a < b && 0 < (b - a) % UINT_RANGE <= HALF)
  {
  }

  /** Two regions 2 GiB apart: each compares below the other. */
  lemma {:induction false} CmpInconsistent(a: nat)
    ensures Cmp(a, a + HALF) < 0 && Cmp(a + HALF, a) < 0
  {
  }

  /** The comparator orders any two regions of the list. */
  predicate Comparable(r: Region, x: Region) { Exact(r.start, x.start) && Exact(x.start, r.start) }

  predicate AllComparable(rs: seq<Region>) {
    forall i, j | 0 <= i < |rs| && 0 <= j < |rs| :: Comparable(rs[i], rs[j])
  }

  /** In particular if their starts are less than 2 GiB apart. */
  lemma {:induction false} NearComparable(r: Region, x: Region)
    requires r.start < x.start + HALF && x.start < r.start + HALF
    ensures Comparable(r, x)
  {
  }

  // ----- the list operations

  /** push_guest_ram_region: an empty region is refused. */
  function Push(rs: seq<Region>, start: nat, size: nat, used: bool): seq<Region> {
    if size == 0 then rs else rs + [Region(start, size, used)]
  }

  /** guest_ram_remove_region */
  function Remove(rs: seq<Region>, i: nat): seq<Region> { if i < |rs| then rs[..i] + rs[i + 1..] else rs }

  function Insert(r: Region, rs: seq<Region>): seq<Region>
    decreases |rs|
  {
    if rs == [] || Cmp(r.start, rs[0].start) <= 0 then [r] + rs else [rs[0]] + Insert(r, rs[1..])
  }

  /** qsort with ram_region_cmp. */
  function Sort(rs: seq<Region>): seq<Region>
    decreases |rs|
  {
    if rs == [] then [] else Insert(rs[0], Sort(rs[1..]))
  }

  predicate Joins(r: Region, x: Region) { r.used == x.used && End(r) == x.start }

  function Join(r: Region, x: Region): Region { r.(size := r.size + x.size) }

  /** collapse_guest_ram_regions */
  function Collapse(rs: seq<Region>): seq<Region>
    decreases |rs|
  {
    if |rs| < 2 then rs
    else if Joins(rs[0], rs[1]) then Collapse([Join(rs[0], rs[1])] + rs[2..])
    else [rs[0]] + Collapse(rs[1..])
  }

  // ----- the operations

  /** expand_guest_ram_region */
  function Expand(rs: seq<Region>, start: nat, size: nat): seq<Region> {
    if size == 0 then rs else Collapse(Sort(Push(rs, start, size, false)))
  }

  /** The first region containing the range, or the number of regions. */
  function FindSub(rs: seq<Region>, start: nat, bytes: nat): (i: nat)
    ensures i <= |rs|
    ensures i < |rs| ==> IsSubregion(rs[i].start, rs[i].size, start, bytes)
    ensures forall j | 0 <= j < i :: !IsSubregion(rs[j].start, rs[j].size, start, bytes)
    decreases |rs|
  {
    if rs == [] || IsSubregion(rs[0].start, rs[0].size, start, bytes) then 0 else 1 + FindSub(rs[1..], start, bytes)
  }

  /** The rest of the list and region `r` cut into what is before the range, the range and what is
      behind it. */
  function Pieces(rest: seq<Region>, r: Region, start: nat, bytes: nat): seq<Region>
    requires IsSubregion(r.start, r.size, start, bytes)
  {
    var p1 := Push(rest, r.start, start - r.start, false);
    var p2 := Push(p1, start, bytes, true);
    Push(p2, start + bytes, r.size - bytes - (start - r.start), false)
  }

  function Split(rs: seq<Region>, i: nat, start: nat, bytes: nat): seq<Region>
    requires i < |rs| && IsSubregion(rs[i].start, rs[i].size, start, bytes)
  {
    Pieces(Remove(rs, i), rs[i], start, bytes)
  }

  /** vm_ram_mark_allocated */
  function Mark(rs: seq<Region>, start: nat, bytes: nat): seq<Region> {
    var i := FindSub(rs, start, bytes);
    if i == |rs| || rs[i].used then rs else Collapse(Sort(Split(rs, i, start, bytes)))
  }

  /** The first free region of at least this size, or the number of regions. */
  function FindFree(rs: seq<Region>, bytes: nat): (i: nat)
    ensures i <= |rs|
    ensures i < |rs| ==> !rs[i].used && rs[i].size >= bytes
    ensures forall j | 0 <= j < i :: rs[j].used || rs[j].size < bytes
    decreases |rs|
  {
    if rs == [] || (!rs[0].used && rs[0].size >= bytes) then 0 else 1 + FindFree(rs[1..], bytes)
  }

  datatype Grant = Grant(regions: seq<Region>, addr: Option<nat>)

  /** vm_ram_allocate */
  function Allocate(rs: seq<Region>, bytes: nat): Grant {
    var i := FindFree(rs, bytes);
    if i == |rs| then Grant(rs, None) else Grant(Mark(rs, rs[i].start, bytes), Some(rs[i].start))
  }
}
