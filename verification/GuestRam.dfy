/** The guest RAM list in place: an array of regions that is grown, sorted, merged and split. */
module GuestRam {
  import opened Common
  import opened GuestRamModel

  /** Merging of `s` that is done with the regions before `i - 1`. */
  ghost predicate Collapsing(s: seq<Region>, i: nat, r: seq<Region>) {
    if s == [] then r == [] else 1 <= i <= |s| && r == s[..i - 1] + Collapse(s[i - 1..])
  }

  lemma {:induction false} CollapsingJoin(s: seq<Region>, i: nat, r: seq<Region>)
    requires 1 <= i < |s| && Collapsing(s, i, r) && Joins(s[i - 1], s[i])
    ensures Collapsing(Remove(s[i - 1 := Join(s[i - 1], s[i])], i), i, r)
  {
    var t := Remove(s[i - 1 := Join(s[i - 1], s[i])], i);
    assert s[i - 1..][2..] == s[i + 1..];
    assert t[i - 1..] == [Join(s[i - 1], s[i])] + s[i + 1..];
    assert t[..i - 1] == s[..i - 1];
  }

  lemma {:induction false} CollapsingKeep(s: seq<Region>, i: nat, r: seq<Region>)
    requires 1 <= i < |s| && Collapsing(s, i, r) && !Joins(s[i - 1], s[i])
    ensures Collapsing(s, i + 1, r)
  {
    assert s[i - 1..][1..] == s[i..];
    assert s[..i] == s[..i - 1] + [s[i - 1]];
  }

  class RamList {
    var regions: seq<Region>

    constructor ()
      ensures regions == []
    {
      regions := [];
    }

    /** push_guest_ram_region */
    method PushRegion(start: nat, size: nat, used: bool) returns (ok: bool)
      modifies this
      ensures ok == (size > 0) && regions == Push(old(regions), start, size, used)
    {
      ok := size > 0;
      if ok {
        regions := regions + [Region(start, size, used)];
      }
    }

    /** guest_ram_remove_region */
    method RemoveRegion(i: nat)
      modifies this
      ensures regions == Remove(old(regions), i)
    {
      if i < |regions| {
        regions := regions[..i] + regions[i + 1..];
      }
    }

    /** collapse_guest_ram_regions */
    method CollapseRegions()
      modifies this
      ensures regions == Collapse(old(regions))
    {
      ghost var r := Collapse(regions);
      var i := 1;
      assert regions[0..] == regions;
      while i < |regions|
        invariant i >= 1 && Collapsing(regions, i, r)
        decreases 2 * |regions| - i
      {
        if Joins(regions[i - 1], regions[i]) {
          CollapsingJoin(regions, i, r);
          regions := regions[i - 1 := Join(regions[i - 1], regions[i])];
          RemoveRegion(i);
        } else {
          CollapsingKeep(regions, i, r);
          i := i + 1;
        }
      }
    }

    /** qsort followed by merging */
    method Normalise()
      modifies this
      ensures regions == Collapse(Sort(old(regions)))
    {
      regions := Sort(regions);
      CollapseRegions();
    }

    /** expand_guest_ram_region */
    method ExpandBy(start: nat, size: nat) returns (ok: bool)
      modifies this
      ensures ok == (size > 0) && regions == Expand(old(regions), start, size)
    {
      ok := PushRegion(start, size, false);
      if ok {
        Normalise();
      }
    }

    /** The search of is_ram_region and vm_ram_mark_allocated. */
    method FindContaining(start: nat, bytes: nat) returns (i: nat)
      ensures i == FindSub(regions, start, bytes)
    {
      i := 0;
      while i < |regions| && !IsSubregion(regions[i].start, regions[i].size, start, bytes)
        invariant i <= |regions| && i + FindSub(regions[i..], start, bytes) == FindSub(regions, start, bytes)
        decreases |regions| - i
      {
        assert regions[i..][1..] == regions[i + 1..];
        i := i + 1;
      }
    }

    /** is_ram_region */
    method IsRam(start: nat, bytes: nat) returns (b: bool)
      ensures b <==> exists r :: r in regions && IsSubregion(r.start, r.size, start, bytes)
    {
      var i := FindContaining(start, bytes);
      b := i < |regions|;
      if b {
        assert regions[i] in regions;
      }
    }

    /** vm_ram_mark_allocated */
    method MarkAllocated(start: nat, bytes: nat)
      modifies this
      ensures regions == Mark(old(regions), start, bytes)
    {
      var i := FindContaining(start, bytes);
      if i < |regions| && !regions[i].used {
        var r := regions[i];
        RemoveRegion(i);
        var ok := PushRegion(r.start, start - r.start, false);
        ok := PushRegion(start, bytes, true);
        ok := PushRegion(start + bytes, r.size - bytes - (start - r.start), false);
        assert regions == Split(old(regions), i, start, bytes);
        Normalise();
      }
    }

    /** vm_ram_allocate */
    method AllocateBytes(bytes: nat) returns (addr: Option<nat>)
      modifies this
      ensures Grant(regions, addr) == Allocate(old(regions), bytes)
    {
      var i := 0;
      while i < |regions| && !(!regions[i].used && regions[i].size >= bytes)
        invariant i <= |regions| && i + FindFree(regions[i..], bytes) == FindFree(regions, bytes)
        decreases |regions| - i
      {
        assert regions[i..][1..] == regions[i + 1..];
        i := i + 1;
      }
      addr := None;
      if i < |regions| {
        addr := Some(regions[i].start);
        MarkAllocated(regions[i].start, bytes);
      }
    }

    /** vm_ram_find_largest_free_region */
    method LargestFree() returns (found: Option<Region>)
      ensures match found {
        case None => forall r | r in regions && !r.used :: r.size == 0
        case Some(f) => f in regions && !f.used && f.size > 0 && forall r | r in regions && !r.used :: r.size <= f.size
      }
    {
      var largest, size := -1, 0;
      for i := 0 to |regions|
        invariant -1 <= largest < i
        invariant largest == -1 ==> size == 0
        invariant largest >= 0 ==> !regions[largest].used && regions[largest].size == size > 0
        invariant forall k | 0 <= k < i && !regions[k].used :: regions[k].size <= size
      {
        if !regions[i].used && regions[i].size > size {
          largest, size := i, regions[i].size;
        }
      }
      found := if largest == -1 then None else Some(regions[largest]);
    }
  }
}
