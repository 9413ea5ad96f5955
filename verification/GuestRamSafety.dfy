/** What sorting, merging and splitting keep: the map the list stands for, in its one canonical form. */
module GuestRamSafety {
  import opened GuestRamModel

  // ----- the map and the canonical form

  /** Address `a` is in a region with this allocation flag. */
  ghost predicate Has(rs: seq<Region>, a: nat, used: bool) {
    exists r :: r in rs && Covers(r, a) && r.used == used
  }

  ghost predicate SameMap(rs: seq<Region>, r2: seq<Region>) {
    forall a, used :: Has(rs, a, used) <==> Has(r2, a, used)
  }

  predicate Apart(r: Region, x: Region) { End(r) <= x.start || End(x) <= r.start }

  /** Regions in any order: not empty and disjoint. */
  predicate Scattered(rs: seq<Region>) {
    && (forall i | 0 <= i < |rs| :: rs[i].size > 0)
    && (forall i, j | 0 <= i < j < |rs| :: Apart(rs[i], rs[j]))
  }

  /** Not empty, ascending and disjoint. */
  predicate Chain(rs: seq<Region>) {
    rs == [] || (rs[0].size > 0 && (|rs| > 1 ==> End(rs[0]) <= rs[1].start) && Chain(rs[1..]))
  }

  /** No neighbours are left that could be one region. */
  predicate Maximal(rs: seq<Region>) {
    |rs| < 2 || (!Joins(rs[0], rs[1]) && Maximal(rs[1..]))
  }

  predicate Canonical(rs: seq<Region>) { Chain(rs) && Maximal(rs) }

  lemma {:induction false} ChainBounds(rs: seq<Region>)
    requires Chain(rs)
    ensures forall i, j | 0 <= i < j < |rs| :: End(rs[i]) <= rs[j].start
    ensures forall i | 0 <= i < |rs| :: rs[i].size > 0
    ensures Scattered(rs)
  {
    if rs != [] {
      ChainBounds(rs[1..]);
      forall j | 0 < j < |rs| ensures End(rs[0]) <= rs[j].start && rs[j].size > 0 {
        assert rs[j] == rs[1..][j - 1];
        if j > 1 {
          assert End(rs[1..][0]) <= rs[1..][j - 1].start;
        }
      }
      forall i, j | 0 < i < j < |rs| ensures End(rs[i]) <= rs[j].start {
        assert End(rs[1..][i - 1]) <= rs[1..][j - 1].start;
      }
    }
  }

  lemma {:induction false} Cons(x: Region, rs: seq<Region>)
    ensures ([x] + rs)[1..] == rs && ([x] + rs)[0] == x
  {
  }

  lemma {:induction false} FirstIn(rs: seq<Region>)
    requires rs != []
    ensures rs[0] in rs
  {
  }

  // ----- sorting

  lemma {:induction false} InsertMembers(r: Region, rs: seq<Region>)
    ensures forall x :: x in Insert(r, rs) <==> x == r || x in rs
    ensures Insert(r, rs) != [] && (Insert(r, rs)[0] == r || (rs != [] && Insert(r, rs)[0] == rs[0]))
  {
    if rs != [] && Cmp(r.start, rs[0].start) > 0 {
      InsertMembers(r, rs[1..]);
      assert rs == [rs[0]] + rs[1..];
    }
  }

  lemma {:induction false} SortMembers(rs: seq<Region>)
    ensures forall x :: x in Sort(rs) <==> x in rs
  {
    if rs != [] {
      SortMembers(rs[1..]);
      InsertMembers(rs[0], Sort(rs[1..]));
      assert rs == [rs[0]] + rs[1..];
    }
  }

  predicate Fits(r: Region, rs: seq<Region>) {
    r.size > 0 && forall x | x in rs :: Apart(r, x) && Comparable(r, x)
  }

  lemma {:induction false} CmpOrders(r: Region, x: Region)
    requires Comparable(r, x)
    ensures Cmp(r.start, x.start) <= 0 <==> r.start <= x.start
  {
  }

  lemma {:induction false} InsertChain(r: Region, rs: seq<Region>)
    requires Chain(rs) && Fits(r, rs)
    ensures Chain(Insert(r, rs))
  {
    if rs == [] {
    } else {
      assert rs[0] in rs;
      CmpOrders(r, rs[0]);
      if Cmp(r.start, rs[0].start) <= 0 {
        Cons(r, rs);
      } else {
        assert forall x | x in rs[1..] :: x in rs;
        InsertChain(r, rs[1..]);
        InsertMembers(r, rs[1..]);
        Cons(rs[0], Insert(r, rs[1..]));
      }
    }
  }

  /** Sorting disjoint regions gives an ascending chain of the same regions. */
  lemma {:induction false} SortChain(rs: seq<Region>)
    requires Scattered(rs) && AllComparable(rs)
    ensures Chain(Sort(rs))
  {
    if rs != [] {
      SortChain(rs[1..]);
      SortMembers(rs[1..]);
      forall x | x in Sort(rs[1..]) ensures Apart(rs[0], x) && Comparable(rs[0], x) {
        var i :| 0 <= i < |rs[1..]| && rs[1..][i] == x;
        assert rs[i + 1] == x;
      }
      InsertChain(rs[0], Sort(rs[1..]));
    }
  }

  lemma {:induction false} HeadOnce(rs: seq<Region>)
    requires Chain(rs) && rs != []
    ensures forall x | x in rs[1..] :: x.start > rs[0].start
    ensures forall x :: x in rs[1..] <==> x in rs && x != rs[0]
  {
    ChainBounds(rs);
    assert rs == [rs[0]] + rs[1..];
    forall x | x in rs[1..] ensures x.start > rs[0].start {
      var k :| 0 <= k < |rs[1..]| && rs[1..][k] == x;
      assert rs[k + 1] == x;
    }
  }

  /** Any ascending list of the same regions is the same list, so it does not matter how it was sorted. */
  lemma {:induction false} SortedUnique(rs: seq<Region>, r2: seq<Region>)
    requires Chain(rs) && Chain(r2) && forall x :: x in rs <==> x in r2
    ensures rs == r2
  {
    if rs == [] {
      if r2 != [] {
        FirstIn(r2);
      }
    } else {
      assert rs[0] in rs;
      assert r2 != [] && r2[0] in r2;
      HeadOnce(rs);
      HeadOnce(r2);
      assert rs[0] == r2[0];
      SortedUnique(rs[1..], r2[1..]);
    }
  }

  // ----- merging

  lemma {:induction false} HasCons(x: Region, rs: seq<Region>, a: nat, used: bool)
    ensures Has([x] + rs, a, used) <==> (Covers(x, a) && x.used == used) || Has(rs, a, used)
  {
    if Has([x] + rs, a, used) {
      var r :| r in [x] + rs && Covers(r, a) && r.used == used;
      assert r == x || r in rs;
    }
    if Has(rs, a, used) {
      var r :| r in rs && Covers(r, a) && r.used == used;
      assert r in [x] + rs;
    }
    if Covers(x, a) && x.used == used {
      assert x in [x] + rs;
    }
  }

  /** Merging keeps every byte's status and the head's place, and leaves nothing to merge. */
  lemma {:induction false} CollapseKeeps(rs: seq<Region>)
    requires Chain(rs)
    ensures Canonical(Collapse(rs))
    ensures rs != [] ==> Collapse(rs) != [] && Collapse(rs)[0].start == rs[0].start && Collapse(rs)[0].used == rs[0].used
    decreases |rs|
  {
    if |rs| < 2 {
    } else if Joins(rs[0], rs[1]) {
      var j := Join(rs[0], rs[1]);
      Cons(j, rs[2..]);
      assert rs[1..][1..] == rs[2..];
      CollapseKeeps([j] + rs[2..]);
    } else {
      CollapseKeeps(rs[1..]);
      Cons(rs[0], Collapse(rs[1..]));
    }
  }

  lemma {:induction false} CollapseMap(rs: seq<Region>, a: nat, used: bool)
    ensures Has(Collapse(rs), a, used) <==> Has(rs, a, used)
    decreases |rs|
  {
    if |rs| < 2 {
    } else if Joins(rs[0], rs[1]) {
      var j := Join(rs[0], rs[1]);
      CollapseMap([j] + rs[2..], a, used);
      HasCons(j, rs[2..], a, used);
      HasCons(rs[1], rs[2..], a, used);
      HasCons(rs[0], rs[1..], a, used);
      assert rs == [rs[0]] + rs[1..] && rs[1..] == [rs[1]] + rs[2..];
    } else {
      CollapseMap(rs[1..], a, used);
      HasCons(rs[0], rs[1..], a, used);
      HasCons(rs[0], Collapse(rs[1..]), a, used);
      assert rs == [rs[0]] + rs[1..];
    }
  }

  /** Sorting and merging a scattered list gives the canonical list of the same map. */
  lemma {:induction false} Normalised(rs: seq<Region>)
    requires Scattered(rs) && AllComparable(rs)
    ensures Canonical(Collapse(Sort(rs))) && SameMap(Collapse(Sort(rs)), rs)
  {
    SortChain(rs);
    CollapseKeeps(Sort(rs));
    SortMembers(rs);
    forall a, used ensures Has(Collapse(Sort(rs)), a, used) <==> Has(rs, a, used) {
      CollapseMap(Sort(rs), a, used);
    }
  }

  // ----- the canonical list is determined by the map

  /** Below the end of the first region there is only the first region. */
  lemma {:induction false} TailBehind(rs: seq<Region>, a: nat, used: bool)
    requires Chain(rs) && rs != [] && Has(rs[1..], a, used)
    ensures a >= End(rs[0])
  {
    ChainBounds(rs);
    var r :| r in rs[1..] && Covers(r, a) && r.used == used;
    var k :| 0 <= k < |rs[1..]| && rs[1..][k] == r;
    assert rs[k + 1] == r;
  }

  lemma {:induction false} HeadOnly(rs: seq<Region>, a: nat, used: bool)
    requires Chain(rs) && rs != []
    ensures Has(rs, a, used) && a < End(rs[0]) <==> Covers(rs[0], a) && used == rs[0].used
    ensures Has(rs[1..], a, used) <==> Has(rs, a, used) && a >= End(rs[0])
  {
    HasCons(rs[0], rs[1..], a, used);
    assert rs == [rs[0]] + rs[1..];
    if Has(rs[1..], a, used) {
      TailBehind(rs, a, used);
    }
  }

  lemma {:induction false} HeadStart(rs: seq<Region>)
    requires Chain(rs) && rs != []
    ensures Has(rs, rs[0].start, rs[0].used)
    ensures forall a: nat, used | Has(rs, a, used) :: a >= rs[0].start
  {
    HeadOnly(rs, rs[0].start, rs[0].used);
    forall a: nat, used | Has(rs, a, used) ensures a >= rs[0].start { HeadOnly(rs, a, used); }
  }

  /** The byte behind the first region of a maximally merged list has another status. */
  lemma {:induction false} HeadEnds(rs: seq<Region>)
    requires Canonical(rs) && rs != []
    ensures !Has(rs, End(rs[0]), rs[0].used)
  {
    var e, used := End(rs[0]), rs[0].used;
    HeadOnly(rs, e, used);
    if Has(rs, e, used) {
      HeadStart(rs[1..]);
      HeadOnly(rs[1..], e, used);
    }
  }

  lemma {:induction false} HeadSame(rs: seq<Region>, r2: seq<Region>)
    requires Canonical(rs) && Canonical(r2) && SameMap(rs, r2) && rs != [] && r2 != []
    ensures End(rs[0]) >= End(r2[0]) && rs[0].start == r2[0].start && rs[0].used == r2[0].used
  {
    HeadStart(rs);
    HeadStart(r2);
    assert Has(r2, rs[0].start, rs[0].used) && Has(rs, r2[0].start, r2[0].used);
    HeadOnly(rs, rs[0].start, r2[0].used);
    HeadEnds(rs);
    HeadOnly(r2, End(rs[0]), rs[0].used);
  }

  /** Two canonical lists with the same map are equal: the list holds no information but the map. */
  lemma {:induction false} CanonicalUnique(rs: seq<Region>, r2: seq<Region>)
    requires Canonical(rs) && Canonical(r2) && SameMap(rs, r2)
    ensures rs == r2
    decreases |rs|
  {
    if rs == [] {
      if r2 != [] {
        HeadStart(r2);
      }
    } else {
      HeadStart(rs);
      assert Has(r2, rs[0].start, rs[0].used);
      HeadSame(rs, r2);
      HeadSame(r2, rs);
      forall a, used ensures Has(rs[1..], a, used) <==> Has(r2[1..], a, used) {
        HeadOnly(rs, a, used);
        HeadOnly(r2, a, used);
      }
      CanonicalUnique(rs[1..], r2[1..]);
    }
  }
}
