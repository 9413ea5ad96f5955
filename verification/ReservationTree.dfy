/** Search trees of memory reservations ordered by an overlap comparator, of any shape. */
module ReservationTree {
  import opened Common

  /** A reserved range and the identity of what it stands for. */
  datatype Entry = Entry(addr: nat, size: nat, data: nat)

  function End(e: Entry): nat { e.addr + e.size }

  /** reservation_node_cmp */
  function Cmp(x: Entry, y: Entry): int {
    if x.addr < y.addr && y.addr - x.addr >= x.size then -1
    else if x.addr > y.addr && x.addr - y.addr >= y.size then 1
    else 0
  }

  predicate Overlap(x: Entry, y: Entry) { x.addr < End(y) && y.addr < End(x) }

  /** On ranges that are not empty the comparator finds overlap, is antisymmetric and puts the range that
      ends first first. */
  lemma {:induction false} CmpMeans(x: Entry, y: Entry)
    requires x.size > 0 && y.size > 0
    ensures Cmp(x, y) == 0 <==> Overlap(x, y)
    ensures Cmp(x, y) < 0 <==> End(x) <= y.addr
    ensures Cmp(x, y) == -Cmp(y, x)
  {
  }

  lemma {:induction false} CmpTransitive(x: Entry, y: Entry, z: Entry)
    requires x.size > 0 && y.size > 0 && z.size > 0 && Cmp(x, y) < 0 && Cmp(y, z) < 0
    ensures Cmp(x, z) < 0
  {
  }

  predicate Contains(e: Entry, a: nat) { e.addr <= a < End(e) }

  /** The empty range used to look up an address is equal to exactly the ranges containing it. */
  lemma {:induction false} CmpPoint(a: nat, e: Entry)
    requires e.size > 0
    ensures Cmp(Entry(a, 0, 0), e) == 0 <==> Contains(e, a)
    ensures Cmp(Entry(a, 0, 0), e) < 0 <==> a < e.addr
  {
  }

  // ----- trees

  datatype Tree = Leaf | Node(left: Tree, entry: Entry, right: Tree)

  function InOrder(t: Tree): seq<Entry> {
    match t
    case Leaf => []
    case Node(l, e, r) => InOrder(l) + [e] + InOrder(r)
  }

  /** sglib_res_tree_find_member */
  function Find(t: Tree, key: Entry): Option<Entry> {
    match t
    case Leaf => None
    case Node(l, e, r) => if Cmp(key, e) < 0 then Find(l, key) else if Cmp(key, e) > 0 then Find(r, key) else Some(e)
  }

  /** sglib_res_tree_add, up to the shape of the tree. */
  function Insert(t: Tree, e: Entry): Tree {
    match t
    case Leaf => Node(Leaf, e, Leaf)
    case Node(l, x, r) => if Cmp(e, x) < 0 then Node(Insert(l, e), x, r) else Node(l, x, Insert(r, e))
  }

  function Join(l: Tree, r: Tree): Tree {
    match l
    case Leaf => r
    case Node(a, x, b) => Node(a, x, Join(b, r))
  }

  /** sglib_res_tree_delete, up to the shape of the tree. */
  function Delete(t: Tree, e: Entry): Tree {
    match t
    case Leaf => Leaf
    case Node(l, x, r) =>
      if Cmp(e, x) < 0 then Node(Delete(l, e), x, r)
      else if Cmp(e, x) > 0 then Node(l, x, Delete(r, e))
      else Join(l, r)
  }

  // ----- order

  /** Ascending, disjoint and not empty. */
  predicate Ascending(es: seq<Entry>) {
    && (forall i | 0 <= i < |es| :: es[i].size > 0)
    && (forall i, j | 0 <= i < j < |es| :: End(es[i]) <= es[j].addr)
  }

  predicate Ordered(t: Tree) { Ascending(InOrder(t)) }

  /** `e` comes behind everything in `l` and before everything in `r`. */
  predicate Between(l: seq<Entry>, e: Entry, r: seq<Entry>) {
    && Ascending(l) && Ascending(r) && e.size > 0
    && (forall x | x in l :: End(x) <= e.addr) && (forall x | x in r :: End(e) <= x.addr)
  }

  lemma {:induction false} AscendingSplit(l: seq<Entry>, e: Entry, r: seq<Entry>)
    requires Ascending(l + [e] + r)
    ensures Between(l, e, r)
  {
    var s, n := l + [e] + r, |l| + 1;
    assert s[|l|] == e;
    forall i | 0 <= i < |l| ensures s[i] == l[i] && End(l[i]) <= e.addr && l[i].size > 0 {
      assert End(s[i]) <= s[|l|].addr;
    }
    forall i | 0 <= i < |r| ensures s[n + i] == r[i] && End(e) <= r[i].addr && r[i].size > 0 {
      assert End(s[|l|]) <= s[n + i].addr;
    }
    forall i, j | 0 <= i < j < |r| ensures End(r[i]) <= r[j].addr {
      assert End(s[n + i]) <= s[n + j].addr;
    }
  }

  lemma {:induction false} AscendingMerge(l: seq<Entry>, e: Entry, r: seq<Entry>)
    requires Between(l, e, r)
    ensures Ascending(l + [e] + r)
  {
    var s := l + [e] + r;
    forall i, j | 0 <= i < j < |s| ensures End(s[i]) <= s[j].addr {
      assert i < |l| ==> s[i] == l[i] && s[i] in l;
      assert j > |l| ==> s[j] == r[j - |l| - 1] && s[j] in r;
      assert i > |l| ==> s[i] == r[i - |l| - 1];
    }
  }

  lemma {:induction false} AscendingParts(l: seq<Entry>, e: Entry, r: seq<Entry>)
    ensures Ascending(l + [e] + r) <==> Between(l, e, r)
  {
    if Ascending(l + [e] + r) {
      AscendingSplit(l, e, r);
    } else if Between(l, e, r) {
      AscendingMerge(l, e, r);
    }
  }

  lemma {:induction false} NodeOrdered(t: Tree)
    requires t.Node? && Ordered(t)
    ensures Ordered(t.left) && Ordered(t.right) && t.entry.size > 0
    ensures forall x | x in InOrder(t.left) :: End(x) <= t.entry.addr && x.size > 0
    ensures forall x | x in InOrder(t.right) :: End(t.entry) <= x.addr && x.size > 0
  {
    AscendingParts(InOrder(t.left), t.entry, InOrder(t.right));
  }

  // ----- lookup

  /** The key is equal to an entry under the comparator. */
  predicate Matches(key: Entry, e: Entry) { Cmp(key, e) == 0 }

  /** A key below an entry is below everything behind it, and likewise above. */
  lemma {:induction false} OneSide(key: Entry, e: Entry, x: Entry)
    requires e.size > 0 && x.size > 0
    ensures Cmp(key, e) < 0 && End(e) <= x.addr ==> Cmp(key, x) < 0
    ensures Cmp(key, e) > 0 && End(x) <= e.addr ==> Cmp(key, x) > 0
  {
  }

  /** In a tree of any shape, the lookup finds an entry that matches, and fails only if none does. */
  lemma {:induction false} FindSound(t: Tree, key: Entry)
    requires Ordered(t)
    ensures match Find(t, key) {
      case Some(e) => e in InOrder(t) && Matches(key, e)
      case None => forall x | x in InOrder(t) :: !Matches(key, x)
    }
  {
    if t.Node? {
      NodeOrdered(t);
      FindSound(t.left, key);
      FindSound(t.right, key);
      forall x | x in InOrder(t.left) || x in InOrder(t.right) ensures
        (Cmp(key, t.entry) < 0 && x in InOrder(t.right) ==> !Matches(key, x)) &&
        (Cmp(key, t.entry) > 0 && x in InOrder(t.left) ==> !Matches(key, x))
      {
        OneSide(key, t.entry, x);
      }
    }
  }

  /** Lookup by address gives the one entry that contains it, if there is one. */
  lemma {:induction false} FindByAddress(t: Tree, a: nat)
    requires Ordered(t)
    ensures match Find(t, Entry(a, 0, 0)) {
      case Some(e) => e in InOrder(t) && Contains(e, a) && forall x | x in InOrder(t) && Contains(x, a) :: x == e
      case None => forall x | x in InOrder(t) :: !Contains(x, a)
    }
  {
    var key, es := Entry(a, 0, 0), InOrder(t);
    FindSound(t, key);
    forall x | x in es ensures Matches(key, x) <==> Contains(x, a) {
      var i :| 0 <= i < |es| && es[i] == x;
      CmpPoint(a, x);
    }
    if Find(t, key).Some? {
      var e := Find(t, key).value;
      forall x | x in es && Contains(x, a) ensures x == e {
        var i :| 0 <= i < |es| && es[i] == x;
        var j :| 0 <= j < |es| && es[j] == e;
      }
    }
  }

  lemma {:induction false} FirstAscends(es: seq<Entry>)
    requires Ascending(es) && es != []
    ensures Ascending(es[1..]) && forall x :: x in es[1..] <==> x in es && x != es[0]
  {
    assert es == [] + [es[0]] + es[1..];
    AscendingParts([], es[0], es[1..]);
  }

  /** Ascending lists with the same entries are equal. */
  lemma {:induction false} AscendingUnique(a: seq<Entry>, b: seq<Entry>)
    requires Ascending(a) && Ascending(b) && forall x :: x in a <==> x in b
    ensures a == b
  {
    if a != [] && b != [] {
      assert a[0] in b && b[0] in a;
      var i :| 0 <= i < |b| && b[i] == a[0];
      var j :| 0 <= j < |a| && a[j] == b[0];
      assert a[0] == b[0];
      FirstAscends(a);
      FirstAscends(b);
      AscendingUnique(a[1..], b[1..]);
    } else if a != [] {
      SomeEntry(a);
    } else if b != [] {
      SomeEntry(b);
    }
  }

  lemma {:induction false} SomeEntry(es: seq<Entry>)
    requires es != []
    ensures es[0] in es
  {
  }

  /** Rebalancing does not matter: trees with the same entries in order find the same entry for an address,
      agree on whether any key matches, and stay in step under insertion and deletion. */
  lemma {:induction false} ShapeIrrelevant(t: Tree, u: Tree, a: nat, e: Entry)
    requires Ordered(t) && InOrder(u) == InOrder(t)
    ensures Find(t, Entry(a, 0, 0)) == Find(u, Entry(a, 0, 0))
    ensures Find(t, e).Some? <==> Find(u, e).Some?
    ensures e.size > 0 && Find(t, e).None? ==> InOrder(Insert(t, e)) == InOrder(Insert(u, e))
    ensures e in InOrder(t) ==> InOrder(Delete(t, e)) == InOrder(Delete(u, e))
  {
    FindByAddress(t, a);
    FindByAddress(u, a);
    FindSound(t, e);
    FindSound(u, e);
    if e.size > 0 && Find(t, e).None? {
      InsertOrdered(t, e);
      InsertOrdered(u, e);
      AscendingUnique(InOrder(Insert(t, e)), InOrder(Insert(u, e)));
    }
    if e in InOrder(t) {
      DeleteOrdered(t, e);
      DeleteOrdered(u, e);
      AscendingUnique(InOrder(Delete(t, e)), InOrder(Delete(u, e)));
    }
  }

  // ----- insertion and deletion

  /** An entry that matches none goes into its place in the order. */
  lemma {:induction false} InsertOrdered(t: Tree, e: Entry)
    requires Ordered(t) && e.size > 0 && forall x | x in InOrder(t) :: !Matches(e, x)
    ensures Ordered(Insert(t, e)) && forall x :: x in InOrder(Insert(t, e)) <==> x == e || x in InOrder(t)
  {
    if t.Node? {
      NodeOrdered(t);
      CmpMeans(e, t.entry);
      assert t.entry in InOrder(t);
      if Cmp(e, t.entry) < 0 {
        InsertOrdered(t.left, e);
        AscendingParts(InOrder(Insert(t.left, e)), t.entry, InOrder(t.right));
      } else {
        InsertOrdered(t.right, e);
        AscendingParts(InOrder(t.left), t.entry, InOrder(Insert(t.right, e)));
      }
    } else {
      AscendingParts([], e, []);
    }
  }

  lemma {:induction false} JoinInOrder(l: Tree, r: Tree)
    ensures InOrder(Join(l, r)) == InOrder(l) + InOrder(r)
  {
    if l.Node? {
      JoinInOrder(l.right, r);
    }
  }

  lemma {:induction false} AscendingJoin(l: seq<Entry>, e: Entry, r: seq<Entry>)
    requires Ascending(l + [e] + r)
    ensures Ascending(l + r) && e !in l && e !in r
  {
    AscendingParts(l, e, r);
    var s := l + r;
    forall i, j | 0 <= i < j < |s| ensures End(s[i]) <= s[j].addr {
      assert i < |l| ==> s[i] in l;
      assert j >= |l| ==> s[j] in r && s[j] == r[j - |l|];
      assert i >= |l| ==> s[i] == r[i - |l|];
    }
  }

  /** Deleting an entry of the tree takes out that entry and no other. */
  lemma {:induction false} DeleteOrdered(t: Tree, e: Entry)
    requires Ordered(t) && e in InOrder(t)
    ensures Ordered(Delete(t, e)) && forall x :: x in InOrder(Delete(t, e)) <==> x in InOrder(t) && x != e
  {
    NodeOrdered(t);
    var l, x, r := InOrder(t.left), t.entry, InOrder(t.right);
    AscendingJoin(l, x, r);
    if e == x {
      JoinInOrder(t.left, t.right);
    } else if e in l {
      CmpMeans(e, x);
      DeleteOrdered(t.left, e);
      AscendingParts(InOrder(Delete(t.left, e)), x, r);
      AscendingParts(l, x, r);
    } else {
      CmpMeans(x, e);
      DeleteOrdered(t.right, e);
      AscendingParts(l, x, InOrder(Delete(t.right, e)));
      AscendingParts(l, x, r);
    }
  }
}
