/** Memory reservations: adding and removing them over whole runs. */
module Reservations {
  import opened Common
  import opened Arith
  import opened ReservationTree

  // ----- one tree

  datatype Added = Added(tree: Tree, ok: bool)

  /** add_memory_reservation_node */
  function Add(t: Tree, e: Entry): Added {
    if Find(t, e).None? then Added(Insert(t, e), true) else Added(t, false)
  }

  /** remove_memory_reservation_node */
  function Remove(t: Tree, addr: nat, size: nat): Tree {
    match Find(t, Entry(addr, size, 0))
    case None => t
    case Some(x) => if x.addr == addr && x.size == size then Delete(t, x) else t
  }

  function Elements(t: Tree): set<Entry> { set e | e in InOrder(t) }

  lemma {:induction false} ElementOrdered(t: Tree, x: Entry, y: Entry)
    requires Ordered(t) && x in Elements(t) && y in Elements(t)
    ensures x.size > 0 && (x == y || !Overlap(x, y))
  {
    var es := InOrder(t);
    var i :| 0 <= i < |es| && es[i] == x;
    var j :| 0 <= j < |es| && es[j] == y;
  }

  /** A reservation is added exactly when it overlaps none that is there. */
  lemma {:induction false} AddIff(t: Tree, e: Entry)
    requires Ordered(t) && e.size > 0
    ensures Ordered(Add(t, e).tree)
    ensures Add(t, e).ok <==> forall x | x in Elements(t) :: !Overlap(e, x)
    ensures Elements(Add(t, e).tree) == if Add(t, e).ok then Elements(t) + {e} else Elements(t)
  {
    FindSound(t, e);
    forall x | x in Elements(t) ensures Matches(e, x) <==> Overlap(e, x) {
      ElementOrdered(t, x, x);
      CmpMeans(e, x);
    }
    if Add(t, e).ok {
      InsertOrdered(t, e);
    }
  }

  function Others(s: set<Entry>, addr: nat, size: nat): set<Entry> {
    set x | x in s && !(x.addr == addr && x.size == size)
  }

  /** Removal takes out the entry with exactly this range, if there is one, and nothing else. */
  lemma {:induction false} RemoveExact(t: Tree, addr: nat, size: nat)
    requires Ordered(t)
    ensures Ordered(Remove(t, addr, size)) && Elements(Remove(t, addr, size)) == Others(Elements(t), addr, size)
  {
    var key := Entry(addr, size, 0);
    FindSound(t, key);
    forall x | x in Elements(t) && x.addr == addr && x.size == size
      ensures Find(t, key) == Some(x)
    {
      ElementOrdered(t, x, x);
      CmpMeans(key, x);
      var y := Find(t, key).value;
      ElementOrdered(t, y, x);
      CmpMeans(key, y);
    }
    match Find(t, key)
    case None =>
    case Some(x) =>
      if x.addr == addr && x.size == size {
        DeleteOrdered(t, x);
      }
  }

  // ----- runs

  datatype Event = Reserve(entry: Entry) | Release(addr: nat, size: nat)

  function Step(t: Tree, e: Event): Tree {
    match e
    case Reserve(entry) => Add(t, entry).tree
    case Release(addr, size) => Remove(t, addr, size)
  }

  function Run(t: Tree, es: seq<Event>): Tree
    decreases |es|
  {
    if es == [] then t else Run(Step(t, es[0]), es[1..])
  }

  /** The same on plain sets of ranges. */
  function Ideal(s: set<Entry>, e: Event): set<Entry> {
    match e
    case Reserve(entry) => if forall x | x in s :: !Overlap(entry, x) then s + {entry} else s
    case Release(addr, size) => Others(s, addr, size)
  }

  function IdealRun(s: set<Entry>, es: seq<Event>): set<Entry>
    decreases |es|
  {
    if es == [] then s else IdealRun(Ideal(s, es[0]), es[1..])
  }

  /** Over any run of non-empty reservations and releases the tree stays ordered, its entries disjoint,
      and holds exactly the ranges a plain set would. */
  lemma {:induction false} RunIsIdeal(t: Tree, es: seq<Event>)
    requires Ordered(t) && forall e | e in es && e.Reserve? :: e.entry.size > 0
    ensures Ordered(Run(t, es)) && Elements(Run(t, es)) == IdealRun(Elements(t), es)
    decreases |es|
  {
    if es != [] {
      match es[0] {
        case Reserve(entry) => AddIff(t, entry);
        case Release(addr, size) => RemoveExact(t, addr, size);
      }
      assert Elements(Step(t, es[0])) == Ideal(Elements(t), es[0]);
      RunIsIdeal(Step(t, es[0]), es[1..]);
    }
  }

  // ----- the overflow test of a reservation

  /** The checks of allocate_vm_reservation. */
  predicate Allocatable(addr: nat, size: nat) {
    var next := (addr + size) % WORD;
    size != 0 && !(next < addr && next == 0)
  }

  /** The test rejects an overflowing range only if it wraps to exactly 0: it is right exactly for ranges
      that do not reach beyond the address space. */
  lemma {:induction false} OverflowTestExactIff(addr: nat, size: nat)
    requires addr < WORD && 0 < size < WORD
    ensures (Allocatable(addr, size) <==> addr + size < WORD) <==> addr + size <= WORD
  {
    if addr + size >= WORD {
      ModShift(addr + size, WORD);
    }
  }

  // ----- in place

  class ReservationCookie {
    var regular: Tree
    var anon: Tree

    ghost predicate Valid()
      reads this
    {
      Ordered(regular) && Ordered(anon)
    }

    constructor ()
      ensures Valid() && regular == Leaf && anon == Leaf
    {
      regular, anon := Leaf, Leaf;
    }

    /** sglib_res_tree_find_member: the descent */
    static method FindMember(t: Tree, key: Entry) returns (found: Option<Entry>)
      ensures found == Find(t, key)
    {
      var s := t;
      while s.Node? && Cmp(key, s.entry) != 0
        invariant Find(s, key) == Find(t, key)
        decreases s
      {
        s := if Cmp(key, s.entry) < 0 then s.left else s.right;
      }
      found := if s.Leaf? then None else Some(s.entry);
    }

    /** add_memory_reservation_node */
    method AddNode(e: Entry, isAnon: bool) returns (ok: bool)
      requires Valid() && e.size > 0
      modifies this
      ensures Valid()
      ensures if isAnon then Added(anon, ok) == Add(old(anon), e) && regular == old(regular)
              else Added(regular, ok) == Add(old(regular), e) && anon == old(anon)
    {
      var tree := if isAnon then anon else regular;
      AddIff(tree, e);
      var found := FindMember(tree, e);
      ok := found.None?;
      if ok {
        tree := Insert(tree, e);
        if isAnon {
          anon := tree;
        } else {
          regular := tree;
        }
      }
    }

    /** remove_memory_reservation_node */
    method RemoveNode(addr: nat, size: nat, isAnon: bool)
      requires Valid()
      modifies this
      ensures Valid()
      ensures if isAnon then anon == Remove(old(anon), addr, size) && regular == old(regular)
              else regular == Remove(old(regular), addr, size) && anon == old(anon)
    {
      var tree := if isAnon then anon else regular;
      RemoveExact(tree, addr, size);
      var found := FindMember(tree, Entry(addr, size, 0));
      if found.Some? && found.value.addr == addr && found.value.size == size {
        tree := Delete(tree, found.value);
        if isAnon {
          anon := tree;
        } else {
          regular := tree;
        }
      }
    }

    /** find_memory_reservation_by_addr: the one entry containing the address, regular ones first */
    method FindByAddress(a: nat) returns (found: Option<Entry>)
      requires Valid()
      ensures match found {
        case Some(e) => Contains(e, a) && (e in Elements(regular) || (e in Elements(anon) && forall x | x in Elements(regular) :: !Contains(x, a)))
        case None => forall x | x in Elements(regular) + Elements(anon) :: !Contains(x, a)
      }
    {
      ReservationTree.FindByAddress(regular, a);
      ReservationTree.FindByAddress(anon, a);
      found := FindMember(regular, Entry(a, 0, 0));
      if found.None? {
        found := FindMember(anon, Entry(a, 0, 0));
      }
    }
  }
}
