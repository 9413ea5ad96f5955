/** The vGIC as the library keeps it: register words, a list-register mirror, circular queues and
    handle tables, all updated in place.  Each operation is proved to take the abstract state of
    VgicModel where the corresponding function does. */
module Vgic {
  import opened Common
  import opened VgicModel
  import opened Words

  // ----- one vCPU's interrupt context

  function QueueNext(i: nat): (r: nat)
    requires i < MAX_IRQ_QUEUE_LEN
    ensures r < MAX_IRQ_QUEUE_LEN && r != i && r == if i + 1 < MAX_IRQ_QUEUE_LEN then i + 1 else 0
  {
    (i + 1) % MAX_IRQ_QUEUE_LEN
  }

  /** What a circular buffer holds, oldest first; one slot always stays unused. */
  function Ring(buf: seq<nat>, head: nat, tail: nat): (r: seq<nat>)
    requires head < |buf| && tail < |buf|
    ensures |r| < |buf|
    ensures r == [] <==> head == tail
  {
    if head <= tail then buf[head..tail] else buf[head..] + buf[..tail]
  }

  lemma {:induction false} RingPush(buf: seq<nat>, head: nat, tail: nat, x: nat)
    requires |buf| == MAX_IRQ_QUEUE_LEN && head < |buf| && tail < |buf|
    ensures QueueNext(tail) == head <==> |Ring(buf, head, tail)| == MAX_IRQ_QUEUE_LEN - 1
    ensures QueueNext(tail) != head ==> Ring(buf[tail := x], head, QueueNext(tail)) == Ring(buf, head, tail) + [x]
  {
    if QueueNext(tail) != head {
      if head <= tail {
        PushBehind(buf, head, tail, x);
      } else {
        PushWrapped(buf, head, tail, x);
      }
    }
  }

  lemma {:induction false} PushBehind(buf: seq<nat>, head: nat, tail: nat, x: nat)
    requires |buf| == MAX_IRQ_QUEUE_LEN && head <= tail < |buf| && QueueNext(tail) != head
    ensures Ring(buf[tail := x], head, QueueNext(tail)) == buf[head..tail] + [x]
  {
    var b := buf[tail := x];
    assert b[head..tail + 1] == buf[head..tail] + [x];
    if tail + 1 == |buf| {
      assert b[head..] + b[..0] == b[head..tail + 1];
    }
  }

  lemma {:induction false} PushWrapped(buf: seq<nat>, head: nat, tail: nat, x: nat)
    requires |buf| == MAX_IRQ_QUEUE_LEN && tail < head < |buf| && QueueNext(tail) != head
    ensures Ring(buf[tail := x], head, QueueNext(tail)) == (buf[head..] + buf[..tail]) + [x]
  {
    var b := buf[tail := x];
    assert b[head..] == buf[head..];
    assert b[..tail + 1] == buf[..tail] + [x];
    assert b[head..] + b[..tail + 1] == (buf[head..] + buf[..tail]) + [x];
  }

  lemma {:induction false} RingPop(buf: seq<nat>, head: nat, tail: nat)
    requires |buf| == MAX_IRQ_QUEUE_LEN && head < |buf| && tail < |buf| && head != tail
    ensures Ring(buf, head, tail)[0] == buf[head]
    ensures Ring(buf, QueueNext(head), tail) == Ring(buf, head, tail)[1..]
  {
    var next := QueueNext(head);
    if head < tail {
      assert Ring(buf, next, tail) == buf[head + 1..tail] == buf[head..tail][1..];
    } else {
      PopWrapped(buf, head, tail);
    }
  }

  lemma {:induction false} PopWrapped(buf: seq<nat>, head: nat, tail: nat)
    requires |buf| == MAX_IRQ_QUEUE_LEN && tail < head < |buf|
    ensures Ring(buf, head, tail)[1..] == Ring(buf, QueueNext(head), tail)
  {
    var rest := (buf[head..] + buf[..tail])[1..];
    if head + 1 < |buf| {
      assert rest == buf[head + 1..] + buf[..tail];
    } else {
      assert rest == buf[..tail] == buf[0..tail];
    }
  }

  class VgicVcpu {
    const lrShadow: array<Option<nat>>
    const irqs: array<nat>
    var head: nat
    var tail: nat
    const localVirqs: array<Option<bool>>
    ghost var accepted: seq<nat>
    ghost var loaded: seq<nat>
    ghost var retired: seq<nat>

    ghost predicate Valid()
      reads this
    {
      && lrShadow.Length == NUM_LIST_REGS && irqs.Length == MAX_IRQ_QUEUE_LEN
      && localVirqs.Length == NUM_LOCAL_VIRQS
      && head < MAX_IRQ_QUEUE_LEN && tail < MAX_IRQ_QUEUE_LEN
    }

    ghost function Abs(): (c: Vcpu)
      requires Valid()
      reads this, lrShadow, irqs, localVirqs
      ensures VcpuShape(c)
    {
      Vcpu(lrShadow[..], Ring(irqs[..], head, tail), localVirqs[..], accepted, loaded, retired)
    }

    constructor ()
      ensures Valid() && fresh(lrShadow) && fresh(irqs) && fresh(localVirqs)
      ensures Abs() == Vcpu(seq(NUM_LIST_REGS, _ => None), [], seq(NUM_LOCAL_VIRQS, _ => None), [], [], [])
    {
      lrShadow := new Option<nat>[NUM_LIST_REGS](_ => None);
      irqs := new nat[MAX_IRQ_QUEUE_LEN](_ => 0);
      localVirqs := new Option<bool>[NUM_LOCAL_VIRQS](_ => None);
      head, tail := 0, 0;
      accepted, loaded, retired := [], [], [];
      new;
      assert lrShadow[..] == seq(NUM_LIST_REGS, _ => None);
      assert localVirqs[..] == seq(NUM_LOCAL_VIRQS, _ => None);
    }

    method Enqueue(irq: nat) returns (ok: bool)
      requires Valid()
      modifies this, irqs
      ensures Valid()
      ensures ok == (old(|Abs().queue|) < MAX_IRQ_QUEUE_LEN - 1)
      ensures Abs() == if ok then VgicModel.Enqueue(old(Abs()), irq) else old(Abs())
    {
      RingPush(irqs[..], head, tail, irq);
      if QueueNext(tail) == head {
        return false;
      }
      ghost var before := irqs[..];
      irqs[tail] := irq;
      assert irqs[..] == before[tail := irq];
      tail := QueueNext(tail);
      accepted := accepted + [irq];
      ok := true;
    }

    /** The queue head, if any, taken off the queue. */
    method Dequeue() returns (irq: Option<nat>)
      requires Valid()
      modifies this`head
      ensures Valid()
      ensures irq.None? <==> old(Abs().queue) == []
      ensures irq.None? ==> Abs() == old(Abs())
      ensures irq.Some? ==> irq.value == old(Abs().queue)[0] && Abs() == old(Abs()).(queue := old(Abs().queue)[1..])
    {
      irq := None;
      if head != tail {
        RingPop(irqs[..], head, tail);
        irq := Some(irqs[head]);
        head := QueueNext(head);
      }
    }

    method FindEmptyListReg() returns (idx: Option<nat>)
      requires Valid()
      ensures idx == FirstEmpty(Abs().lr)
    {
      var i := 0;
      while i < lrShadow.Length
        invariant 0 <= i <= lrShadow.Length
        invariant forall k | 0 <= k < i :: lrShadow[k].Some?
      {
        if lrShadow[i].None? {
          FirstEmptyAt(lrShadow[..], i);
          return Some(i);
        }
        i := i + 1;
      }
      idx := None;
    }

    /** The head of the queue, if there is one, goes into list register i. */
    method LoadNext(i: nat)
      requires Valid() && i < NUM_LIST_REGS
      modifies this, lrShadow, irqs
      ensures Valid() && Abs() == if old(Abs().queue) == [] then old(Abs()) else LoadHead(old(Abs()), i)
    {
      var next := Dequeue();
      if next.Some? {
        LoadListReg(i, next.value);
      }
    }

    /** Enqueue irq and, if a list register is free, load the queue head into it. */
    method EnqueueAndLoad(irq: nat) returns (ok: bool)
      requires Valid()
      modifies this, lrShadow, irqs
      ensures Valid()
      ensures ok == (old(|Abs().queue|) < MAX_IRQ_QUEUE_LEN - 1)
      ensures Abs() == if ok then Deliver(old(Abs()), irq) else old(Abs())
    {
      ok := Enqueue(irq);
      if !ok {
        return;
      }
      var idx := FindEmptyListReg();
      if idx.Some? {
        var next := Dequeue();
        LoadListReg(idx.value, next.value);
      }
    }

    /** The handle is loaded into the list register; the kernel call that does it succeeds. */
    method LoadListReg(idx: nat, irq: nat)
      requires Valid() && idx < NUM_LIST_REGS
      modifies this`loaded, lrShadow
      ensures Valid()
      ensures Abs() == old(Abs()).(lr := old(Abs().lr)[idx := Some(irq)], loaded := old(Abs().loaded) + [irq])
    {
      ghost var before := lrShadow[..];
      lrShadow[idx] := Some(irq);
      assert lrShadow[..] == before[idx := Some(irq)];
      loaded := loaded + [irq];
    }

    method ClearListReg(idx: nat) returns (irq: nat)
      requires Valid() && idx < NUM_LIST_REGS && lrShadow[idx].Some?
      modifies this`retired, lrShadow
      ensures Valid() && irq == old(Abs().lr)[idx].value
      ensures Abs() == Retire(old(Abs()), idx)
    {
      ghost var before := lrShadow[..];
      irq := lrShadow[idx].value;
      lrShadow[idx] := None;
      assert lrShadow[..] == before[idx := None];
      retired := retired + [irq];
    }

    method SetLocal(irq: nat, level: bool)
      requires Valid() && irq < NUM_LOCAL_VIRQS
      modifies localVirqs
      ensures Valid()
      ensures Abs() == old(Abs()).(local := old(Abs().local)[irq := Some(level)])
    {
      ghost var before := localVirqs[..];
      localVirqs[irq] := Some(level);
      assert localVirqs[..] == before[irq := Some(level)];
    }
  }

  // ----- the distributor's register words

  /** Bits 0..n-1 of the words, bit i of the map being bit i % 32 of word i / 32. */
  function Bits(words: seq<nat>, n: nat): seq<bool>
    requires n <= 32 * |words|
  {
    seq(n, i requires 0 <= i < n => TestBit(words[i / 32], i % 32))
  }

  lemma {:induction false} NoBits(words: seq<nat>, n: nat)
    requires n <= 32 * |words| && forall k | 0 <= k < |words| :: words[k] == 0
    ensures Bits(words, n) == seq(n, _ => false)
  {
    forall i | 0 <= i < n ensures !Bits(words, n)[i] { ZeroHasNoBits(i % 32); }
  }

  lemma {:induction false} SgiBits()
    ensures Bits([0x0000_ffff], NUM_LOCAL_VIRQS) == seq(NUM_LOCAL_VIRQS, i => i < NUM_SGI_VIRQS)
  {
    PowersTo32();
    forall i | 0 <= i < NUM_LOCAL_VIRQS ensures Bits([0x0000_ffff], NUM_LOCAL_VIRQS)[i] == (i < NUM_SGI_VIRQS) { LowBits(16, i); }
  }

  function Assign(w: nat, i: nat, b: bool): nat {
    if b then SetBit(w, i) else ClearBit(w, i)
  }

  lemma {:induction false} AssignTest(w: nat, i: nat, b: bool, j: nat)
    ensures TestBit(Assign(w, i, b), j) <==> if i == j then b else TestBit(w, j)
  {
    SetBitTest(w, i, j);
    ClearBitTest(w, i, j);
  }

  lemma {:induction false} BitsAssign(words: seq<nat>, n: nat, i: nat, b: bool)
    requires n <= 32 * |words| && i < n
    ensures Bits(words[i / 32 := Assign(words[i / 32], i % 32, b)], n) == Bits(words, n)[i := b]
  {
    var words' := words[i / 32 := Assign(words[i / 32], i % 32, b)];
    forall j | 0 <= j < n ensures Bits(words', n)[j] == Bits(words, n)[i := b][j] {
      AssignTest(words[i / 32], i % 32, b, j % 32);
    }
  }

  class GicDist {
    var enable: bool
    var pendingSet0: seq<nat>
    var pendingClr0: seq<nat>
    var pendingSet: seq<nat>
    var pendingClr: seq<nat>
    var enableSet0: seq<nat>
    var enableClr0: seq<nat>
    var enableSet: seq<nat>
    var enableClr: seq<nat>
    /** Int_config[1] of each interrupt: the upper bit of its pair in ICFGR. */
    var edge: seq<bool>

    /** n vCPUs; each set register reads the same as its clear register. */
    ghost predicate Valid(n: nat)
      reads this
    {
      && |pendingSet0| == n && |enableSet0| == n && |pendingSet| == 31 && |enableSet| == 31
      && pendingClr0 == pendingSet0 && pendingClr == pendingSet
      && enableClr0 == enableSet0 && enableClr == enableSet
      && |edge| == NUM_IRQS
    }

    ghost function Banked(words: seq<nat>): (r: seq<seq<bool>>)
      ensures |r| == |words|
    {
      seq(|words|, v requires 0 <= v < |words| => Bits([words[v]], NUM_LOCAL_VIRQS))
    }

    /** The registers of the reset state: SGIs enabled and edge-triggered. */
    ghost predicate AfterReset(n: nat)
      reads this
    {
      && Valid(n) && !enable
      && Banked(pendingSet0) == Reset(n).pending0 && Banked(enableSet0) == Reset(n).enabled0
      && Bits(pendingSet, NUM_IRQS) == Reset(n).pending && Bits(enableSet, NUM_IRQS) == Reset(n).enabled
      && edge == Reset(n).edge
    }

    /** vgic_dist_reset */
    constructor (n: nat)
      ensures AfterReset(n)
    {
      enable := false;
      pendingSet0, pendingClr0 := seq(n, _ => 0), seq(n, _ => 0);
      pendingSet, pendingClr := seq(31, _ => 0), seq(31, _ => 0);
      enableSet0, enableClr0 := seq(n, _ => 0x0000_ffff), seq(n, _ => 0x0000_ffff);
      enableSet, enableClr := seq(31, _ => 0), seq(31, _ => 0);
      edge := seq(NUM_IRQS, i => i < NUM_SGI_VIRQS);
      new;
      NoBits(pendingSet, NUM_IRQS);
      NoBits([0], NUM_LOCAL_VIRQS);
      SgiBits();
      BankedIs(pendingSet0, 0, Reset(n).pending0);
      BankedIs(enableSet0, 0x0000_ffff, Reset(n).enabled0);
    }

    lemma {:induction false} BankedIs(words: seq<nat>, w: nat, banks: seq<seq<bool>>)
      requires |banks| == |words| && forall v | 0 <= v < |words| :: words[v] == w && banks[v] == Bits([w], NUM_LOCAL_VIRQS)
      ensures Banked(words) == banks
    {
      forall v | 0 <= v < |words| ensures Banked(words)[v] == banks[v] {}
    }

    method SetPending(v: nat, irq: nat, b: bool, ghost n: nat)
      requires Valid(n) && v < n && irq < NUM_IRQS
      modifies this`pendingSet0, this`pendingClr0, this`pendingSet, this`pendingClr
      ensures Valid(n)
      ensures irq < NUM_LOCAL_VIRQS ==> pendingSet == old(pendingSet)
      ensures irq < NUM_LOCAL_VIRQS ==>
                Banked(pendingSet0) == old(Banked(pendingSet0))[v := old(Banked(pendingSet0))[v][irq := b]]
      ensures irq >= NUM_LOCAL_VIRQS ==> pendingSet0 == old(pendingSet0)
      ensures irq >= NUM_LOCAL_VIRQS ==>
                Bits(pendingSet, NUM_IRQS) == old(Bits(pendingSet, NUM_IRQS))[irq := b]
    {
      if irq < NUM_LOCAL_VIRQS {
        BankedAssign(pendingSet0, v, irq, b);
        pendingSet0 := pendingSet0[v := Assign(pendingSet0[v], irq % 32, b)];
        pendingClr0 := pendingClr0[v := Assign(pendingClr0[v], irq % 32, b)];
      } else {
        BitsAssign(pendingSet, NUM_IRQS, irq, b);
        pendingSet := pendingSet[irq / 32 := Assign(pendingSet[irq / 32], irq % 32, b)];
        pendingClr := pendingClr[irq / 32 := Assign(pendingClr[irq / 32], irq % 32, b)];
      }
    }

    method SetEnable(v: nat, irq: nat, b: bool, ghost n: nat)
      requires Valid(n) && v < n && irq < NUM_IRQS
      modifies this`enableSet0, this`enableClr0, this`enableSet, this`enableClr
      ensures Valid(n)
      ensures irq < NUM_LOCAL_VIRQS ==> enableSet == old(enableSet)
      ensures irq < NUM_LOCAL_VIRQS ==>
                Banked(enableSet0) == old(Banked(enableSet0))[v := old(Banked(enableSet0))[v][irq := b]]
      ensures irq >= NUM_LOCAL_VIRQS ==> enableSet0 == old(enableSet0)
      ensures irq >= NUM_LOCAL_VIRQS ==>
                Bits(enableSet, NUM_IRQS) == old(Bits(enableSet, NUM_IRQS))[irq := b]
    {
      if irq < NUM_LOCAL_VIRQS {
        BankedAssign(enableSet0, v, irq, b);
        enableSet0 := enableSet0[v := Assign(enableSet0[v], irq % 32, b)];
        enableClr0 := enableClr0[v := Assign(enableClr0[v], irq % 32, b)];
      } else {
        BitsAssign(enableSet, NUM_IRQS, irq, b);
        enableSet := enableSet[irq / 32 := Assign(enableSet[irq / 32], irq % 32, b)];
        enableClr := enableClr[irq / 32 := Assign(enableClr[irq / 32], irq % 32, b)];
      }
    }

    lemma {:induction false} BankedAssign(words: seq<nat>, v: nat, irq: nat, b: bool)
      requires v < |words| && irq < NUM_LOCAL_VIRQS
      ensures Banked(words[v := Assign(words[v], irq % 32, b)]) == Banked(words)[v := Banked(words)[v][irq := b]]
    {
      BitsAssign([words[v]], NUM_LOCAL_VIRQS, irq, b);
      assert [words[v]][0 := Assign(words[v], irq % 32, b)] == [Assign(words[v], irq % 32, b)];
    }
  }

  /** 2^k - 1 has exactly the k lowest bits set. */
  lemma {:induction false} LowBits(k: nat, i: nat)
    ensures TestBit(Pow2(k) - 1, i) <==> i < k
  {
    if k == 0 {
      ZeroHasNoBits(i);
    } else if i > 0 {
      assert (Pow2(k) - 1) / 2 == Pow2(k - 1) - 1;
      LowBits(k - 1, i - 1);
    }
  }

  // ----- the whole controller

  /** The registered SPIs: the slots up to the first free one. */
  function Filled(slots: seq<Option<Spi>>): (r: seq<Spi>)
    ensures |r| <= |slots|
    ensures forall k | 0 <= k < |r| :: slots[k] == Some(r[k])
    ensures |r| < |slots| ==> slots[|r|].None?
  {
    if slots == [] || slots[0].None? then [] else [slots[0].value] + Filled(slots[1..])
  }

  lemma {:induction false} FilledIs(slots: seq<Option<Spi>>, r: seq<Spi>)
    requires |r| <= |slots| && forall k | 0 <= k < |r| :: slots[k] == Some(r[k])
    requires |r| < |slots| ==> slots[|r|].None?
    ensures Filled(slots) == r
  {
    var f := Filled(slots);
    forall k | 0 <= k < |r| ensures f[k] == r[k] { assert slots[k] == Some(f[k]); }
  }

  lemma {:induction false} FindSpiAt(spis: seq<Spi>, virq: nat, n: nat)
    requires n < |spis| && spis[n].virq == virq && forall k | 0 <= k < n :: spis[k].virq != virq
    ensures FindSpi(spis, virq) == Some(n)
  {
  }

  /** Pairwise distinct contexts with distinct storage. */
  ghost predicate Separate(cs: seq<VgicVcpu>) {
    forall v, w | 0 <= v < w < |cs| ::
      && cs[v] != cs[w] && cs[v].lrShadow != cs[w].lrShadow
      && cs[v].irqs != cs[w].irqs && cs[v].localVirqs != cs[w].localVirqs
  }

  method NewSlots() returns (slots: array<Option<Spi>>)
    ensures fresh(slots) && slots.Length == NUM_SLOTS_SPI_VIRQ && Filled(slots[..]) == []
    ensures forall k | 0 <= k < slots.Length :: slots[k].None?
  {
    slots := new Option<Spi>[NUM_SLOTS_SPI_VIRQ](_ => None);
    assert slots[..][0].None?;
  }

  method NewVcpus(n: nat) returns (cs: seq<VgicVcpu>)
    ensures |cs| == n && Separate(cs)
    ensures forall v | 0 <= v < n ::
              && fresh(cs[v]) && fresh(cs[v].lrShadow) && fresh(cs[v].irqs) && fresh(cs[v].localVirqs)
              && cs[v].Valid() && cs[v].Abs() == Reset(n).vcpus[v]
  {
    cs := [];
    while |cs| < n
      invariant |cs| <= n && Separate(cs)
      invariant forall v | 0 <= v < |cs| ::
                  && fresh(cs[v]) && fresh(cs[v].lrShadow) && fresh(cs[v].irqs) && fresh(cs[v].localVirqs)
                  && cs[v].Valid() && cs[v].Abs() == Reset(n).vcpus[v]
    {
      var c := new VgicVcpu();
      cs := cs + [c];
    }
  }

  class VgicController {
    const dist: GicDist
    const vspis: array<Option<Spi>>
    const vcpus: seq<VgicVcpu>
    /** The abstract state this controller is in. */
    ghost var st: State

    ghost predicate Valid()
      reads this, dist, vspis, vcpus, Storage()
    {
      Sane() && st == Abs()
    }

    ghost predicate Sane()
      reads this, dist, vspis, vcpus
    {
      && dist.Valid(|vcpus|) && vspis.Length == NUM_SLOTS_SPI_VIRQ
      && (forall k | |Filled(vspis[..])| <= k < vspis.Length :: vspis[k].None?)
      && (forall v | 0 <= v < |vcpus| :: vcpus[v].Valid())
      && Separate(vcpus)
    }

    /** All of vCPU v's own storage. */
    ghost function Own(v: nat): set<object>
      requires v < |vcpus|
    {
      {vcpus[v], vcpus[v].lrShadow, vcpus[v].irqs, vcpus[v].localVirqs}
    }

    ghost function Storage(): set<object>
    {
      (set v | 0 <= v < |vcpus| :: vcpus[v] as object) + (set v | 0 <= v < |vcpus| :: vcpus[v].lrShadow as object) +
      (set v | 0 <= v < |vcpus| :: vcpus[v].irqs as object) + (set v | 0 <= v < |vcpus| :: vcpus[v].localVirqs as object)
    }

    ghost function Contexts(): (cs: seq<Vcpu>)
      requires forall v | 0 <= v < |vcpus| :: vcpus[v].Valid()
      reads vcpus, Storage()
      ensures |cs| == |vcpus|
    {
      seq(|vcpus|, v requires 0 <= v < |vcpus| reads vcpus, Storage() requires vcpus[v].Valid() => vcpus[v].Abs())
    }

    ghost function Abs(): (s: State)
      requires Sane()
      reads this, dist, vspis, vcpus, Storage()
      ensures Shape(s)
    {
      State(dist.enable, Contexts(), dist.Banked(dist.pendingSet0), dist.Banked(dist.enableSet0),
            Bits(dist.pendingSet, NUM_IRQS), Bits(dist.enableSet, NUM_IRQS), dist.edge, Filled(vspis[..]))
    }

    /** A controller around a reset distributor, empty SPI slots and fresh contexts. */
    constructor (d: GicDist, slots: array<Option<Spi>>, cs: seq<VgicVcpu>)
      requires d.AfterReset(|cs|) && slots.Length == NUM_SLOTS_SPI_VIRQ && Separate(cs)
      requires Filled(slots[..]) == [] && forall k | 0 <= k < slots.Length :: slots[k].None?
      requires forall v | 0 <= v < |cs| :: cs[v].Valid() && cs[v].Abs() == Reset(|cs|).vcpus[v]
      ensures Valid() && st == Reset(|cs|) && dist == d && vspis == slots && vcpus == cs
    {
      dist, vspis, vcpus, st := d, slots, cs, Reset(|cs|);
      new;
      AtReset(|cs|);
    }

    /** A reset distributor, empty SPI slots and fresh contexts are the reset state. */
    lemma {:induction false} AtReset(n: nat)
      requires Sane() && |vcpus| == n && Filled(vspis[..]) == [] && dist.AfterReset(n)
      requires forall v | 0 <= v < n :: vcpus[v].Abs() == Reset(n).vcpus[v]
      ensures Abs() == Reset(n)
    {
      assert Contexts() == Reset(n).vcpus;
    }

    // ----- handle lookup

    method FindSpiSlot(irq: nat) returns (slot: Option<nat>)
      requires Valid()
      ensures slot == FindSpi(st.spis, irq)
    {
      ghost var spis := Filled(vspis[..]);
      for i := 0 to vspis.Length
        invariant forall k | 0 <= k < i && k < |spis| :: spis[k].virq != irq
      {
        if vspis[i].Some? && vspis[i].value.virq == irq {
          assert i < |spis| && vspis[..][i] == Some(spis[i]);
          FindSpiAt(spis, irq, i);
          return Some(i);
        }
        assert i < |spis| ==> vspis[..][i] == Some(spis[i]);
      }
      slot := None;
    }

    method HasHandle(v: nat, irq: nat) returns (found: bool)
      requires Valid() && v < |vcpus| && irq < NUM_IRQS
      ensures found == Registered(st, v, irq)
    {
      if irq < NUM_LOCAL_VIRQS {
        found := vcpus[v].localVirqs[irq].Some?;
      } else {
        var slot := FindSpiSlot(irq);
        found := slot.Some?;
      }
    }

    method GetLevel(v: nat, irq: nat) returns (level: bool)
      requires Valid() && OnVcpu(st, v, irq) && Registered(st, v, irq)
      ensures level == Level(st, v, irq)
    {
      if irq < NUM_LOCAL_VIRQS {
        level := vcpus[v].localVirqs[irq].value;
      } else {
        var slot := FindSpiSlot(irq);
        assert vspis[..][slot.value] == Some(Filled(vspis[..])[slot.value]);
        level := vspis[slot.value].value.level;
      }
    }

    method SetLevel(v: nat, irq: nat, b: bool)
      requires Valid() && OnVcpu(st, v, irq) && Registered(st, v, irq)
      modifies this`st, vspis, vcpus[v].localVirqs
      ensures Valid() && st == WithLevel(old(st), v, irq, b)
    {
      if irq < NUM_LOCAL_VIRQS {
        vcpus[v].SetLocal(irq, b);
        assert Contexts() == st.vcpus[v := vcpus[v].Abs()];
        st := WithLevel(st, v, irq, b);
      } else {
        var slot := FindSpiSlot(irq);
        SetSpiLevel(slot.value, b);
      }
    }

    /** The model follows a change of the SPI slots. */
    ghost method FollowSpis()
      requires Sane() && st == Abs().(spis := st.spis)
      modifies this`st
      ensures Valid() && st == old(st).(spis := Filled(vspis[..]))
    {
      st := st.(spis := Filled(vspis[..]));
    }

    method SetSpiLevel(k: nat, b: bool)
      requires Valid() && k < |st.spis|
      modifies this`st, vspis
      ensures Valid() && st == old(st).(spis := old(st.spis)[k := old(st.spis)[k].(level := b)])
    {
      ghost var before := vspis[..];
      assert before[k] == Some(st.spis[k]);
      vspis[k] := Some(vspis[k].value.(level := b));
      assert vspis[..] == before[k := Some(st.spis[k].(level := b))];
      FilledIs(vspis[..], st.spis[k := st.spis[k].(level := b)]);
      assert Contexts() == st.vcpus;
      FollowSpis();
    }

    // ----- distributor bits

    method IsPending(v: nat, irq: nat) returns (b: bool)
      requires Valid() && v < |vcpus| && irq < NUM_IRQS
      ensures b == Pending(st, v, irq)
    {
      if irq < NUM_LOCAL_VIRQS {
        assert st.pending0[v] == Bits([dist.pendingSet0[v]], NUM_LOCAL_VIRQS);
        b := TestBit(dist.pendingSet0[v], irq % 32);
      } else {
        b := TestBit(dist.pendingSet[irq / 32], irq % 32);
      }
    }

    method IsEnabled(v: nat, irq: nat) returns (b: bool)
      requires Valid() && v < |vcpus| && irq < NUM_IRQS
      ensures b == Enabled(st, v, irq)
    {
      if irq < NUM_LOCAL_VIRQS {
        assert st.enabled0[v] == Bits([dist.enableSet0[v]], NUM_LOCAL_VIRQS);
        b := TestBit(dist.enableSet0[v], irq % 32);
      } else {
        b := TestBit(dist.enableSet[irq / 32], irq % 32);
      }
    }

    method MarkPending(v: nat, irq: nat, b: bool)
      requires Valid() && v < |vcpus| && irq < NUM_IRQS
      modifies this`st, dist
      ensures Valid() && st == SetPending(old(st), v, irq, b)
    {
      dist.SetPending(v, irq, b, |vcpus|);
      assert Contexts() == st.vcpus;
      st := SetPending(st, v, irq, b);
    }

    method MarkEnabled(v: nat, irq: nat, b: bool)
      requires Valid() && v < |vcpus| && irq < NUM_IRQS
      modifies this`st, dist
      ensures Valid() && st == SetEnabled(old(st), v, irq, b)
    {
      dist.SetEnable(v, irq, b, |vcpus|);
      assert Contexts() == st.vcpus;
      st := SetEnabled(st, v, irq, b);
    }

    // ----- operations

    /** The model follows a change of vCPU v. */
    ghost method Follow(v: nat)
      requires v < |vcpus| == |st.vcpus| && Sane() && Contexts() == st.vcpus[v := vcpus[v].Abs()] && st == Abs().(vcpus := st.vcpus)
      modifies this`st
      ensures Valid() && st == old(st).(vcpus := old(st.vcpus)[v := vcpus[v].Abs()])
    {
      st := st.(vcpus := Contexts());
    }

    method EnqueueAndLoad(v: nat, irq: nat) returns (ok: bool)
      requires Valid() && v < |vcpus|
      modifies this`st, Own(v)
      ensures Valid() && ok == !QueueFull(old(st), v)
      ensures ok ==> st == old(st).(vcpus := old(st.vcpus)[v := Deliver(old(st.vcpus)[v], irq)])
      ensures !ok ==> st == old(st)
    {
      ok := vcpus[v].EnqueueAndLoad(irq);
      assert Contexts() == st.vcpus[v := vcpus[v].Abs()];
      Follow(v);
      assert old(st.vcpus)[v := old(st.vcpus)[v]] == old(st.vcpus);
    }

    /** vm_inject_irq, vgic_dist_set_pending_irq */
    method Inject(v: nat, irq: nat) returns (ok: bool)
      requires Valid() && v < |vcpus| && irq < NUM_IRQS
      modifies this`st, dist, Own(v)
      ensures Valid() && Outcome(st, ok) == InjectIrq(old(st), v, irq)
    {
      var found := HasHandle(v, irq);
      var enabled := IsEnabled(v, irq);
      if !found || !dist.enable || !enabled {
        return false;
      }
      var pending := IsPending(v, irq);
      if pending {
        return true;
      }
      MarkPending(v, irq, true);
      ok := EnqueueAndLoad(v, irq);
    }

    /** vgic_irq_ack, once the acknowledge callback has returned */
    method HandleLevelOf(v: nat, irq: nat)
      requires Valid() && OnVcpu(st, v, irq) && Registered(st, v, irq)
      modifies this`st, dist, vspis, Own(v)
      ensures Valid() && st == HandleLevel(old(st), v, irq)
    {
      var level := GetLevel(v, irq);
      if !level {
        return;
      }
      if !dist.edge[irq] {
        var _ := Inject(v, irq);
      } else {
        SetLevel(v, irq, false);
      }
    }

    /** handle_vgic_maintenance */
    method Maintain(v: nat, idx: nat)
      requires Valid() && CanMaintain(st, v, idx)
      modifies this`st, dist, vspis, Own(v)
      ensures Valid() && st == MaintainLr(old(st), v, idx)
    {
      var irq := RetireFrom(v, idx);
      HandleLevelOf(v, irq);
      ReloadFrom(v, idx);
    }

    /** Free list register idx and clear its irq's pending bit. */
    method RetireFrom(v: nat, idx: nat) returns (irq: nat)
      requires Valid() && CanMaintain(st, v, idx)
      modifies this`st, dist, Own(v)
      ensures Valid() && irq == old(st.vcpus)[v].lr[idx].value && st == RetireLr(old(st), v, idx)
    {
      irq := vcpus[v].ClearListReg(idx);
      assert Contexts() == st.vcpus[v := vcpus[v].Abs()];
      Follow(v);
      MarkPending(v, irq, false);
    }

    /** Load list register idx from the overflow queue, if anything waits there. */
    method ReloadFrom(v: nat, idx: nat)
      requires Valid() && v < |vcpus| && idx < NUM_LIST_REGS
      modifies this`st, Own(v)
      ensures Valid() && st == Reload(old(st), v, idx)
    {
      vcpus[v].LoadNext(idx);
      assert Contexts() == st.vcpus[v := vcpus[v].Abs()];
      Follow(v);
      assert old(st.vcpus)[v := old(st.vcpus)[v]] == old(st.vcpus);
    }

    /** vm_set_irq_level */
    method SetIrqLine(v: nat, irq: nat, level: bool) returns (ok: bool)
      requires Valid() && v < |vcpus| && irq < NUM_IRQS
      modifies this`st, dist, vspis, Own(v)
      ensures Valid() && Outcome(st, ok) == SetIrqLevel(old(st), v, irq, level)
    {
      var found := HasHandle(v, irq);
      if !found {
        return false;
      }
      var before := GetLevel(v, irq);
      SetLevel(v, irq, level);
      if level && before != level {
        ok := Inject(v, irq);
      } else {
        ok := true;
      }
    }

    /** vgic_dist_enable_irq */
    method Enable(v: nat, irq: nat)
      requires Valid() && v < |vcpus| && irq < NUM_IRQS
      modifies this`st, dist, vspis, Own(v)
      ensures Valid() && st == EnableIrq(old(st), v, irq)
    {
      MarkEnabled(v, irq, true);
      var found := HasHandle(v, irq);
      if found {
        var pending := IsPending(v, irq);
        if !pending {
          HandleLevelOf(v, irq);
        }
      }
    }

    /** vgic_dist_disable_irq */
    method Disable(v: nat, irq: nat)
      requires Valid() && v < |vcpus| && irq < NUM_IRQS
      modifies this`st, dist
      ensures Valid() && st == DisableIrq(old(st), v, irq)
    {
      if irq >= NUM_SGI_VIRQS {
        MarkEnabled(v, irq, false);
      }
    }

    /** vm_register_irq */
    method Register(v: nat, irq: nat) returns (ok: bool)
      requires Valid() && v < |vcpus| && irq < NUM_IRQS
      modifies this`st, vspis, vcpus[v].localVirqs
      ensures Valid() && Outcome(st, ok) == RegisterIrq(old(st), v, irq)
    {
      if irq < NUM_LOCAL_VIRQS {
        if vcpus[v].localVirqs[irq].Some? {
          return false;
        }
        vcpus[v].SetLocal(irq, false);
        assert Contexts() == st.vcpus[v := vcpus[v].Abs()];
        st := st.(vcpus := Contexts());
        return true;
      }
      ok := AddSpi(irq);
    }

    /** virq_spi_add: take the first free slot. */
    method AddSpi(irq: nat) returns (ok: bool)
      requires Valid()
      modifies this`st, vspis
      ensures Valid() && ok == (|old(st.spis)| < NUM_SLOTS_SPI_VIRQ)
      ensures st == if ok then old(st).(spis := old(st.spis) + [Spi(irq, false)]) else old(st)
    {
      ghost var spis, before := Filled(vspis[..]), vspis[..];
      for i := 0 to vspis.Length
        invariant i <= |spis| && vspis[..] == before && st == old(st)
      {
        if vspis[i].None? {
          assert before[i] == vspis[i];
          vspis[i] := Some(Spi(irq, false));
          assert vspis[..] == before[i := Some(Spi(irq, false))];
          FilledIs(vspis[..], spis + [Spi(irq, false)]);
          assert Contexts() == st.vcpus;
          FollowSpis();
          return true;
        }
      }
      ok := false;
    }

    method DoBit(op: WordOp, v: nat, irq: nat)
      requires Valid() && v < |vcpus| && irq < NUM_IRQS
      modifies this`st, dist, vspis, Own(v)
      ensures Valid() && st == ApplyBit(old(st), op, v, irq)
    {
      match op
      case EnableBits => Enable(v, irq);
      case DisableBits => Disable(v, irq);
      case PendBits => var _ := Inject(v, irq);
      case UnpendBits => MarkPending(v, irq, false);
    }

    /** The lowest set bit is acted on and cleared. */
    method TakeBit(op: WordOp, v: nat, base: nat, data: nat) returns (rest: nat, ghost bit: nat)
      requires Valid() && v < |vcpus| && base + 32 <= NUM_IRQS && 0 < data < Pow2(32)
      modifies this`st, dist, vspis, Own(v)
      ensures Valid() && LowestBit(data, bit) && rest == ClearBit(data, bit) && rest < data
      ensures old(Shape(st)) && v < |old(st).vcpus| == |vcpus| && st == ApplyBit(old(st), op, v, base + bit)
    {
      var low;
      low, rest := SplitLowest(data);
      bit := low;
      DoBit(op, v, base + low);
    }

    /** One turn of the write loop; `goal` is where it leads. */
    method TakeLowest(op: WordOp, v: nat, base: nat, data: nat, ghost goal: State) returns (rest: nat)
      requires Valid() && v < |vcpus| && base + 32 <= NUM_IRQS && 0 < data < Pow2(32)
      requires goal == ApplyWord(st, op, v, base, data, 0)
      modifies this`st, dist, vspis, Own(v)
      ensures Valid() && |st.vcpus| == |vcpus| && rest < data
      ensures goal == ApplyWord(st, op, v, base, rest, 0)
    {
      ghost var before := st;
      ghost var bit;
      rest, bit := TakeBit(op, v, base, data);
      LowestBitOn(before, op, v, base, data, bit, st, rest, goal);
    }

    /** A guest write to a set- or clear-register word: the written bits are taken lowest first. */
    method WriteBits(op: WordOp, v: nat, word: nat, data: nat)
      requires Valid() && v < |vcpus| && word < 31 && data < Pow2(32)
      modifies this`st, dist, vspis, Own(v)
      ensures Valid() && st == ApplyWord(old(st), op, v, 32 * word, data, 0)
    {
      ghost var goal := ApplyWord(st, op, v, 32 * word, data, 0);
      var rest: nat := data;
      while rest != 0
        invariant Valid() && |st.vcpus| == |vcpus| && rest < Pow2(32) && goal == ApplyWord(st, op, v, 32 * word, rest, 0)
        decreases rest
      {
        rest := TakeLowest(op, v, 32 * word, rest, goal);
      }
      NoBitsNoChange(st, op, v, 32 * word, 0);
    }
  }

  /** A controller for `n` vCPUs: no interrupt registered, the distributor reset. */
  method NewController(n: nat) returns (c: VgicController)
    ensures fresh(c) && fresh(c.dist) && fresh(c.vspis) && |c.vcpus| == n
    ensures c.Valid() && c.st == Reset(n)
    ensures forall v | 0 <= v < n :: fresh(c.vcpus[v])
  {
    var d := new GicDist(n);
    var slots := NewSlots();
    var cs := NewVcpus(n);
    c := new VgicController(d, slots, cs);
  }

  // ----- what a register write means

  datatype WordOp = EnableBits | DisableBits | PendBits | UnpendBits

  function ApplyBit(s: State, op: WordOp, v: nat, irq: nat): (r: State)
    requires OnVcpu(s, v, irq)
    ensures Shape(r) && |r.vcpus| == |s.vcpus|
  {
    match op
    case EnableBits => EnableIrq(s, v, irq)
    case DisableBits => DisableIrq(s, v, irq)
    case PendBits => InjectIrq(s, v, irq).state
    case UnpendBits => SetPending(s, v, irq, false)
  }

  /** The operation applied to every set bit of data from bit i up, in ascending order. */
  function ApplyWord(s: State, op: WordOp, v: nat, base: nat, data: nat, i: nat): (r: State)
    requires Shape(s) && v < |s.vcpus| && base + 32 <= NUM_IRQS && i <= 32
    decreases 32 - i, data
  {
    if i == 32 then s
    else ApplyWord(if TestBit(data, i) then ApplyBit(s, op, v, base + i) else s, op, v, base, data, i + 1)
  }

  lemma {:induction false} SkipClearBits(s: State, op: WordOp, v: nat, base: nat, data: nat, i: nat, j: nat)
    requires Shape(s) && v < |s.vcpus| && base + 32 <= NUM_IRQS && i <= j <= 32
    requires forall k | i <= k < j :: !TestBit(data, k)
    ensures ApplyWord(s, op, v, base, data, i) == ApplyWord(s, op, v, base, data, j)
    decreases j - i
  {
    if i < j {
      SkipClearBits(s, op, v, base, data, i + 1, j);
    }
  }

  lemma {:induction false} SameUpperBits(s: State, op: WordOp, v: nat, base: nat, a: nat, b: nat, i: nat)
    requires Shape(s) && v < |s.vcpus| && base + 32 <= NUM_IRQS && i <= 32
    requires forall k | i <= k < 32 :: TestBit(a, k) == TestBit(b, k)
    ensures ApplyWord(s, op, v, base, a, i) == ApplyWord(s, op, v, base, b, i)
    decreases 32 - i
  {
    if i < 32 {
      SameUpperBits(if TestBit(a, i) then ApplyBit(s, op, v, base + i) else s, op, v, base, a, b, i + 1);
    }
  }

  predicate LowestBit(data: nat, bit: nat) {
    bit < 32 && TestBit(data, bit) && forall k | 0 <= k < bit :: !TestBit(data, k)
  }

  method SplitLowest(data: nat) returns (bit: nat, rest: nat)
    requires 0 < data < Pow2(32)
    ensures LowestBit(data, bit) && rest == ClearBit(data, bit) && rest < data
  {
    bit := Ctz(data);
    BitOpBounds(data, bit, 32);
    rest := ClearBit(data, bit);
  }

  lemma {:induction false} LowestBitOn(s: State, op: WordOp, v: nat, base: nat, data: nat, bit: nat, t: State, rest: nat, goal: State)
    requires Shape(s) && v < |s.vcpus| && base + 32 <= NUM_IRQS && LowestBit(data, bit)
    requires t == ApplyBit(s, op, v, base + bit) && rest == ClearBit(data, bit) && goal == ApplyWord(s, op, v, base, data, 0)
    ensures Shape(t) && |t.vcpus| == |s.vcpus| && goal == ApplyWord(t, op, v, base, rest, 0)
  {
    LowestBitFirst(s, op, v, base, data, bit);
  }

  /** Taking the lowest set bit and clearing it leaves the rest of the work the same. */
  lemma {:induction false} LowestBitFirst(s: State, op: WordOp, v: nat, base: nat, data: nat, bit: nat)
    requires Shape(s) && v < |s.vcpus| && base + 32 <= NUM_IRQS
    requires LowestBit(data, bit)
    ensures ApplyWord(s, op, v, base, data, 0) ==
            ApplyWord(ApplyBit(s, op, v, base + bit), op, v, base, ClearBit(data, bit), 0)
  {
    var rest, s1 := ClearBit(data, bit), ApplyBit(s, op, v, base + bit);
    forall k: nat ensures TestBit(rest, k) <==> k != bit && TestBit(data, k) { ClearBitTest(data, bit, k); }
    SkipClearBits(s, op, v, base, data, 0, bit);
    SameUpperBits(s1, op, v, base, data, rest, bit + 1);
    SkipClearBits(s1, op, v, base, rest, 0, bit + 1);
  }

  lemma {:induction false} NoBitsNoChange(s: State, op: WordOp, v: nat, base: nat, i: nat)
    requires Shape(s) && v < |s.vcpus| && base + 32 <= NUM_IRQS && i <= 32
    ensures ApplyWord(s, op, v, base, 0, i) == s
  {
    forall k: nat ensures !TestBit(0, k) { ZeroHasNoBits(k); }
    SkipClearBits(s, op, v, base, 0, i, 32);
  }
}
