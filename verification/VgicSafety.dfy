/** "Pending" and "where the handle sits" stay in step.  `Inv` is the invariant; for every event
    the lemmas below give the exact, checkable condition under which the code keeps it. */
module VgicSafety {
  import opened Common
  import opened VgicModel

  function Bit(b: bool): nat { if b then 1 else 0 }

  /** In how many list registers and queue slots of this vCPU irq sits. */
  function Count(c: Vcpu, irq: nat): nat {
    multiset(c.lr)[Some(irq)] + multiset(c.queue)[irq]
  }

  function Total(cs: seq<Vcpu>, irq: nat): nat {
    if cs == [] then 0 else Count(cs[0], irq) + Total(cs[1..], irq)
  }

  /** In how many places irq sits: of vCPU v for an SGI or PPI, of all vCPUs for an SPI. */
  function Places(s: State, v: nat, irq: nat): nat
    requires v < |s.vcpus|
  {
    if irq < NUM_LOCAL_VIRQS then Count(s.vcpus[v], irq) else Total(s.vcpus, irq)
  }

  predicate AllOccupied(c: Vcpu) {
    forall i | 0 <= i < |c.lr| :: c.lr[i].Some?
  }

  ghost predicate QueueWaitsForRegisters(s: State) {
    forall v | 0 <= v < |s.vcpus| ::
      && |s.vcpus[v].queue| < MAX_IRQ_QUEUE_LEN
      && (s.vcpus[v].queue != [] ==> AllOccupied(s.vcpus[v]))
  }

  ghost predicate HeldRegistered(s: State)
    requires Shape(s)
  {
    forall v, irq: nat | 0 <= v < |s.vcpus| && Count(s.vcpus[v], irq) > 0 ::
      irq < NUM_IRQS && Registered(s, v, irq)
  }

  ghost predicate PendingIffOnePlace(s: State)
    requires Shape(s)
  {
    forall v, irq | 0 <= v < |s.vcpus| && 0 <= irq < NUM_IRQS :: Places(s, v, irq) == Bit(Pending(s, v, irq))
  }

  ghost predicate Inv(s: State) {
    Shape(s) && QueueWaitsForRegisters(s) && HeldRegistered(s) && PendingIffOnePlace(s)
  }

  // ----- counting

  lemma {:induction false} EnqueueCount(c: Vcpu, irq: nat, x: nat)
    ensures Count(Enqueue(c, irq), x) == Count(c, x) + Bit(x == irq)
  {
  }

  /** Loading the head moves it; only an occupant of register i is lost. */
  lemma {:induction false} LoadHeadCount(c: Vcpu, i: nat, x: nat)
    requires i < |c.lr| && c.queue != []
    ensures Count(LoadHead(c, i), x) == Count(c, x) - Bit(c.lr[i] == Some(x))
  {
    assert c.queue == [c.queue[0]] + c.queue[1..];
  }

  lemma {:induction false} DeliverCount(c: Vcpu, irq: nat, x: nat)
    ensures Count(Deliver(c, irq), x) == Count(c, x) + Bit(x == irq)
  {
    var e := Enqueue(c, irq);
    EnqueueCount(c, irq, x);
    match FirstEmpty(e.lr)
    case None =>
    case Some(i) => LoadHeadCount(e, i, x);
  }

  lemma {:induction false} RetireCount(c: Vcpu, idx: nat, x: nat)
    requires idx < |c.lr| && c.lr[idx].Some?
    ensures Count(Retire(c, idx), x) == Count(c, x) - Bit(x == c.lr[idx].value)
    ensures Count(c, c.lr[idx].value) > 0
  {
    assert c.lr[idx] in multiset(c.lr);
  }

  lemma {:induction false} TotalUpdate(cs: seq<Vcpu>, v: nat, c: Vcpu, irq: nat)
    requires v < |cs|
    ensures Total(cs[v := c], irq) + Count(cs[v], irq) == Total(cs, irq) + Count(c, irq)
  {
    if v > 0 {
      assert cs[v := c][1..] == cs[1..][v - 1 := c];
      TotalUpdate(cs[1..], v - 1, c, irq);
    } else {
      assert cs[v := c][1..] == cs[1..];
    }
  }

  lemma {:induction false} TotalBounds(cs: seq<Vcpu>, v: nat, irq: nat)
    requires v < |cs|
    ensures Count(cs[v], irq) <= Total(cs, irq)
  {
    if v > 0 {
      TotalBounds(cs[1..], v - 1, irq);
    }
  }

  /** s' is s with vCPU v's record replaced by d and the pending bit of irq, seen from v, set to b. */
  ghost predicate Updates(s: State, s': State, v: nat, d: Vcpu, irq: nat, b: bool) {
    && OnVcpu(s, v, irq) && Shape(s') && s'.spis == s.spis
    && s'.vcpus == s.vcpus[v := d] && d.local == s.vcpus[v].local
    && (forall w, x | 0 <= w < |s.vcpus| && 0 <= x < NUM_IRQS ::
          Pending(s', w, x) == if x == irq && (irq >= NUM_LOCAL_VIRQS || w == v) then b else Pending(s, w, x))
  }

  /** The record's count of irq changes exactly as irq's pending bit does, other counts stay. */
  ghost predicate Balanced(c: Vcpu, d: Vcpu, irq: nat, before: bool, after: bool) {
    forall x: nat :: Count(d, x) + Bit(x == irq && before) == Count(c, x) + Bit(x == irq && after)
  }

  lemma {:induction false} UpdatePlaces(s: State, s': State, v: nat, d: Vcpu, irq: nat, b: bool, w: nat, x: nat)
    requires Updates(s, s', v, d, irq, b) && Balanced(s.vcpus[v], d, irq, Pending(s, v, irq), b)
    requires w < |s.vcpus| && x < NUM_IRQS && Places(s, w, x) == Bit(Pending(s, w, x))
    ensures Places(s', w, x) == Bit(Pending(s', w, x))
  {
    TotalUpdate(s.vcpus, v, d, x);
    assert Count(d, x) + Bit(x == irq && Pending(s, v, irq)) == Count(s.vcpus[v], x) + Bit(x == irq && b);
  }

  lemma {:induction false} UpdateRegistered(s: State, s': State, v: nat, d: Vcpu, irq: nat, b: bool, w: nat, x: nat)
    requires Updates(s, s', v, d, irq, b) && Balanced(s.vcpus[v], d, irq, Pending(s, v, irq), b)
    requires HeldRegistered(s) && (b ==> Registered(s, v, irq))
    requires w < |s.vcpus| && Count(s'.vcpus[w], x) > 0
    ensures x < NUM_IRQS && Registered(s', w, x)
  {
    assert Count(d, x) + Bit(x == irq && Pending(s, v, irq)) == Count(s.vcpus[v], x) + Bit(x == irq && b);
    if !(w == v && x == irq && b) {
      assert Count(s.vcpus[w], x) > 0;
    }
  }

  lemma {:induction false} UpdateKeeps(s: State, s': State, v: nat, d: Vcpu, irq: nat, b: bool)
    requires Updates(s, s', v, d, irq, b) && Balanced(s.vcpus[v], d, irq, Pending(s, v, irq), b)
    requires HeldRegistered(s) && PendingIffOnePlace(s) && (b ==> Registered(s, v, irq))
    ensures HeldRegistered(s') && PendingIffOnePlace(s')
  {
    forall w, x | 0 <= w < |s.vcpus| && 0 <= x < NUM_IRQS ensures Places(s', w, x) == Bit(Pending(s', w, x)) {
      UpdatePlaces(s, s', v, d, irq, b, w, x);
    }
    forall w, x: nat | 0 <= w < |s.vcpus| && Count(s'.vcpus[w], x) > 0 ensures x < NUM_IRQS && Registered(s', w, x) {
      UpdateRegistered(s, s', v, d, irq, b, w, x);
    }
  }

  // ----- the effect of the three state changes that matter

  lemma {:induction false} SetPendingUpdates(s: State, v: nat, d: Vcpu, irq: nat, b: bool)
    requires OnVcpu(s, v, irq) && VcpuShape(d) && d.local == s.vcpus[v].local
    ensures Updates(s, SetPending(s.(vcpus := s.vcpus[v := d]), v, irq, b), v, d, irq, b)
  {
  }

  lemma {:induction false} DeliverBalanced(c: Vcpu, irq: nat)
    ensures Balanced(c, Deliver(c, irq), irq, false, true)
  {
    forall x: nat ensures Count(Deliver(c, irq), x) + Bit(x == irq && false) == Count(c, x) + Bit(x == irq && true) {
      DeliverCount(c, irq, x);
    }
  }

  lemma {:induction false} RetireBalanced(c: Vcpu, idx: nat)
    requires idx < |c.lr| && c.lr[idx].Some?
    ensures Balanced(c, Retire(c, idx), c.lr[idx].value, true, false)
  {
    var irq := c.lr[idx].value;
    forall x: nat ensures Count(Retire(c, idx), x) + Bit(x == irq && true) == Count(c, x) + Bit(x == irq && false) {
      RetireCount(c, idx, x);
    }
  }

  /** Setting the pending bit of an irq that was not pending and delivering it keeps the invariant. */
  lemma {:induction false} DeliverKeeps(s: State, v: nat, irq: nat)
    requires Inv(s) && OnVcpu(s, v, irq) && Accepts(s, v, irq) && !QueueFull(s, v)
    ensures Inv(InjectIrq(s, v, irq).state)
  {
    var c := s.vcpus[v];
    var d := Deliver(c, irq);
    var r := InjectIrq(s, v, irq).state;
    assert r == SetPending(s.(vcpus := s.vcpus[v := d]), v, irq, true);
    DeliverBalanced(c, irq);
    SetPendingUpdates(s, v, d, irq, true);
    UpdateKeeps(s, r, v, d, irq, true);
    DeliverQueue(c, irq);
  }

  lemma {:induction false} DeliverQueue(c: Vcpu, irq: nat)
    requires c.queue != [] ==> AllOccupied(c)
    ensures var d := Deliver(c, irq);
            && |d.queue| <= |c.queue| + 1
            && (d.queue != [] ==> AllOccupied(d))
  {
    var e := Enqueue(c, irq);
    match FirstEmpty(e.lr)
    case None =>
    case Some(i) => assert c.queue == []; assert e.queue == [irq];
  }

  /** Retiring a list register keeps the invariant, except that the queue may now be able to move. */
  lemma {:induction false} RetireKeeps(s: State, v: nat, idx: nat)
    requires Inv(s) && CanMaintain(s, v, idx)
    ensures HeldRegistered(RetireLr(s, v, idx)) && PendingIffOnePlace(RetireLr(s, v, idx))
    ensures Pending(s, v, s.vcpus[v].lr[idx].value)
  {
    var c := s.vcpus[v];
    var irq := c.lr[idx].value;
    var d := Retire(c, idx);
    RetireCount(c, idx, irq);
    HeldOnce(s, v, irq);
    RetireBalanced(c, idx);
    SetPendingUpdates(s, v, d, irq, false);
    UpdateKeeps(s, RetireLr(s, v, idx), v, d, irq, false);
  }

  /** Reloading a free register from the queue keeps the correspondence. */
  lemma {:induction false} ReloadKeeps(s: State, v: nat, idx: nat)
    requires Shape(s) && v < |s.vcpus| && idx < NUM_LIST_REGS && s.vcpus[v].lr[idx].None?
    requires HeldRegistered(s) && PendingIffOnePlace(s)
    ensures HeldRegistered(Reload(s, v, idx)) && PendingIffOnePlace(Reload(s, v, idx))
  {
    var c := s.vcpus[v];
    if c.queue != [] {
      var irq := c.queue[0];
      var d := LoadHead(c, idx);
      assert irq in multiset(c.queue) && Count(c, irq) > 0;
      HeldOnce(s, v, irq);
      assert Balanced(c, d, irq, true, true) by {
        forall x: nat ensures Count(d, x) + Bit(x == irq && true) == Count(c, x) + Bit(x == irq && true) {
          LoadHeadCount(c, idx, x);
        }
      }
      UpdateKeeps(s, Reload(s, v, idx), v, d, irq, true);
    }
  }

  /** Every vCPU other than v has a waiting queue only if its registers are full; v may lack idx. */
  ghost predicate QueueWaitsButFor(s: State, v: nat, idx: nat)
    requires v < |s.vcpus|
  {
    && (forall w | 0 <= w < |s.vcpus| ::
          |s.vcpus[w].queue| < MAX_IRQ_QUEUE_LEN && (w != v && s.vcpus[w].queue != [] ==> AllOccupied(s.vcpus[w])))
    && (s.vcpus[v].queue != [] ==> forall i | 0 <= i < |s.vcpus[v].lr| && i != idx :: s.vcpus[v].lr[i].Some?)
  }

  lemma {:induction false} ReloadWaits(s: State, v: nat, idx: nat)
    requires Shape(s) && v < |s.vcpus| && idx < NUM_LIST_REGS && QueueWaitsButFor(s, v, idx)
    ensures QueueWaitsForRegisters(Reload(s, v, idx))
  {
  }

  lemma {:induction false} OnlyEmpty(lr: seq<Option<nat>>, idx: nat)
    requires idx < |lr| && lr[idx].None?
    requires forall i | 0 <= i < |lr| && i != idx :: lr[i].Some?
    ensures FirstEmpty(lr) == Some(idx)
  {
  }

  // ----- changes that move no handle

  /** No list register, queue or pending bit changes and no handle disappears. */
  ghost predicate SameDelivery(s: State, s': State) {
    && Shape(s) && Shape(s') && |s'.vcpus| == |s.vcpus|
    && s'.pending0 == s.pending0 && s'.pending == s.pending
    && (forall w | 0 <= w < |s.vcpus| :: s'.vcpus[w].lr == s.vcpus[w].lr && s'.vcpus[w].queue == s.vcpus[w].queue)
    && (forall w, x | 0 <= w < |s.vcpus| && 0 <= x < NUM_IRQS && Registered(s, w, x) :: Registered(s', w, x))
  }

  lemma {:induction false} TotalSame(cs: seq<Vcpu>, ds: seq<Vcpu>, irq: nat)
    requires |cs| == |ds|
    requires forall w | 0 <= w < |cs| :: cs[w].lr == ds[w].lr && cs[w].queue == ds[w].queue
    ensures Total(cs, irq) == Total(ds, irq)
  {
    if cs != [] {
      TotalSame(cs[1..], ds[1..], irq);
    }
  }

  lemma {:induction false} SameDeliveryKeeps(s: State, s': State)
    requires SameDelivery(s, s') && HeldRegistered(s) && PendingIffOnePlace(s)
    ensures HeldRegistered(s') && PendingIffOnePlace(s')
    ensures QueueWaitsForRegisters(s) ==> QueueWaitsForRegisters(s')
  {
    forall w, x | 0 <= w < |s.vcpus| && 0 <= x < NUM_IRQS ensures Places(s', w, x) == Bit(Pending(s', w, x)) {
      TotalSame(s.vcpus, s'.vcpus, x);
      assert Places(s, w, x) == Bit(Pending(s, w, x));
    }
    forall w, x: nat | 0 <= w < |s.vcpus| && Count(s'.vcpus[w], x) > 0 ensures x < NUM_IRQS && Registered(s', w, x) {
      assert Count(s.vcpus[w], x) > 0;
    }
  }

  /** Setting a line's level, as lookup sees it from everywhere. */
  lemma {:induction false} WithLevelSame(s: State, v: nat, irq: nat, b: bool)
    requires OnVcpu(s, v, irq) && Registered(s, v, irq)
    ensures SameDelivery(s, WithLevel(s, v, irq, b))
    ensures var r := WithLevel(s, v, irq, b);
            && r.on == s.on && r.enabled0 == s.enabled0 && r.enabled == s.enabled && r.edge == s.edge
            && Registered(r, v, irq) && Level(r, v, irq) == b
  {
    var r := WithLevel(s, v, irq, b);
    if irq >= NUM_LOCAL_VIRQS {
      forall x: nat ensures FindSpi(r.spis, x) == FindSpi(s.spis, x) {
        FindSpiSame(s.spis, r.spis, x);
      }
    }
  }

  lemma {:induction false} FindSpiSame(a: seq<Spi>, b: seq<Spi>, virq: nat)
    requires |a| == |b| && forall k | 0 <= k < |a| :: a[k].virq == b[k].virq
    ensures FindSpi(a, virq) == FindSpi(b, virq)
  {
    if a != [] {
      FindSpiSame(a[1..], b[1..], virq);
    }
  }

  lemma {:induction false} RegisterSame(s: State, v: nat, irq: nat)
    requires OnVcpu(s, v, irq)
    ensures SameDelivery(s, RegisterIrq(s, v, irq).state)
  {
    var r := RegisterIrq(s, v, irq).state;
    forall x: nat | FindSpi(s.spis, x).Some? ensures FindSpi(r.spis, x).Some? {
      var k := FindSpi(s.spis, x).value;
      assert r.spis[k] == s.spis[k];
    }
  }

  // ----- exact conditions, event by event

  /** An injection keeps the invariant unless it is accepted while the queue is full. */
  lemma {:induction false} InjectKeepsIff(s: State, v: nat, irq: nat)
    requires Inv(s) && OnVcpu(s, v, irq)
    ensures Inv(InjectIrq(s, v, irq).state) <==> !(Accepts(s, v, irq) && QueueFull(s, v))
  {
    var r := InjectIrq(s, v, irq).state;
    if Accepts(s, v, irq) {
      if QueueFull(s, v) {
        assert Places(r, v, irq) == Places(s, v, irq) == Bit(Pending(s, v, irq)) == 0;
        assert Pending(r, v, irq);
      } else {
        DeliverKeeps(s, v, irq);
      }
    }
  }

  /** After retiring irq, its line is still high, level-sensitive and deliverable. */
  predicate Reinjects(s: State, v: nat, irq: nat)
    requires OnVcpu(s, v, irq) && Registered(s, v, irq)
  {
    Level(s, v, irq) && !s.edge[irq] && s.on && Enabled(s, v, irq)
  }

  /** Maintenance keeps the invariant unless it re-injects a line that is still high while the
      overflow queue is not empty: the freed register is then loaded twice. */
  lemma {:induction false} MaintainKeepsIff(s: State, v: nat, idx: nat)
    requires Inv(s) && CanMaintain(s, v, idx)
    ensures Inv(MaintainLr(s, v, idx)) <==> !(Reinjects(s, v, s.vcpus[v].lr[idx].value) && s.vcpus[v].queue != [])
  {
    var irq := s.vcpus[v].lr[idx].value;
    RetireKeeps(s, v, idx);
    if !Reinjects(s, v, irq) {
      MaintainWithoutReinjection(s, v, idx);
    } else if s.vcpus[v].queue == [] {
      MaintainReinjects(s, v, idx);
    } else {
      MaintainLoses(s, v, idx);
    }
  }

  lemma {:induction false} LevelAfterRetire(s: State, v: nat, idx: nat)
    requires Inv(s) && CanMaintain(s, v, idx) && !Reinjects(s, v, s.vcpus[v].lr[idx].value)
    ensures var irq, r := s.vcpus[v].lr[idx].value, RetireLr(s, v, idx);
            HandleLevel(r, v, irq) == r || HandleLevel(r, v, irq) == WithLevel(r, v, irq, false)
  {
  }

  /** A state in which list register idx of vCPU v is the only one that may be empty behind a queue. */
  ghost predicate InvBut(s: State, v: nat, idx: nat) {
    && Shape(s) && v < |s.vcpus| && idx < NUM_LIST_REGS && s.vcpus[v].lr[idx].None?
    && QueueWaitsButFor(s, v, idx) && HeldRegistered(s) && PendingIffOnePlace(s)
  }

  lemma {:induction false} RetiredInvBut(s: State, v: nat, idx: nat)
    requires Inv(s) && CanMaintain(s, v, idx)
    ensures InvBut(RetireLr(s, v, idx), v, idx)
  {
    RetireKeeps(s, v, idx);
  }

  lemma {:induction false} SameInvBut(s: State, s': State, v: nat, idx: nat)
    requires InvBut(s, v, idx) && SameDelivery(s, s')
    ensures InvBut(s', v, idx)
  {
    SameDeliveryKeeps(s, s');
  }

  lemma {:induction false} ReloadedInv(s: State, v: nat, idx: nat)
    requires InvBut(s, v, idx)
    ensures Inv(Reload(s, v, idx))
  {
    ReloadKeeps(s, v, idx);
    ReloadWaits(s, v, idx);
  }

  lemma {:induction false} MaintainWithoutReinjection(s: State, v: nat, idx: nat)
    requires Inv(s) && CanMaintain(s, v, idx) && !Reinjects(s, v, s.vcpus[v].lr[idx].value)
    ensures Inv(MaintainLr(s, v, idx))
  {
    var irq := s.vcpus[v].lr[idx].value;
    var r := RetireLr(s, v, idx);
    var q := HandleLevel(r, v, irq);
    RetiredInvBut(s, v, idx);
    LevelAfterRetire(s, v, idx);
    if q != r {
      WithLevelSame(r, v, irq, false);
      SameInvBut(r, q, v, idx);
    }
    ReloadedInv(q, v, idx);
  }

  lemma {:induction false} MaintainReinjects(s: State, v: nat, idx: nat)
    requires Inv(s) && CanMaintain(s, v, idx)
    requires Reinjects(s, v, s.vcpus[v].lr[idx].value) && s.vcpus[v].queue == []
    ensures Inv(MaintainLr(s, v, idx))
  {
    var irq := s.vcpus[v].lr[idx].value;
    var r := RetireLr(s, v, idx);
    RetireKeeps(s, v, idx);
    assert Inv(r);
    DeliverKeeps(r, v, irq);
    var q := HandleLevel(r, v, irq);
    assert q == InjectIrq(r, v, irq).state;
    assert q.vcpus[v] == Deliver(r.vcpus[v], irq);
    assert r.vcpus[v].lr[idx].None?;
    assert q.vcpus[v].queue == [];
  }

  /** The queue head, or the re-injected irq if the queue was full, stays pending but sits nowhere. */
  lemma {:induction false} MaintainLoses(s: State, v: nat, idx: nat)
    requires Inv(s) && CanMaintain(s, v, idx)
    requires Reinjects(s, v, s.vcpus[v].lr[idx].value) && s.vcpus[v].queue != []
    ensures var r := MaintainLr(s, v, idx);
            var lost := if QueueFull(s, v) then s.vcpus[v].lr[idx].value else s.vcpus[v].queue[0];
            lost < NUM_IRQS && Pending(r, v, lost) && Places(r, v, lost) == 0
  {
    var c := s.vcpus[v];
    var irq, head := c.lr[idx].value, c.queue[0];
    var r := RetireLr(s, v, idx);
    RetireKeeps(s, v, idx);
    var q := HandleLevel(r, v, irq);
    assert q == InjectIrq(r, v, irq).state;
    var m := MaintainLr(s, v, idx);
    if QueueFull(s, v) {
      assert q.vcpus == r.vcpus;
      assert Places(r, v, irq) == 0;
      LoadHeadCount(r.vcpus[v], idx, irq);
      TotalUpdate(q.vcpus, v, m.vcpus[v], irq);
    } else {
      MaintainLosesHead(s, v, idx);
    }
  }

  /** Loading the freed register twice drops the first of the two handles. */
  lemma {:induction false} DoubleLoadCount(c: Vcpu, idx: nat, irq: nat)
    requires idx < |c.lr| && c.lr[idx].None? && c.queue != [] && irq != c.queue[0]
    ensures var e := Enqueue(c, irq);
            Count(LoadHead(LoadHead(e, idx), idx), c.queue[0]) == Count(c, c.queue[0]) - 1
  {
    var e, head := Enqueue(c, irq), c.queue[0];
    EnqueueCount(c, irq, head);
    LoadHeadCount(e, idx, head);
    LoadHeadCount(LoadHead(e, idx), idx, head);
  }

  lemma {:induction false} MaintainDoubleLoads(s: State, v: nat, idx: nat)
    requires CanMaintain(s, v, idx) && AllOccupied(s.vcpus[v])
    requires Reinjects(s, v, s.vcpus[v].lr[idx].value) && s.vcpus[v].queue != [] && !QueueFull(s, v)
    ensures var irq := s.vcpus[v].lr[idx].value;
            var r := RetireLr(s, v, idx);
            MaintainLr(s, v, idx) ==
              SetPending(r.(vcpus := r.vcpus[v := LoadHead(LoadHead(Enqueue(r.vcpus[v], irq), idx), idx)]), v, irq, true)
  {
    var irq := s.vcpus[v].lr[idx].value;
    var r := RetireLr(s, v, idx);
    var q := HandleLevel(r, v, irq);
    assert q == InjectIrq(r, v, irq).state;
    var e := Enqueue(r.vcpus[v], irq);
    OnlyEmpty(e.lr, idx);
    assert q.vcpus[v] == LoadHead(e, idx);
  }

  lemma {:induction false} VanishesFrom(s: State, v: nat, d: Vcpu, irq: nat, x: nat)
    requires OnVcpu(s, v, irq) && x < NUM_IRQS && VcpuShape(d)
    requires Pending(s, v, x) && Places(s, v, x) == 1 == Count(s.vcpus[v], x) && Count(d, x) == 0
    ensures var r := SetPending(s.(vcpus := s.vcpus[v := d]), v, irq, true);
            Pending(r, v, x) && Places(r, v, x) == 0
  {
    TotalUpdate(s.vcpus, v, d, x);
  }

  lemma {:induction false} HeldOnce(s: State, v: nat, x: nat)
    requires Shape(s) && HeldRegistered(s) && PendingIffOnePlace(s)
    requires v < |s.vcpus| && Count(s.vcpus[v], x) > 0
    ensures x < NUM_IRQS && Pending(s, v, x) && Places(s, v, x) == 1 == Count(s.vcpus[v], x)
  {
    TotalBounds(s.vcpus, v, x);
    assert Places(s, v, x) == Bit(Pending(s, v, x));
  }

  lemma {:induction false} MaintainLosesHead(s: State, v: nat, idx: nat)
    requires Inv(s) && CanMaintain(s, v, idx)
    requires Reinjects(s, v, s.vcpus[v].lr[idx].value) && s.vcpus[v].queue != [] && !QueueFull(s, v)
    ensures var r := MaintainLr(s, v, idx);
            var head := s.vcpus[v].queue[0];
            head < NUM_IRQS && Pending(r, v, head) && Places(r, v, head) == 0
  {
    var irq, head := s.vcpus[v].lr[idx].value, s.vcpus[v].queue[0];
    var r := RetireLr(s, v, idx);
    RetireKeeps(s, v, idx);
    var d := r.vcpus[v];
    assert d.queue == s.vcpus[v].queue && d.lr[idx].None?;
    assert head in multiset(d.queue) && Count(d, head) > 0;
    HeldOnce(r, v, head);
    assert !Pending(r, v, irq);
    DoubleLoadCount(d, idx, irq);
    VanishesFrom(r, v, LoadHead(LoadHead(Enqueue(d, irq), idx), idx), irq, head);
    MaintainDoubleLoads(s, v, idx);
  }
}
