/** How many interrupts a vCPU can have registered before the overflow queue can run full, and what
    becomes of an interrupt that is pending but sits nowhere. */
module VgicCapacity {
  import opened Common
  import opened VgicModel
  import opened VgicSafety
  import opened VgicRuns

  /** 63 usable queue slots and 4 list registers. */
  const CAPACITY: nat := MAX_IRQ_QUEUE_LEN - 1 + NUM_LIST_REGS

  /** The distinct virqs registered for vCPU v: its own SGIs and PPIs, and every SPI. */
  function Visible(s: State, v: nat): set<nat>
    requires Shape(s) && v < |s.vcpus|
  {
    set irq | 0 <= irq < NUM_IRQS && Registered(s, v, irq)
  }

  lemma {:induction false} DistinctFit(q: seq<nat>, all: set<nat>)
    requires forall x: nat :: multiset(q)[x] <= 1
    requires forall i | 0 <= i < |q| :: q[i] in all
    ensures |q| <= |all|
  {
    if q != [] {
      var n := |q| - 1;
      var rest, last := q[..n], q[n];
      assert q == rest + [last];
      assert multiset(q) == multiset(rest) + multiset{last};
      assert last !in rest by { assert multiset(q)[last] <= 1; }
      forall x: nat ensures multiset(rest)[x] <= 1 { assert multiset(q)[x] <= 1; }
      forall i | 0 <= i < n ensures rest[i] in all - {last} { assert rest[i] == q[i] && rest[i] in rest; }
      DistinctFit(rest, all - {last});
    }
  }

  /** With at most 67 virqs registered for it, a vCPU's queue is never full when an injection is
      accepted: the queue, the registers and the new irq would hold 68 distinct virqs. */
  lemma {:induction false} NeverFull(s: State, v: nat, irq: nat)
    requires Inv(s) && OnVcpu(s, v, irq) && |Visible(s, v)| <= CAPACITY
    ensures !(Accepts(s, v, irq) && QueueFull(s, v))
  {
    if Accepts(s, v, irq) && QueueFull(s, v) {
      var c := s.vcpus[v];
      assert AllOccupied(c);
      var held: seq<nat> := AllHeld(c, irq);
      forall x: nat ensures multiset(held)[x] <= 1 && (x in held ==> x in Visible(s, v)) {
        HeldVisible(s, v, irq, x);
        assert x in held <==> multiset(held)[x] > 0;
      }
      DistinctFit(held, Visible(s, v));
      assert false;
    }
  }

  lemma {:induction false} AllHeld(c: Vcpu, irq: nat) returns (held: seq<nat>)
    requires |c.lr| == NUM_LIST_REGS && AllOccupied(c)
    ensures |held| == NUM_LIST_REGS + |c.queue| + 1
    ensures forall x: nat :: multiset(held)[x] == Count(c, x) + Bit(x == irq)
  {
    held := Values(c.lr) + c.queue + [irq];
    forall x: nat ensures multiset(held)[x] == Count(c, x) + Bit(x == irq) {
      ValuesCount(c.lr, x);
    }
  }

  function Values(lr: seq<Option<nat>>): (r: seq<nat>)
    requires forall i | 0 <= i < |lr| :: lr[i].Some?
    ensures |r| == |lr|
  {
    if lr == [] then [] else [lr[0].value] + Values(lr[1..])
  }

  lemma {:induction false} ValuesCount(lr: seq<Option<nat>>, x: nat)
    requires forall i | 0 <= i < |lr| :: lr[i].Some?
    ensures multiset(Values(lr))[x] == multiset(lr)[Some(x)]
  {
    if lr != [] {
      assert lr == [lr[0]] + lr[1..];
      ValuesCount(lr[1..], x);
    }
  }

  lemma {:induction false} HeldVisible(s: State, v: nat, irq: nat, x: nat)
    requires Inv(s) && OnVcpu(s, v, irq) && Accepts(s, v, irq)
    ensures Count(s.vcpus[v], x) + Bit(x == irq) <= 1
    ensures Count(s.vcpus[v], x) + Bit(x == irq) > 0 ==> x in Visible(s, v)
  {
    if Count(s.vcpus[v], x) > 0 {
      HeldOnce(s, v, x);
    }
  }

  /** The part of the exact condition that capacity does not settle: no guest clearing of pending
      bits, and no line still high when it is retired with interrupts queued behind it. */
  predicate Tame(s: State, e: Event)
    requires CanHappen(s, e)
  {
    e.Maintain? || e.ClearPending? ==> Good(s, e)
  }

  predicate TameRun(s: State, es: seq<Event>)
    requires CanRun(s, es)
    decreases |es|
  {
    es == [] || (Tame(s, es[0]) && TameRun(Step(s, es[0]), es[1..]))
  }

  lemma {:induction false} InjectHandles(s: State, v: nat, irq: nat)
    requires OnVcpu(s, v, irq)
    ensures var r := InjectIrq(s, v, irq).state;
            r.spis == s.spis && |r.vcpus| == |s.vcpus| && forall w | 0 <= w < |s.vcpus| :: r.vcpus[w].local == s.vcpus[w].local
  {
  }

  /** Registered handles stay registered. */
  lemma {:induction false} StepRegistered(s: State, e: Event, v: nat, x: nat)
    requires CanHappen(s, e) && OnVcpu(s, v, x) && Registered(s, v, x)
    ensures OnVcpu(Step(s, e), v, x) && Registered(Step(s, e), v, x)
  {
    match e
    case Register(w, irq) => RegisterSame(s, w, irq);
    case Inject(w, irq) => InjectHandles(s, w, irq);
    case SetLevel(w, irq, b) => SetLevelRegistered(s, w, irq, b, v, x);
    case Enable(w, irq) => EnableRegistered(s, w, irq, v, x);
    case Maintain(w, idx) => MaintainRegistered(s, w, idx, v, x);
    case _ =>
  }

  lemma {:induction false} SetLevelRegistered(s: State, w: nat, irq: nat, b: bool, v: nat, x: nat)
    requires OnVcpu(s, w, irq) && OnVcpu(s, v, x) && Registered(s, v, x)
    ensures var r := SetIrqLevel(s, w, irq, b).state;
            OnVcpu(r, v, x) && Registered(r, v, x)
  {
    if Registered(s, w, irq) {
      WithLevelSame(s, w, irq, b);
      InjectHandles(WithLevel(s, w, irq, b), w, irq);
    }
  }

  lemma {:induction false} EnableRegistered(s: State, w: nat, irq: nat, v: nat, x: nat)
    requires OnVcpu(s, w, irq) && OnVcpu(s, v, x) && Registered(s, v, x)
    ensures OnVcpu(EnableIrq(s, w, irq), v, x) && Registered(EnableIrq(s, w, irq), v, x)
  {
    if Registered(s, w, irq) {
      HandleLevelRegistered(SetEnabled(s, w, irq, true), w, irq, v, x);
    }
  }

  lemma {:induction false} MaintainRegistered(s: State, w: nat, idx: nat, v: nat, x: nat)
    requires CanMaintain(s, w, idx) && OnVcpu(s, v, x) && Registered(s, v, x)
    ensures OnVcpu(MaintainLr(s, w, idx), v, x) && Registered(MaintainLr(s, w, idx), v, x)
  {
    HandleLevelRegistered(RetireLr(s, w, idx), w, s.vcpus[w].lr[idx].value, v, x);
  }

  lemma {:induction false} HandleLevelRegistered(s: State, w: nat, irq: nat, v: nat, x: nat)
    requires OnVcpu(s, w, irq) && Registered(s, w, irq) && OnVcpu(s, v, x) && Registered(s, v, x)
    ensures OnVcpu(HandleLevel(s, w, irq), v, x) && Registered(HandleLevel(s, w, irq), v, x)
  {
    WithLevelSame(s, w, irq, false);
    InjectHandles(s, w, irq);
  }

  lemma {:induction false} RunRegistered(s: State, es: seq<Event>, v: nat)
    requires Shape(s) && v < |s.vcpus| && CanRun(s, es)
    ensures Shape(Run(s, es)) && v < |Run(s, es).vcpus| && Visible(s, v) <= Visible(Run(s, es), v)
    decreases |es|
  {
    if es != [] {
      var r := Step(s, es[0]);
      SameVcpus(s, es[0]);
      forall x | x in Visible(s, v) ensures x in Visible(r, v) { StepRegistered(s, es[0], v, x); }
      RunRegistered(r, es[1..], v);
    }
  }

  lemma {:induction false} SameVcpus(s: State, e: Event)
    requires CanHappen(s, e)
    ensures |Step(s, e).vcpus| == |s.vcpus|
  {
  }

  lemma {:induction false} SubsetCard(a: set<nat>, b: set<nat>)
    requires a <= b
    ensures |a| <= |b|
  {
    assert b == a + (b - a);
  }

  /** If in the end no vCPU has more than 67 virqs registered, enqueueing never failed on the way and
      the invariant held throughout. */
  lemma {:induction false} CapacityRun(s: State, es: seq<Event>)
    requires Inv(s) && CanRun(s, es) && TameRun(s, es)
    requires Shape(Run(s, es)) && forall v | 0 <= v < |Run(s, es).vcpus| :: |Visible(Run(s, es), v)| <= CAPACITY
    ensures GoodRun(s, es) && Inv(Run(s, es))
    decreases |es|
  {
    if es != [] {
      var e := es[0];
      assert Good(s, e) by {
        if e.Inject? || e.SetLevel? || e.Enable? {
          RunRegistered(s, es, e.v);
          SubsetCard(Visible(s, e.v), Visible(Run(s, es), e.v));
          if e.Enable? {
            EnableNeverFull(s, e.v, e.irq);
          } else {
            NeverFull(s, e.v, e.irq);
          }
        }
      }
      StepKeepsIff(s, e);
      CapacityRun(Step(s, e), es[1..]);
    }
  }

  lemma {:induction false} EnableNeverFull(s: State, v: nat, irq: nat)
    requires Inv(s) && OnVcpu(s, v, irq) && |Visible(s, v)| <= CAPACITY
    ensures Good(s, Enable(v, irq))
  {
    var s1 := SetEnabled(s, v, irq, true);
    assert SameDelivery(s, s1);
    SameDeliveryKeeps(s, s1);
    assert Visible(s1, v) == Visible(s, v);
    NeverFull(s1, v, irq);
  }

  // ----- the bound is tight

  function Occupied(lr: seq<Option<nat>>): nat {
    if lr == [] then 0 else (if lr[0].Some? then 1 else 0) + Occupied(lr[1..])
  }

  function Held(c: Vcpu): nat { Occupied(c.lr) + |c.queue| }

  lemma {:induction false} OccupiedUpdate(lr: seq<Option<nat>>, i: nat, x: nat)
    requires i < |lr| && lr[i].None?
    ensures Occupied(lr[i := Some(x)]) == Occupied(lr) + 1
  {
    if i > 0 {
      assert lr[i := Some(x)][1..] == lr[1..][i - 1 := Some(x)];
      OccupiedUpdate(lr[1..], i - 1, x);
    } else {
      assert lr[i := Some(x)][1..] == lr[1..];
    }
  }

  lemma {:induction false} OccupiedBound(lr: seq<Option<nat>>)
    ensures Occupied(lr) <= |lr|
  {
    if lr != [] {
      OccupiedBound(lr[1..]);
    }
  }

  lemma {:induction false} DeliverHeld(c: Vcpu, irq: nat)
    ensures Held(Deliver(c, irq)) == Held(c) + 1
  {
    var e := Enqueue(c, irq);
    match FirstEmpty(e.lr)
    case None =>
    case Some(i) => OccupiedUpdate(e.lr, i, e.queue[0]);
  }

  function Injections(v: nat, irqs: seq<nat>): seq<Event> {
    if irqs == [] then [] else [Inject(v, irqs[0])] + Injections(v, irqs[1..])
  }

  predicate Distinct(irqs: seq<nat>) {
    forall i, j | 0 <= i < j < |irqs| :: irqs[i] != irqs[j]
  }

  /** The run is good, and injecting `last` after it would be accepted with the queue full. */
  predicate EndsFull(s: State, es: seq<Event>, v: nat, last: nat) {
    && CanRun(s, es) && GoodRun(s, es) && OnVcpu(Run(s, es), v, last)
    && Accepts(Run(s, es), v, last) && QueueFull(Run(s, es), v)
  }

  predicate AllAccepted(s: State, v: nat, irqs: seq<nat>) {
    && Shape(s) && v < |s.vcpus|
    && forall i | 0 <= i < |irqs| :: irqs[i] < NUM_IRQS && Accepts(s, v, irqs[i])
  }

  /** Injecting distinct acceptable irqs until 67 handles are held goes well, and one more, still
      acceptable, finds the queue full. */
  lemma {:induction false} FillsUp(s: State, v: nat, irqs: seq<nat>, last: nat)
    requires Inv(s) && AllAccepted(s, v, irqs + [last]) && Distinct(irqs + [last])
    requires Held(s.vcpus[v]) + |irqs| == CAPACITY
    ensures EndsFull(s, Injections(v, irqs), v, last)
    decreases |irqs|
  {
    if irqs == [] {
      OccupiedBound(s.vcpus[v].lr);
      assert (irqs + [last])[0] == last;
    } else {
      assert (irqs + [last])[0] == irqs[0];
      var r := InjectIrq(s, v, irqs[0]).state;
      var rest := irqs[1..];
      assert (irqs + [last])[1..] == rest + [last];
      FillStep(s, v, irqs + [last]);
      FillsUp(r, v, rest, last);
      EndsFullFrom(s, Injections(v, irqs), v, last);
    }
  }

  lemma {:induction false} EndsFullFrom(s: State, es: seq<Event>, v: nat, last: nat)
    requires es != [] && CanHappen(s, es[0]) && Good(s, es[0]) && EndsFull(Step(s, es[0]), es[1..], v, last)
    ensures EndsFull(s, es, v, last)
  {
  }

  lemma {:induction false} FillStep(s: State, v: nat, irqs: seq<nat>)
    requires Inv(s) && |irqs| > 0 && AllAccepted(s, v, irqs) && Distinct(irqs) && Held(s.vcpus[v]) < CAPACITY
    ensures var r := InjectIrq(s, v, irqs[0]).state;
            && Good(s, Inject(v, irqs[0])) && Inv(r) && Held(r.vcpus[v]) == Held(s.vcpus[v]) + 1
            && AllAccepted(r, v, irqs[1..])
  {
    var irq, rest := irqs[0], irqs[1..];
    var r := InjectIrq(s, v, irq).state;
    HeldBelowFull(s, v);
    InjectKeepsIff(s, v, irq);
    DeliverHeld(s.vcpus[v], irq);
    forall i | 0 <= i < |rest| ensures rest[i] < NUM_IRQS && Accepts(r, v, rest[i]) {
      assert rest[i] == irqs[i + 1] && irqs[0] != irqs[i + 1];
      InjectLeavesOthers(s, v, irq, rest[i]);
    }
  }

  lemma {:induction false} HeldBelowFull(s: State, v: nat)
    requires Inv(s) && v < |s.vcpus| && Held(s.vcpus[v]) < CAPACITY
    ensures !QueueFull(s, v)
  {
    var c := s.vcpus[v];
    AllOccupiedCount(c.lr);
    assert c.queue != [] ==> AllOccupied(c);
  }

  lemma {:induction false} AllOccupiedCount(lr: seq<Option<nat>>)
    ensures (forall i | 0 <= i < |lr| :: lr[i].Some?) ==> Occupied(lr) == |lr|
  {
    if lr != [] {
      AllOccupiedCount(lr[1..]);
      if forall i | 0 <= i < |lr| :: lr[i].Some? {
        forall i | 0 <= i < |lr[1..]| ensures lr[1..][i].Some? { assert lr[1..][i] == lr[i + 1]; }
      }
    }
  }

  lemma {:induction false} InjectLeavesOthers(s: State, v: nat, irq: nat, x: nat)
    requires OnVcpu(s, v, irq) && OnVcpu(s, v, x) && x != irq && Accepts(s, v, x)
    ensures Accepts(InjectIrq(s, v, irq).state, v, x)
  {
    InjectHandles(s, v, irq);
  }

  // ----- a lost interrupt stays lost

  /** Pending, but in no list register and no queue. */
  predicate Lost(s: State, v: nat, irq: nat) {
    OnVcpu(s, v, irq) && Pending(s, v, irq) && Places(s, v, irq) == 0
  }

  lemma {:induction false} MarkLost(s: State, w: nat, x: nat, v: nat, irq: nat)
    requires Lost(s, v, irq) && OnVcpu(s, w, x)
    ensures Lost(SetPending(s, w, x, true), v, irq)
  {
  }

  /** A delivery of another interrupt, or of the same to another vCPU. */
  lemma {:induction false} DeliverLost(s: State, w: nat, x: nat, v: nat, irq: nat)
    requires Lost(s, v, irq) && OnVcpu(s, w, x) && (x == irq ==> x < NUM_LOCAL_VIRQS && w != v)
    ensures Lost(s.(vcpus := s.vcpus[w := Deliver(s.vcpus[w], x)]), v, irq)
  {
    var d := Deliver(s.vcpus[w], x);
    DeliverCount(s.vcpus[w], x, irq);
    if irq >= NUM_LOCAL_VIRQS {
      TotalUpdate(s.vcpus, w, d, irq);
    }
  }

  lemma {:induction false} InjectLost(s: State, w: nat, x: nat, v: nat, irq: nat)
    requires Lost(s, v, irq) && OnVcpu(s, w, x)
    ensures Lost(InjectIrq(s, w, x).state, v, irq)
  {
    if !Pending(s, w, x) {
      MarkLost(s, w, x, v, irq);
      DeliverLost(SetPending(s, w, x, true), w, x, v, irq);
    }
  }

  lemma {:induction false} SameDeliveryLost(s: State, r: State, v: nat, irq: nat)
    requires Lost(s, v, irq) && SameDelivery(s, r)
    ensures Lost(r, v, irq)
  {
    TotalSame(s.vcpus, r.vcpus, irq);
  }

  lemma {:induction false} HandleLevelLost(s: State, w: nat, x: nat, v: nat, irq: nat)
    requires Lost(s, v, irq) && OnVcpu(s, w, x) && Registered(s, w, x)
    ensures Lost(HandleLevel(s, w, x), v, irq)
  {
    WithLevelSame(s, w, x, false);
    SameDeliveryLost(s, WithLevel(s, w, x, false), v, irq);
    InjectLost(s, w, x, v, irq);
  }

  lemma {:induction false} RetireLost(s: State, w: nat, idx: nat, v: nat, irq: nat)
    requires Lost(s, v, irq) && CanMaintain(s, w, idx)
    ensures Lost(RetireLr(s, w, idx), v, irq)
  {
    RetireCount(s.vcpus[w], idx, irq);
    RetireCount(s.vcpus[w], idx, s.vcpus[w].lr[idx].value);
    TotalBounds(s.vcpus, w, irq);
    TotalUpdate(s.vcpus, w, Retire(s.vcpus[w], idx), irq);
  }

  lemma {:induction false} ReloadLost(s: State, w: nat, idx: nat, v: nat, irq: nat)
    requires Lost(s, v, irq) && w < |s.vcpus| && idx < NUM_LIST_REGS
    ensures Lost(Reload(s, w, idx), v, irq)
  {
    if s.vcpus[w].queue != [] {
      LoadHeadCount(s.vcpus[w], idx, irq);
      TotalUpdate(s.vcpus, w, LoadHead(s.vcpus[w], idx), irq);
    }
  }

  lemma {:induction false} SetLevelLost(s: State, w: nat, x: nat, b: bool, v: nat, irq: nat)
    requires Lost(s, v, irq) && OnVcpu(s, w, x)
    ensures Lost(SetIrqLevel(s, w, x, b).state, v, irq)
  {
    if Registered(s, w, x) {
      WithLevelSame(s, w, x, b);
      SameDeliveryLost(s, WithLevel(s, w, x, b), v, irq);
      InjectLost(WithLevel(s, w, x, b), w, x, v, irq);
    }
  }

  lemma {:induction false} EnableLost(s: State, w: nat, x: nat, v: nat, irq: nat)
    requires Lost(s, v, irq) && OnVcpu(s, w, x)
    ensures Lost(EnableIrq(s, w, x), v, irq)
  {
    var s1 := SetEnabled(s, w, x, true);
    assert SameDelivery(s, s1);
    SameDeliveryLost(s, s1, v, irq);
    if Registered(s1, w, x) {
      HandleLevelLost(s1, w, x, v, irq);
    }
  }

  lemma {:induction false} MaintainLost(s: State, w: nat, idx: nat, v: nat, irq: nat)
    requires Lost(s, v, irq) && CanMaintain(s, w, idx)
    ensures Lost(MaintainLr(s, w, idx), v, irq)
  {
    var x := s.vcpus[w].lr[idx].value;
    RetireLost(s, w, idx, v, irq);
    HandleLevelLost(RetireLr(s, w, idx), w, x, v, irq);
    ReloadLost(HandleLevel(RetireLr(s, w, idx), w, x), w, idx, v, irq);
  }

  /** No event but a guest clearing that very pending bit brings a lost interrupt back. */
  lemma {:induction false} LostStaysLost(s: State, e: Event, v: nat, irq: nat)
    requires Lost(s, v, irq) && CanHappen(s, e)
    requires !(e.ClearPending? && e.irq == irq && (irq >= NUM_LOCAL_VIRQS || e.v == v))
    ensures Lost(Step(s, e), v, irq)
  {
    match e
    case Register(w, x) =>
      RegisterSame(s, w, x);
      SameDeliveryLost(s, Step(s, e), v, irq);
    case Inject(w, x) => InjectLost(s, w, x, v, irq);
    case SetLevel(w, x, b) => SetLevelLost(s, w, x, b, v, irq);
    case Enable(w, x) => EnableLost(s, w, x, v, irq);
    case Maintain(w, idx) => MaintainLost(s, w, idx, v, irq);
    case ClearPending(w, x) =>
    case _ =>
      assert SameDelivery(s, Step(s, e));
      SameDeliveryLost(s, Step(s, e), v, irq);
  }
}
