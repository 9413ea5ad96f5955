/** Delivery order, progress and conservation of the vGIC over whole runs. */
module VgicDelivery {
  import opened Common
  import opened VgicModel
  import opened VgicSafety
  import opened VgicRuns

  // ----- what one event does to one vCPU

  /** Nothing but line levels changed, or irq was delivered as well. */
  predicate Injected(c: Vcpu, d: Vcpu, irq: nat) {
    var d0 := d.(local := c.local);
    d0 == c || d0 == Deliver(c, irq)
  }

  lemma {:induction false} InjectEffect(s: State, v: nat, irq: nat, w: nat)
    requires OnVcpu(s, v, irq) && w < |s.vcpus|
    ensures var d := InjectIrq(s, v, irq).state.vcpus[w];
            d == s.vcpus[w] || d == Deliver(s.vcpus[w], irq)
  {
  }

  lemma {:induction false} DeliverLocal(c: Vcpu, l: seq<Option<bool>>, irq: nat)
    ensures Deliver(c.(local := l), irq) == Deliver(c, irq).(local := l)
  {
  }

  lemma {:induction false} WithLevelEffect(s: State, v: nat, irq: nat, b: bool, w: nat)
    requires OnVcpu(s, v, irq) && Registered(s, v, irq) && w < |s.vcpus|
    ensures |WithLevel(s, v, irq, b).vcpus| == |s.vcpus|
    ensures var d := WithLevel(s, v, irq, b).vcpus[w];
            d == s.vcpus[w].(local := d.local)
  {
  }

  lemma {:induction false} SetLevelEffect(s: State, v: nat, irq: nat, b: bool, w: nat)
    requires OnVcpu(s, v, irq) && w < |s.vcpus|
    ensures |SetIrqLevel(s, v, irq, b).state.vcpus| == |s.vcpus|
    ensures Injected(s.vcpus[w], SetIrqLevel(s, v, irq, b).state.vcpus[w], irq)
  {
    if Registered(s, v, irq) {
      var s1 := WithLevel(s, v, irq, b);
      WithLevelEffect(s, v, irq, b, w);
      InjectEffect(s1, v, irq, w);
      DeliverLocal(s.vcpus[w], s1.vcpus[w].local, irq);
    }
  }

  lemma {:induction false} HandleLevelEffect(s: State, v: nat, irq: nat, w: nat)
    requires OnVcpu(s, v, irq) && Registered(s, v, irq) && w < |s.vcpus|
    ensures Injected(s.vcpus[w], HandleLevel(s, v, irq).vcpus[w], irq)
    ensures !(Reinjects(s, v, irq) && w == v) ==>
              HandleLevel(s, v, irq).vcpus[w].(local := s.vcpus[w].local) == s.vcpus[w]
  {
    WithLevelEffect(s, v, irq, false, w);
    InjectEffect(s, v, irq, w);
  }

  lemma {:induction false} EnableEffect(s: State, v: nat, irq: nat, w: nat)
    requires OnVcpu(s, v, irq) && w < |s.vcpus|
    ensures |EnableIrq(s, v, irq).vcpus| == |s.vcpus|
    ensures Injected(s.vcpus[w], EnableIrq(s, v, irq).vcpus[w], irq)
  {
    var s1 := SetEnabled(s, v, irq, true);
    if Registered(s1, v, irq) {
      HandleLevelEffect(s1, v, irq, w);
    }
  }

  function IrqOf(e: Event): nat {
    if e.Maintain? || e.Power? then 0 else e.irq
  }

  /** Every event but a maintenance either leaves a vCPU's registers and queue alone or delivers
      the event's irq to it. */
  lemma {:induction false} StepEffect(s: State, e: Event, w: nat)
    requires CanHappen(s, e) && !e.Maintain? && w < |s.vcpus|
    ensures |Step(s, e).vcpus| == |s.vcpus|
    ensures Injected(s.vcpus[w], Step(s, e).vcpus[w], IrqOf(e))
  {
    match e
    case Inject(v, irq) => InjectEffect(s, v, irq, w);
    case SetLevel(v, irq, b) => SetLevelEffect(s, v, irq, b, w);
    case Enable(v, irq) => EnableEffect(s, v, irq, w);
    case _ =>
  }

  /** A maintenance retires, may deliver the retired irq again, and reloads from the queue. */
  ghost predicate Maintained(c: Vcpu, d: Vcpu, idx: nat) {
    && idx < |c.lr| && c.lr[idx].Some?
    && var r := Retire(c, idx);
       exists q ::
         Injected(r, q, c.lr[idx].value) && d == (if q.queue == [] then q else LoadHead(q, idx))
  }

  lemma {:induction false} MaintainEffect(s: State, v: nat, idx: nat, w: nat)
    requires CanMaintain(s, v, idx) && w < |s.vcpus|
    ensures |MaintainLr(s, v, idx).vcpus| == |s.vcpus|
    ensures w != v ==> MaintainLr(s, v, idx).vcpus[w].(local := s.vcpus[w].local) == s.vcpus[w]
    ensures w == v ==> Maintained(s.vcpus[v], MaintainLr(s, v, idx).vcpus[v], idx)
  {
    var irq := s.vcpus[v].lr[idx].value;
    var r := RetireLr(s, v, idx);
    var q := HandleLevel(r, v, irq);
    HandleLevelEffect(r, v, irq, w);
    if w == v {
      assert Injected(Retire(s.vcpus[v], idx), q.vcpus[v], irq);
    }
  }

  // ----- first in, first out

  /** Handles are loaded into list registers in the order their injections were accepted. */
  predicate Fifo(c: Vcpu) {
    c.accepted == c.loaded + c.queue
  }

  predicate AllFifo(s: State) {
    forall w | 0 <= w < |s.vcpus| :: Fifo(s.vcpus[w])
  }

  /** The history of a vCPU only grows, and stays first-in first-out. */
  predicate Advances(c: Vcpu, d: Vcpu) {
    (Fifo(c) ==> Fifo(d)) && c.accepted <= d.accepted && c.loaded <= d.loaded
  }

  lemma {:induction false} LoadHeadAdvances(c: Vcpu, i: nat)
    requires i < |c.lr| && c.queue != []
    ensures Advances(c, LoadHead(c, i))
  {
    assert c.queue == [c.queue[0]] + c.queue[1..];
  }

  lemma {:induction false} InjectedAdvances(c: Vcpu, d: Vcpu, irq: nat)
    requires Injected(c, d, irq)
    ensures Advances(c, d)
    ensures c.queue != [] ==> d.queue != [] || |d.loaded| > |c.loaded|
    ensures AllOccupied(c) ==> d.loaded == c.loaded
  {
    var e := Enqueue(c, irq);
    if FirstEmpty(e.lr).Some? {
      LoadHeadAdvances(e, FirstEmpty(e.lr).value);
    }
  }

  lemma {:induction false} MaintainedAdvances(c: Vcpu, d: Vcpu, idx: nat)
    requires Maintained(c, d, idx)
    ensures Advances(c, d)
    ensures c.queue != [] ==> |d.loaded| > |c.loaded|
  {
    var r := Retire(c, idx);
    var q :| Injected(r, q, c.lr[idx].value) && d == (if q.queue == [] then q else LoadHead(q, idx));
    InjectedAdvances(r, q, c.lr[idx].value);
    if q.queue != [] {
      LoadHeadAdvances(q, idx);
    }
  }

  predicate MaintainsOn(e: Event, v: nat) {
    e.Maintain? && e.v == v
  }

  lemma {:induction false} StepAdvances(s: State, e: Event, v: nat)
    requires CanHappen(s, e) && v < |s.vcpus|
    ensures |Step(s, e).vcpus| == |s.vcpus| && Advances(s.vcpus[v], Step(s, e).vcpus[v])
    ensures MaintainsOn(e, v) && s.vcpus[v].queue != [] ==> |Step(s, e).vcpus[v].loaded| > |s.vcpus[v].loaded|
  {
    if e.Maintain? {
      MaintainEffect(s, e.v, e.idx, v);
      if e.v == v {
        MaintainedAdvances(s.vcpus[v], Step(s, e).vcpus[v], e.idx);
      }
    } else {
      StepEffect(s, e, v);
      InjectedAdvances(s.vcpus[v], Step(s, e).vcpus[v], IrqOf(e));
    }
  }

  /** In every run, whatever the guest does. */
  lemma {:induction false} RunFifo(s: State, es: seq<Event>)
    requires CanRun(s, es) && AllFifo(s)
    ensures AllFifo(Run(s, es))
    decreases |es|
  {
    if es != [] {
      StepAllFifo(s, es[0]);
      RunFifo(Step(s, es[0]), es[1..]);
    }
  }

  lemma {:induction false} StepAllFifo(s: State, e: Event)
    requires CanHappen(s, e) && AllFifo(s)
    ensures |Step(s, e).vcpus| == |s.vcpus| && AllFifo(Step(s, e))
  {
    if |s.vcpus| > 0 {
      StepAdvances(s, e, 0);
    } else if e.Power? || e.Configure? {
    }
    forall w | 0 <= w < |Step(s, e).vcpus| ensures Fifo(Step(s, e).vcpus[w]) {
      StepAdvances(s, e, w);
    }
  }

  // ----- progress

  /** How many of the events retire a list register of vCPU v. */
  function Maintenances(es: seq<Event>, v: nat): nat {
    if es == [] then 0 else Bit(MaintainsOn(es[0], v)) + Maintenances(es[1..], v)
  }

  /** After m maintenance events on v, at least the first m entries of its queue have been loaded. */
  lemma {:induction false} RunLoads(s: State, es: seq<Event>, v: nat)
    requires CanRun(s, es) && v < |s.vcpus| && Fifo(s.vcpus[v])
    ensures |Run(s, es).vcpus| == |s.vcpus| && Advances(s.vcpus[v], Run(s, es).vcpus[v])
    ensures var m := Maintenances(es, v);
            var waiting := |s.vcpus[v].queue|;
            |Run(s, es).vcpus[v].loaded| >= |s.vcpus[v].loaded| + if m < waiting then m else waiting
    decreases |es|
  {
    if es != [] {
      var s1 := Step(s, es[0]);
      StepAdvances(s, es[0], v);
      RunLoads(s1, es[1..], v);
      assert |s1.vcpus[v].accepted| == |s1.vcpus[v].loaded| + |s1.vcpus[v].queue|;
    }
  }

  /** While v's queue is in use, a good step loads one handle if it retires one and none otherwise. */
  lemma {:induction false} GoodStepLoadsExactly(s: State, e: Event, v: nat)
    requires Inv(s) && CanHappen(s, e) && Good(s, e) && v < |s.vcpus| && s.vcpus[v].queue != []
    ensures |Step(s, e).vcpus| == |s.vcpus|
    ensures |Step(s, e).vcpus[v].loaded| == |s.vcpus[v].loaded| + Bit(MaintainsOn(e, v))
  {
    if e.Maintain? {
      MaintainEffect(s, e.v, e.idx, v);
      if e.v == v {
        BusyMaintainLoadsOne(s, v, e.idx);
      }
    } else {
      assert AllOccupied(s.vcpus[v]);
      StepEffect(s, e, v);
      InjectedAdvances(s.vcpus[v], Step(s, e).vcpus[v], IrqOf(e));
    }
  }

  lemma {:induction false} BusyMaintainLoadsOne(s: State, v: nat, idx: nat)
    requires CanMaintain(s, v, idx) && s.vcpus[v].queue != []
    requires !Reinjects(s, v, s.vcpus[v].lr[idx].value)
    ensures |MaintainLr(s, v, idx).vcpus| == |s.vcpus|
    ensures |MaintainLr(s, v, idx).vcpus[v].loaded| == |s.vcpus[v].loaded| + 1
  {
    var irq := s.vcpus[v].lr[idx].value;
    var r := RetireLr(s, v, idx);
    assert !Reinjects(r, v, irq);
    HandleLevelEffect(r, v, irq, v);
  }

  lemma {:induction false} GoodRunLoadsExactly(s: State, es: seq<Event>, v: nat)
    requires Inv(s) && CanRun(s, es) && GoodRun(s, es) && v < |s.vcpus| && Fifo(s.vcpus[v])
    requires Maintenances(es, v) < |s.vcpus[v].queue|
    ensures |Run(s, es).vcpus| == |s.vcpus|
    ensures |Run(s, es).vcpus[v].loaded| == |s.vcpus[v].loaded| + Maintenances(es, v)
    decreases |es|
  {
    if es != [] {
      var s1 := Step(s, es[0]);
      StepKeepsIff(s, es[0]);
      StepAdvances(s, es[0], v);
      GoodStepLoadsExactly(s, es[0], v);
      assert |s1.vcpus[v].accepted| == |s1.vcpus[v].loaded| + |s1.vcpus[v].queue|;
      GoodRunLoadsExactly(s1, es[1..], v);
    }
  }

  /** The handle at queue position k of c has been loaded by d, in its place in the order. */
  predicate HadItsTurn(c: Vcpu, d: Vcpu, k: nat)
    requires k < |c.queue|
  {
    |c.loaded| + k < |d.loaded| && d.loaded[|c.loaded| + k] == c.queue[k]
  }

  lemma {:induction false} OrderKept(c: Vcpu, d: Vcpu, k: nat)
    requires Fifo(c) && Advances(c, d) && k < |c.queue| && |c.loaded| + k < |d.loaded|
    ensures HadItsTurn(c, d, k)
  {
    var turn := |c.loaded| + k;
    assert d.loaded[turn] == d.accepted[turn];
    assert d.accepted[turn] == c.accepted[turn];
  }

  lemma {:induction false} TurnComes(s: State, es: seq<Event>, v: nat, k: nat)
    requires CanRun(s, es) && v < |s.vcpus| && k < |s.vcpus[v].queue| && Fifo(s.vcpus[v])
    requires k < Maintenances(es, v)
    ensures |Run(s, es).vcpus| == |s.vcpus| && HadItsTurn(s.vcpus[v], Run(s, es).vcpus[v], k)
  {
    RunLoads(s, es, v);
    OrderKept(s.vcpus[v], Run(s, es).vcpus[v], k);
  }

  /** In a good run, the handle at queue position k is loaded by the (k+1)-th maintenance event on
      its vCPU, and not before. */
  lemma {:induction false} LoadedInTurn(s: State, es: seq<Event>, v: nat, k: nat)
    requires Inv(s) && CanRun(s, es) && GoodRun(s, es)
    requires v < |s.vcpus| && k < |s.vcpus[v].queue| && Fifo(s.vcpus[v])
    ensures |Run(s, es).vcpus| == |s.vcpus|
    ensures HadItsTurn(s.vcpus[v], Run(s, es).vcpus[v], k) <==> k < Maintenances(es, v)
  {
    if k < Maintenances(es, v) {
      TurnComes(s, es, v, k);
    } else {
      GoodRunLoadsExactly(s, es, v);
    }
  }

  // ----- conservation

  /** Every accepted injection has been retired once or still sits in one place. */
  ghost predicate Conserved(c: Vcpu) {
    forall x: nat :: multiset(c.accepted)[x] == multiset(c.retired)[x] + Count(c, x)
  }

  lemma {:induction false} InjectedConserves(c: Vcpu, d: Vcpu, irq: nat)
    requires Conserved(c) && Injected(c, d, irq)
    ensures Conserved(d)
  {
    forall x: nat ensures multiset(d.accepted)[x] == multiset(d.retired)[x] + Count(d, x) {
      DeliverCount(c, irq, x);
      assert multiset(c.accepted)[x] == multiset(c.retired)[x] + Count(c, x);
    }
  }

  lemma {:induction false} RetireConserves(c: Vcpu, idx: nat)
    requires Conserved(c) && idx < |c.lr| && c.lr[idx].Some?
    ensures Conserved(Retire(c, idx))
  {
    var d := Retire(c, idx);
    forall x: nat ensures multiset(d.accepted)[x] == multiset(d.retired)[x] + Count(d, x) {
      RetireCount(c, idx, x);
      assert multiset(c.accepted)[x] == multiset(c.retired)[x] + Count(c, x);
    }
  }

  lemma {:induction false} LoadHeadConserves(c: Vcpu, idx: nat)
    requires Conserved(c) && idx < |c.lr| && c.lr[idx].None? && c.queue != []
    ensures Conserved(LoadHead(c, idx))
  {
    var d := LoadHead(c, idx);
    forall x: nat ensures multiset(d.accepted)[x] == multiset(d.retired)[x] + Count(d, x) {
      LoadHeadCount(c, idx, x);
      assert multiset(c.accepted)[x] == multiset(c.retired)[x] + Count(c, x);
    }
  }

  lemma {:induction false} MaintainConserves(s: State, v: nat, idx: nat)
    requires CanMaintain(s, v, idx) && Conserved(s.vcpus[v])
    requires Reinjects(s, v, s.vcpus[v].lr[idx].value) ==> s.vcpus[v].queue == []
    ensures |MaintainLr(s, v, idx).vcpus| == |s.vcpus| && Conserved(MaintainLr(s, v, idx).vcpus[v])
  {
    var irq := s.vcpus[v].lr[idx].value;
    var r := RetireLr(s, v, idx);
    var q := HandleLevel(r, v, irq);
    RetireConserves(s.vcpus[v], idx);
    HandleLevelEffect(r, v, irq, v);
    InjectedConserves(r.vcpus[v], q.vcpus[v], irq);
    assert r.vcpus[v].lr[idx].None?;
    if q.vcpus[v].queue != [] {
      assert !Reinjects(r, v, irq) by {
        if Reinjects(r, v, irq) {
          DeliverToFree(r.vcpus[v], idx, irq);
        }
      }
      LoadHeadConserves(q.vcpus[v], idx);
    }
  }

  lemma {:induction false} DeliverToFree(c: Vcpu, idx: nat, irq: nat)
    requires idx < |c.lr| && c.lr[idx].None? && c.queue == []
    ensures Deliver(c, irq).queue == []
  {
  }

  lemma {:induction false} GoodStepConserves(s: State, e: Event, v: nat)
    requires CanHappen(s, e) && Good(s, e) && v < |s.vcpus| && Conserved(s.vcpus[v])
    ensures |Step(s, e).vcpus| == |s.vcpus| && Conserved(Step(s, e).vcpus[v])
  {
    if e.Maintain? {
      MaintainEffect(s, e.v, e.idx, v);
      if e.v == v {
        MaintainConserves(s, v, e.idx);
      } else {
        InjectedConserves(s.vcpus[v], Step(s, e).vcpus[v], 0);
      }
    } else {
      StepEffect(s, e, v);
      InjectedConserves(s.vcpus[v], Step(s, e).vcpus[v], IrqOf(e));
    }
  }

  lemma {:induction false} GoodRunConserves(s: State, es: seq<Event>, v: nat)
    requires CanRun(s, es) && GoodRun(s, es) && v < |s.vcpus| && Conserved(s.vcpus[v])
    ensures |Run(s, es).vcpus| == |s.vcpus| && Conserved(Run(s, es).vcpus[v])
    decreases |es|
  {
    if es != [] {
      GoodStepConserves(s, es[0], v);
      GoodRunConserves(Step(s, es[0]), es[1..], v);
    }
  }
}
