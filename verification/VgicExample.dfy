/** A run in which the guest itself does nothing wrong and an interrupt is lost for good: five PPIs
    in use, the first one's line still high when its list register is retired. */
module VgicExample {
  import opened Common
  import opened VgicModel
  import opened VgicSafety
  import opened VgicRuns
  import opened VgicCapacity

  function Ppis(n: nat): (irqs: seq<nat>)
    ensures |irqs| == n && forall i | 0 <= i < n :: irqs[i] == 16 + i
  {
    seq(n, i => 16 + i)
  }

  /** Four fit into the list registers. */
  function InFlightVcpu(n: nat): Vcpu
    requires 1 <= n <= 5
  {
    var k := if n < 4 then n else 4;
    Vcpu(seq(4, i => if 0 <= i < k then Some(16 + i) else None), if n == 5 then [20] else [],
         seq(32, i => if 16 <= i <= 20 then Some(i == 16) else None), Ppis(n), Ppis(k), [])
  }

  /** One vCPU with PPIs 16 to 20 registered and enabled, 16's line high, `n` of them injected. */
  function Injected(n: nat): State
    requires 1 <= n <= 5
  {
    State(true, [InFlightVcpu(n)], [seq(32, i => 16 <= i < 16 + n)], [seq(32, i => i <= 20)],
          seq(NUM_IRQS, _ => false), seq(NUM_IRQS, _ => false), seq(NUM_IRQS, i => i < NUM_SGI_VIRQS), [])
  }

  /** The same before any injection, `r` of the PPIs registered and enabled. */
  function Prepared(r: nat): State
    requires r <= 5
  {
    State(true,
          [Vcpu(seq(4, _ => None), [], seq(32, i => if 16 <= i < 16 + r then Some(false) else None), [], [], [])],
          [seq(32, _ => false)], [seq(32, i => i < 16 + r)],
          seq(NUM_IRQS, _ => false), seq(NUM_IRQS, _ => false), seq(NUM_IRQS, i => i < NUM_SGI_VIRQS), [])
  }

  lemma {:induction false} PowerOn()
    ensures Step(Reset(1), Power(true)) == Prepared(0)
  {
    var s, t := Step(Reset(1), Power(true)), Prepared(0);
    assert s.vcpus[0] == t.vcpus[0];
    assert s.enabled0[0] == t.enabled0[0];
    assert s.vcpus == t.vcpus && s.enabled0 == t.enabled0 && s.pending0 == t.pending0;
  }

  lemma {:induction false} RegisterAndEnable(r: nat)
    requires r < 5
    ensures Step(Step(Prepared(r), Register(0, 16 + r)), Enable(0, 16 + r)) == Prepared(r + 1)
  {
    var s, t := Prepared(r), Prepared(r + 1);
    var s1 := Step(s, Register(0, 16 + r));
    assert s1.vcpus[0].local == t.vcpus[0].local;
    assert s1.vcpus == t.vcpus;
    var s2 := Step(s1, Enable(0, 16 + r));
    assert s2.enabled0[0] == t.enabled0[0];
    assert s2.enabled0 == t.enabled0;
  }

  lemma {:induction false} Raise()
    ensures Step(Prepared(5), SetLevel(0, 16, true)) == Injected(1)
  {
    var s, t := Step(Prepared(5), SetLevel(0, 16, true)), Injected(1);
    FirstEmptyAt(Prepared(5).vcpus[0].lr, 0);
    assert Ppis(1) == [16];
    assert s.vcpus[0].local == t.vcpus[0].local;
    assert s.vcpus[0].lr == t.vcpus[0].lr;
    assert s.vcpus[0] == t.vcpus[0];
    assert s.vcpus == t.vcpus;
    assert s.pending0[0] == t.pending0[0];
    assert s.enabled0[0] == t.enabled0[0];
    assert s.pending0 == t.pending0 && s.enabled0 == t.enabled0;
  }

  /** What an accepted injection changes. */
  lemma {:induction false} InjectIs(n: nat)
    requires 1 <= n < 5
    ensures var s := Injected(n);
            Step(s, Inject(0, 16 + n)) ==
              s.(vcpus := s.vcpus[0 := Deliver(s.vcpus[0], 16 + n)], pending0 := s.pending0[0 := s.pending0[0][16 + n := true]])
  {
  }

  lemma {:induction false} InjectNext(n: nat)
    requires 1 <= n < 5
    ensures Step(Injected(n), Inject(0, 16 + n)) == Injected(n + 1)
  {
    var s, t := Injected(n), Injected(n + 1);
    InjectIs(n);
    DeliverNext(n);
    assert s.pending0[0][16 + n := true] == t.pending0[0];
    assert s.pending0[0 := s.pending0[0][16 + n := true]] == t.pending0;
    assert s.vcpus[0 := InFlightVcpu(n + 1)] == t.vcpus;
  }

  lemma {:induction false} NextPpi(n: nat)
    ensures Ppis(n + 1) == Ppis(n) + [16 + n]
  {
  }

  /** The next one goes into the first empty list register, and the fifth into the queue. */
  lemma {:induction false} DeliverNext(n: nat)
    requires 1 <= n < 5
    ensures Deliver(InFlightVcpu(n), 16 + n) == InFlightVcpu(n + 1)
  {
    NextPpi(n);
    if n < 4 {
      DeliverLoads(n);
    } else {
      DeliverQueues();
    }
  }

  lemma {:induction false} DeliverLoads(n: nat)
    requires 1 <= n < 4 && Ppis(n + 1) == Ppis(n) + [16 + n]
    ensures Deliver(InFlightVcpu(n), 16 + n) == InFlightVcpu(n + 1)
  {
    var e, t := Enqueue(InFlightVcpu(n), 16 + n), InFlightVcpu(n + 1);
    FirstEmptyAt(e.lr, n);
    assert e.queue == [16 + n];
    assert e.lr[n := Some(16 + n)] == t.lr;
  }

  lemma {:induction false} DeliverQueues()
    requires Ppis(5) == Ppis(4) + [20]
    ensures Deliver(InFlightVcpu(4), 20) == InFlightVcpu(5)
  {
    var e, t := Enqueue(InFlightVcpu(4), 20), InFlightVcpu(5);
    NoneEmpty(e.lr);
    assert e.lr == t.lr;
    assert e.queue == t.queue;
  }

  lemma {:induction false} NoneEmpty(lr: seq<Option<nat>>)
    requires forall k | 0 <= k < |lr| :: lr[k].Some?
    ensures FirstEmpty(lr) == None
  {
  }

  lemma {:induction false} Extend(s: State, es: seq<Event>, e: Event)
    requires CanRun(s, es) && CanHappen(Run(s, es), e)
    ensures CanRun(s, es + [e]) && Run(s, es + [e]) == Step(Run(s, es), e)
    decreases |es|
  {
    if es == [] {
      assert (es + [e])[1..] == [];
    } else {
      Extend(Step(s, es[0]), es[1..], e);
      assert (es + [e])[1..] == es[1..] + [e];
    }
  }

  predicate Plain(es: seq<Event>) {
    forall i | 0 <= i < |es| :: !es[i].Maintain? && !es[i].ClearPending?
  }

  lemma {:induction false} PrepareRun(r: nat) returns (es: seq<Event>)
    requires r <= 5
    ensures Plain(es) && CanRun(Reset(1), es) && Run(Reset(1), es) == Prepared(r)
  {
    if r == 0 {
      PowerOn();
      Extend(Reset(1), [], Power(true));
      assert [] + [Power(true)] == [Power(true)];
      es := [Power(true)];
    } else {
      es := PrepareRun(r - 1);
      RegisterAndEnable(r - 1);
      var e1, e2 := Register(0, 15 + r), Enable(0, 15 + r);
      Extend(Reset(1), es, e1);
      Extend(Reset(1), es + [e1], e2);
      es := es + [e1] + [e2];
    }
  }

  /** A plain run from reset, at the end of which n of the PPIs are in flight. */
  lemma {:induction false} InFlight(n: nat) returns (es: seq<Event>)
    requires 1 <= n <= 5
    ensures Plain(es) && CanRun(Reset(1), es) && Run(Reset(1), es) == Injected(n)
  {
    if n == 1 {
      es := PrepareRun(5);
      Raise();
      Extend(Reset(1), es, SetLevel(0, 16, true));
      es := es + [SetLevel(0, 16, true)];
    } else {
      es := InFlight(n - 1);
      InjectNext(n - 1);
      Extend(Reset(1), es, Inject(0, 15 + n));
      es := es + [Inject(0, 15 + n)];
    }
  }

  lemma {:induction false} PlainRunIsTame(s: State, es: seq<Event>)
    requires CanRun(s, es) && Plain(es)
    ensures TameRun(s, es)
    decreases |es|
  {
    if es != [] {
      PlainRunIsTame(Step(s, es[0]), es[1..]);
    }
  }

  lemma {:induction false} FewVisible()
    ensures |Visible(Injected(5), 0)| <= 5
  {
    var ppis := {16, 17, 18, 19, 20};
    assert Visible(Injected(5), 0) <= ppis;
    SubsetCard(Visible(Injected(5), 0), ppis);
  }

  lemma {:induction false} InFlightInv(es: seq<Event>)
    requires Plain(es) && CanRun(Reset(1), es) && Run(Reset(1), es) == Injected(5)
    ensures Inv(Injected(5))
  {
    PlainRunIsTame(Reset(1), es);
    ResetInv(1);
    FewVisible();
    CapacityRun(Reset(1), es);
  }

  lemma {:induction false} RetirementLoses()
    requires Inv(Injected(5))
    ensures CanMaintain(Injected(5), 0, 0) && Lost(MaintainLr(Injected(5), 0, 0), 0, 20)
  {
    var s := Injected(5);
    assert s.vcpus[0].lr[0] == Some(16) && s.vcpus[0].queue == [20];
    MaintainLoses(s, 0, 0);
  }

  /** The guest retires PPI 16 with its line still high; PPI 20, first in the queue, is lost: it
      stays pending and sits nowhere. */
  lemma {:induction false} AnInterruptIsLost() returns (es: seq<Event>)
    ensures CanRun(Reset(1), es) && Lost(Run(Reset(1), es), 0, 20)
    ensures forall i | 0 <= i < |es| :: !es[i].ClearPending?
  {
    es := InFlight(5);
    InFlightInv(es);
    RetirementLoses();
    Extend(Reset(1), es, Maintain(0, 0));
    es := es + [Maintain(0, 0)];
  }
}
