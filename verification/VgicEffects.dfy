/** What every event of the virtual GIC does to what its callers and the guest can see: which interrupts are
    registered, the levels of their lines, and the enable and pending bits.  Each is told from the event's own
    arguments and what was to be seen before. */
module VgicEffects {
  import opened Common
  import opened VgicModel
  import opened Vgic

  /** SGIs and PPIs are private to a vCPU, SPIs are shared. */
  predicate Same(v: nat, irq: nat, w: nat, x: nat) { x == irq && (irq < NUM_LOCAL_VIRQS ==> w == v) }

  // ----- what is to be seen

  /** An injection would be let through. */
  predicate Deliverable(s: State, v: nat, irq: nat)
    requires OnVcpu(s, v, irq)
  {
    Registered(s, v, irq) && s.on && Enabled(s, v, irq)
  }

  predicate High(s: State, v: nat, irq: nat)
    requires OnVcpu(s, v, irq)
  {
    Registered(s, v, irq) && Level(s, v, irq)
  }

  /** Whether vm_register_irq succeeds. */
  predicate Registers(s: State, v: nat, irq: nat)
    requires OnVcpu(s, v, irq)
  {
    if irq < NUM_LOCAL_VIRQS then !Registered(s, v, irq) else |s.spis| < NUM_SLOTS_SPI_VIRQ
  }

  predicate RegisteredAfter(s: State, e: Event, w: nat, x: nat)
    requires CanHappen(s, e) && OnVcpu(s, w, x)
  {
    Registered(s, w, x) || (e.Register? && Same(e.v, e.irq, w, x) && Registers(s, e.v, e.irq))
  }

  /** A line is driven by its owner; the distributor lowers the line of an edge-triggered interrupt once it has been
      acknowledged, when it is retired or enabled anew. */
  predicate HighAfter(s: State, e: Event, w: nat, x: nat)
    requires CanHappen(s, e) && OnVcpu(s, w, x)
  {
    match e
    case SetLevel(v, irq, b) => if Same(v, irq, w, x) && Registered(s, w, x) then b else High(s, w, x)
    case Enable(v, irq) => High(s, w, x) && !(Same(v, irq, w, x) && !Pending(s, v, irq) && s.edge[irq])
    case Maintain(v, idx) =>
      var irq := s.vcpus[v].lr[idx].value;
      High(s, w, x) && !(Same(v, irq, w, x) && s.edge[irq])
    case _ => High(s, w, x)
  }

  predicate EnabledAfter(s: State, e: Event, w: nat, x: nat)
    requires CanHappen(s, e) && OnVcpu(s, w, x)
  {
    match e
    case Enable(v, irq) => Same(v, irq, w, x) || Enabled(s, w, x)
    case Disable(v, irq) => Enabled(s, w, x) && !(Same(v, irq, w, x) && irq >= NUM_SGI_VIRQS)
    case _ => Enabled(s, w, x)
  }

  predicate PendingAfter(s: State, e: Event, w: nat, x: nat)
    requires CanHappen(s, e) && OnVcpu(s, w, x)
  {
    match e
    case Inject(v, irq) => Pending(s, w, x) || (Same(v, irq, w, x) && Deliverable(s, v, irq))
    case SetLevel(v, irq, b) => Pending(s, w, x) || (Same(v, irq, w, x) && b && Deliverable(s, v, irq) && !High(s, v, irq))
    case Enable(v, irq) => Pending(s, w, x) || (Same(v, irq, w, x) && s.on && High(s, v, irq) && !s.edge[irq])
    case Maintain(v, idx) =>
      var irq := s.vcpus[v].lr[idx].value;
      if Same(v, irq, w, x) then s.on && Enabled(s, v, irq) && High(s, v, irq) && !s.edge[irq] else Pending(s, w, x)
    case ClearPending(v, irq) => Pending(s, w, x) && !Same(v, irq, w, x)
    case _ => Pending(s, w, x)
  }

  // ----- bits

  lemma {:induction false} SetPendingSeen(s: State, v: nat, irq: nat, b: bool, w: nat, x: nat)
    requires OnVcpu(s, v, irq) && OnVcpu(s, w, x)
    ensures var r := SetPending(s, v, irq, b);
            && OnVcpu(r, w, x) && Pending(r, w, x) == (if Same(v, irq, w, x) then b else Pending(s, w, x))
            && Enabled(r, w, x) == Enabled(s, w, x) && Registered(r, w, x) == Registered(s, w, x) && High(r, w, x) == High(s, w, x)
  {
  }

  lemma {:induction false} SetEnabledSeen(s: State, v: nat, irq: nat, b: bool, w: nat, x: nat)
    requires OnVcpu(s, v, irq) && OnVcpu(s, w, x)
    ensures var r := SetEnabled(s, v, irq, b);
            && OnVcpu(r, w, x) && Enabled(r, w, x) == (if Same(v, irq, w, x) then b else Enabled(s, w, x))
            && Pending(r, w, x) == Pending(s, w, x) && Registered(r, w, x) == Registered(s, w, x) && High(r, w, x) == High(s, w, x)
  {
  }

  // ----- lines

  lemma {:induction false} SameSlots(a: seq<Spi>, b: seq<Spi>, x: nat)
    requires |a| == |b| && forall k | 0 <= k < |a| :: a[k].virq == b[k].virq
    ensures FindSpi(a, x) == FindSpi(b, x)
  {
    if a != [] && a[0].virq != x {
      SameSlots(a[1..], b[1..], x);
    }
  }

  lemma {:induction false} WithLevelSeen(s: State, v: nat, irq: nat, b: bool, w: nat, x: nat)
    requires OnVcpu(s, v, irq) && Registered(s, v, irq) && OnVcpu(s, w, x)
    ensures var r := WithLevel(s, v, irq, b);
            && OnVcpu(r, w, x) && Registered(r, w, x) == Registered(s, w, x)
            && High(r, w, x) == (if Same(v, irq, w, x) then b else High(s, w, x))
            && Enabled(r, w, x) == Enabled(s, w, x) && Pending(r, w, x) == Pending(s, w, x)
  {
    if irq >= NUM_LOCAL_VIRQS {
      var k := FindSpi(s.spis, irq).value;
      SameSlots(s.spis, s.spis[k := s.spis[k].(level := b)], x);
    }
  }

  // ----- injections

  /** The same handles, lines and bits. */
  predicate SameSeen(s: State, r: State) {
    && |r.vcpus| == |s.vcpus| && r.spis == s.spis && r.pending0 == s.pending0 && r.pending == s.pending
    && r.enabled0 == s.enabled0 && r.enabled == s.enabled && r.on == s.on && r.edge == s.edge
    && forall w | 0 <= w < |s.vcpus| :: r.vcpus[w].local == s.vcpus[w].local
  }

  lemma {:induction false} SameSeenIs(s: State, r: State, w: nat, x: nat)
    requires SameSeen(s, r) && OnVcpu(s, w, x) && OnVcpu(r, w, x)
    ensures Registered(r, w, x) == Registered(s, w, x) && High(r, w, x) == High(s, w, x)
    ensures Enabled(r, w, x) == Enabled(s, w, x) && Pending(r, w, x) == Pending(s, w, x)
  {
  }

  lemma {:induction false} InjectSeen(s: State, v: nat, irq: nat, w: nat, x: nat)
    requires OnVcpu(s, v, irq) && OnVcpu(s, w, x)
    ensures var r := InjectIrq(s, v, irq).state;
            && OnVcpu(r, w, x) && r.on == s.on && r.edge == s.edge
            && Pending(r, w, x) == (Pending(s, w, x) || (Same(v, irq, w, x) && Deliverable(s, v, irq)))
            && Enabled(r, w, x) == Enabled(s, w, x) && Registered(r, w, x) == Registered(s, w, x) && High(r, w, x) == High(s, w, x)
  {
    var s1 := SetPending(s, v, irq, true);
    SetPendingSeen(s, v, irq, true, w, x);
    if Deliverable(s, v, irq) && !Pending(s, v, irq) {
      var r := InjectIrq(s, v, irq).state;
      assert SameSeen(s1, r);
      SameSeenIs(s1, r, w, x);
    }
  }

  lemma {:induction false} HandleLevelSeen(s: State, v: nat, irq: nat, w: nat, x: nat)
    requires OnVcpu(s, v, irq) && Registered(s, v, irq) && OnVcpu(s, w, x)
    ensures var r := HandleLevel(s, v, irq);
            && OnVcpu(r, w, x) && r.on == s.on && r.edge == s.edge
            && High(r, w, x) == (High(s, w, x) && !(Same(v, irq, w, x) && s.edge[irq]))
            && Pending(r, w, x) == (Pending(s, w, x) || (Same(v, irq, w, x) && Deliverable(s, v, irq) && High(s, v, irq) && !s.edge[irq]))
            && Enabled(r, w, x) == Enabled(s, w, x) && Registered(r, w, x) == Registered(s, w, x)
  {
    WithLevelSeen(s, v, irq, false, w, x);
    InjectSeen(s, v, irq, w, x);
  }

  // ----- every event

  ghost predicate SeenAfter(s: State, e: Event, r: State, w: nat, x: nat)
    requires CanHappen(s, e) && OnVcpu(s, w, x)
  {
    && OnVcpu(r, w, x)
    && Registered(r, w, x) == RegisteredAfter(s, e, w, x) && High(r, w, x) == HighAfter(s, e, w, x)
    && Enabled(r, w, x) == EnabledAfter(s, e, w, x) && Pending(r, w, x) == PendingAfter(s, e, w, x)
  }

  lemma {:induction false} AppendedSlot(spis: seq<Spi>, y: Spi, x: nat)
    ensures FindSpi(spis + [y], x) ==
            if FindSpi(spis, x).Some? then FindSpi(spis, x) else if y.virq == x then Some(|spis|) else None
  {
    if spis == [] {
      assert spis + [y] == [y];
    } else {
      assert (spis + [y])[1..] == spis[1..] + [y];
      AppendedSlot(spis[1..], y, x);
    }
  }

  lemma {:induction false} RegisterLocalSeen(s: State, v: nat, irq: nat, w: nat, x: nat)
    requires OnVcpu(s, v, irq) && OnVcpu(s, w, x) && irq < NUM_LOCAL_VIRQS
    ensures SeenAfter(s, Register(v, irq), RegisterIrq(s, v, irq).state, w, x)
  {
  }

  lemma {:induction false} RegisterSharedSeen(s: State, v: nat, irq: nat, w: nat, x: nat)
    requires OnVcpu(s, v, irq) && OnVcpu(s, w, x) && irq >= NUM_LOCAL_VIRQS
    ensures SeenAfter(s, Register(v, irq), RegisterIrq(s, v, irq).state, w, x)
  {
    AppendedSlot(s.spis, Spi(irq, false), x);
  }

  lemma {:induction false} RegisterSeen(s: State, v: nat, irq: nat, w: nat, x: nat)
    requires OnVcpu(s, v, irq) && OnVcpu(s, w, x)
    ensures SeenAfter(s, Register(v, irq), RegisterIrq(s, v, irq).state, w, x)
    ensures RegisterIrq(s, v, irq).ok == Registers(s, v, irq)
  {
    if irq < NUM_LOCAL_VIRQS {
      RegisterLocalSeen(s, v, irq, w, x);
    } else {
      RegisterSharedSeen(s, v, irq, w, x);
    }
  }

  lemma {:induction false} SetLevelSeen(s: State, v: nat, irq: nat, b: bool, w: nat, x: nat)
    requires OnVcpu(s, v, irq) && OnVcpu(s, w, x)
    ensures SeenAfter(s, SetLevel(v, irq, b), SetIrqLevel(s, v, irq, b).state, w, x)
  {
    if Registered(s, v, irq) {
      var s1 := WithLevel(s, v, irq, b);
      WithLevelSeen(s, v, irq, b, w, x);
      WithLevelSeen(s, v, irq, b, v, irq);
      InjectSeen(s1, v, irq, w, x);
    }
  }

  lemma {:induction false} EnableSeen(s: State, v: nat, irq: nat, w: nat, x: nat)
    requires OnVcpu(s, v, irq) && OnVcpu(s, w, x)
    ensures SeenAfter(s, Enable(v, irq), EnableIrq(s, v, irq), w, x)
  {
    var s1 := SetEnabled(s, v, irq, true);
    SetEnabledSeen(s, v, irq, true, w, x);
    SetEnabledSeen(s, v, irq, true, v, irq);
    if Registered(s1, v, irq) {
      HandleLevelSeen(s1, v, irq, w, x);
    }
  }

  lemma {:induction false} RetireSeen(s: State, v: nat, idx: nat, w: nat, x: nat)
    requires CanMaintain(s, v, idx) && OnVcpu(s, w, x)
    ensures var r, irq := RetireLr(s, v, idx), s.vcpus[v].lr[idx].value;
            && OnVcpu(r, w, x) && r.on == s.on && r.edge == s.edge
            && Pending(r, w, x) == (Pending(s, w, x) && !Same(v, irq, w, x))
            && Enabled(r, w, x) == Enabled(s, w, x) && Registered(r, w, x) == Registered(s, w, x) && High(r, w, x) == High(s, w, x)
  {
    var s1 := s.(vcpus := s.vcpus[v := Retire(s.vcpus[v], idx)]);
    SameSeenIs(s, s1, w, x);
    SetPendingSeen(s1, v, s.vcpus[v].lr[idx].value, false, w, x);
  }

  lemma {:induction false} ReloadSeen(s: State, v: nat, idx: nat, w: nat, x: nat)
    requires Shape(s) && v < |s.vcpus| && idx < NUM_LIST_REGS && OnVcpu(s, w, x)
    ensures var r := Reload(s, v, idx);
            && OnVcpu(r, w, x) && Registered(r, w, x) == Registered(s, w, x) && High(r, w, x) == High(s, w, x)
            && Enabled(r, w, x) == Enabled(s, w, x) && Pending(r, w, x) == Pending(s, w, x)
  {
    SameSeenIs(s, Reload(s, v, idx), w, x);
  }

  lemma {:induction false} MaintainSeen(s: State, v: nat, idx: nat, w: nat, x: nat)
    requires CanMaintain(s, v, idx) && OnVcpu(s, w, x)
    ensures SeenAfter(s, Maintain(v, idx), MaintainLr(s, v, idx), w, x)
  {
    var irq, r := s.vcpus[v].lr[idx].value, RetireLr(s, v, idx);
    RetireSeen(s, v, idx, w, x);
    RetireSeen(s, v, idx, v, irq);
    HandleLevelSeen(r, v, irq, w, x);
    ReloadSeen(HandleLevel(r, v, irq), v, idx, w, x);
  }

  /** Every event does to what is to be seen of every interrupt exactly what its arguments say. */
  lemma {:induction false} StepSeen(s: State, e: Event, w: nat, x: nat)
    requires CanHappen(s, e) && OnVcpu(s, w, x)
    ensures SeenAfter(s, e, Step(s, e), w, x)
  {
    match e
    case Register(v, irq) => RegisterSeen(s, v, irq, w, x);
    case Inject(v, irq) => InjectSeen(s, v, irq, w, x);
    case SetLevel(v, irq, b) => SetLevelSeen(s, v, irq, b, w, x);
    case Enable(v, irq) => EnableSeen(s, v, irq, w, x);
    case Disable(v, irq) => SetEnabledSeen(s, v, irq, false, w, x);
    case Maintain(v, idx) => MaintainSeen(s, v, idx, w, x);
    case ClearPending(v, irq) => SetPendingSeen(s, v, irq, false, w, x);
    case _ =>
  }

  predicate SameConfig(s: State, r: State) { r.on == s.on && r.edge == s.edge }

  lemma {:induction false} HandleLevelConfig(s: State, v: nat, irq: nat)
    requires OnVcpu(s, v, irq) && Registered(s, v, irq)
    ensures SameConfig(s, HandleLevel(s, v, irq))
  {
    HandleLevelSeen(s, v, irq, v, irq);
  }

  lemma {:induction false} MaintainConfig(s: State, v: nat, idx: nat)
    requires CanMaintain(s, v, idx)
    ensures SameConfig(s, MaintainLr(s, v, idx))
  {
    var irq := s.vcpus[v].lr[idx].value;
    RetireSeen(s, v, idx, v, irq);
    HandleLevelConfig(RetireLr(s, v, idx), v, irq);
  }

  lemma {:induction false} EnableConfig(s: State, v: nat, irq: nat)
    requires OnVcpu(s, v, irq)
    ensures SameConfig(s, EnableIrq(s, v, irq))
  {
    var s1 := SetEnabled(s, v, irq, true);
    if Registered(s1, v, irq) {
      HandleLevelConfig(s1, v, irq);
    }
  }

  /** Only their own events change the switch and the trigger modes, those of SGIs and PPIs being fixed. */
  lemma {:induction false} StepConfig(s: State, e: Event, x: nat)
    requires CanHappen(s, e) && x < NUM_IRQS
    ensures Step(s, e).on == if e.Power? then e.on else s.on
    ensures Step(s, e).edge[x] == if e.Configure? && e.irq == x && x >= NUM_LOCAL_VIRQS then e.edge else s.edge[x]
  {
    match e
    case Maintain(v, idx) => MaintainConfig(s, v, idx);
    case Enable(v, irq) => EnableConfig(s, v, irq);
    case Inject(v, irq) => InjectSeen(s, v, irq, v, irq);
    case SetLevel(v, irq, b) =>
      if Registered(s, v, irq) {
        InjectSeen(WithLevel(s, v, irq, b), v, irq, v, irq);
      }
    case _ =>
  }

  // ----- results

  /** What vm_register_irq, vm_inject_irq and vm_set_irq_level return. */
  lemma {:induction false} ResultsMean(s: State, v: nat, irq: nat, b: bool)
    requires OnVcpu(s, v, irq)
    ensures RegisterIrq(s, v, irq).ok <==> Registers(s, v, irq)
    ensures InjectIrq(s, v, irq).ok <==> Deliverable(s, v, irq) && (Pending(s, v, irq) || !QueueFull(s, v))
    ensures SetIrqLevel(s, v, irq, b).ok <==>
            Registered(s, v, irq) && (b && !High(s, v, irq) ==> Deliverable(s, v, irq) && (Pending(s, v, irq) || !QueueFull(s, v)))
  {
    if Registered(s, v, irq) {
      WithLevelSeen(s, v, irq, b, v, irq);
    }
  }

  /** An edge-triggered interrupt that has been retired can be raised again: the line is low, and raising it makes
      the interrupt pending and delivers it, if it can be delivered at all and there is room. */
  lemma {:induction false} RaisedAgain(s: State, v: nat, idx: nat)
    requires CanMaintain(s, v, idx) && s.edge[s.vcpus[v].lr[idx].value]
    ensures var irq, r := s.vcpus[v].lr[idx].value, MaintainLr(s, v, idx);
            && OnVcpu(r, v, irq) && Registered(r, v, irq) && !Level(r, v, irq) && !Pending(r, v, irq)
            && (Deliverable(s, v, irq) && !QueueFull(r, v) ==>
                  && SetIrqLevel(r, v, irq, true).ok && Pending(SetIrqLevel(r, v, irq, true).state, v, irq)
                  && SetIrqLevel(r, v, irq, true).state.vcpus[v].accepted == r.vcpus[v].accepted + [irq])
  {
    var irq, r := s.vcpus[v].lr[idx].value, MaintainLr(s, v, idx);
    MaintainSeen(s, v, idx, v, irq);
    RetireSeen(s, v, idx, v, irq);
    HandleLevelSeen(RetireLr(s, v, idx), v, irq, v, irq);
    if Deliverable(s, v, irq) && !QueueFull(r, v) {
      ResultsMean(r, v, irq, true);
      SetLevelSeen(r, v, irq, true, v, irq);
      AcceptedOnce(r, v, irq);
    }
  }

  lemma {:induction false} AcceptedOnce(s: State, v: nat, irq: nat)
    requires OnVcpu(s, v, irq) && Deliverable(s, v, irq) && !Level(s, v, irq) && !Pending(s, v, irq) && !QueueFull(s, v)
    ensures SetIrqLevel(s, v, irq, true).state.vcpus[v].accepted == s.vcpus[v].accepted + [irq]
  {
    WithLevelSeen(s, v, irq, true, v, irq);
  }

  // ----- written words

  /** What a bit written to a set- or clear-register means. */
  function EventOf(op: WordOp, v: nat, irq: nat): Event {
    match op
    case EnableBits => Enable(v, irq)
    case DisableBits => Disable(v, irq)
    case PendBits => Inject(v, irq)
    case UnpendBits => ClearPending(v, irq)
  }

  lemma {:induction false} ApplyBitSeen(s: State, op: WordOp, v: nat, irq: nat, w: nat, x: nat)
    requires OnVcpu(s, v, irq) && OnVcpu(s, w, x)
    ensures SeenAfter(s, EventOf(op, v, irq), ApplyBit(s, op, v, irq), w, x)
  {
    StepSeen(s, EventOf(op, v, irq), w, x);
  }
}
