/** The virtual GICv2 delivery engine as a state machine on values: which interrupts are pending,
    and in which list register or overflow queue slot the handle of each one sits.

    A handle is named by its virq number.  Seen from one vCPU that name is unambiguous: an SGI or
    PPI has one slot per vCPU, and an SPI lookup always returns the first slot with that number,
    slots being filled in order and never cleared. */
module VgicModel {
  import opened Common

  const NUM_SGI_VIRQS: nat := 16
  const NUM_LOCAL_VIRQS: nat := 32
  const NUM_LIST_REGS: nat := 4
  const MAX_IRQ_QUEUE_LEN: nat := 64
  const NUM_SLOTS_SPI_VIRQ: nat := 200
  /** The SPI bitmaps have 31 words, indexed by irq / 32. */
  const NUM_IRQS: nat := 992

  /** A registered SPI and the state of its input line. */
  datatype Spi = Spi(virq: nat, level: bool)

  /** `local[i]` is the line state of SGI/PPI i if it is registered.  The last three fields are
      history: injections accepted, handles loaded into a list register, handles retired. */
  datatype Vcpu = Vcpu(lr: seq<Option<nat>>, queue: seq<nat>, local: seq<Option<bool>>,
                       accepted: seq<nat>, loaded: seq<nat>, retired: seq<nat>)

  /** `pending0`/`enabled0` are banked per vCPU, `pending`/`enabled` are indexed by irq number;
      `edge[irq]` is Int_config[1] of irq. */
  datatype State = State(on: bool, vcpus: seq<Vcpu>,
                         pending0: seq<seq<bool>>, enabled0: seq<seq<bool>>,
                         pending: seq<bool>, enabled: seq<bool>, edge: seq<bool>,
                         spis: seq<Spi>)

  datatype Event =
    | Register(v: nat, irq: nat)
    | Inject(v: nat, irq: nat)
    | SetLevel(v: nat, irq: nat, level: bool)
    | Enable(v: nat, irq: nat)
    | Disable(v: nat, irq: nat)
    | Maintain(v: nat, idx: nat)
    | ClearPending(v: nat, irq: nat)
    | Power(on: bool)
    | Configure(irq: nat, edge: bool)

  /** A state change and whether the source's call returned success. */
  datatype Outcome = Outcome(state: State, ok: bool)

  predicate VcpuShape(c: Vcpu) {
    |c.lr| == NUM_LIST_REGS && |c.local| == NUM_LOCAL_VIRQS
  }

  predicate Shape(s: State) {
    && |s.pending0| == |s.vcpus| && |s.enabled0| == |s.vcpus|
    && |s.pending| == NUM_IRQS && |s.enabled| == NUM_IRQS && |s.edge| == NUM_IRQS
    && (forall v | 0 <= v < |s.vcpus| ::
          VcpuShape(s.vcpus[v]) && |s.pending0[v]| == NUM_LOCAL_VIRQS && |s.enabled0[v]| == NUM_LOCAL_VIRQS)
  }

  predicate OnVcpu(s: State, v: nat, irq: nat) {
    Shape(s) && v < |s.vcpus| && irq < NUM_IRQS
  }

  // ----- registers and handles

  predicate Pending(s: State, v: nat, irq: nat)
    requires OnVcpu(s, v, irq)
  {
    if irq < NUM_LOCAL_VIRQS then s.pending0[v][irq] else s.pending[irq]
  }

  function SetPending(s: State, v: nat, irq: nat, b: bool): State
    requires OnVcpu(s, v, irq)
  {
    if irq < NUM_LOCAL_VIRQS then s.(pending0 := s.pending0[v := s.pending0[v][irq := b]])
    else s.(pending := s.pending[irq := b])
  }

  predicate Enabled(s: State, v: nat, irq: nat)
    requires OnVcpu(s, v, irq)
  {
    if irq < NUM_LOCAL_VIRQS then s.enabled0[v][irq] else s.enabled[irq]
  }

  function SetEnabled(s: State, v: nat, irq: nat, b: bool): State
    requires OnVcpu(s, v, irq)
  {
    if irq < NUM_LOCAL_VIRQS then s.(enabled0 := s.enabled0[v := s.enabled0[v][irq := b]])
    else s.(enabled := s.enabled[irq := b])
  }

  /** The first SPI slot holding virq. */
  function FindSpi(spis: seq<Spi>, virq: nat): (slot: Option<nat>)
    ensures slot.Some? ==> slot.value < |spis| && spis[slot.value].virq == virq
    ensures slot.Some? ==> forall k | 0 <= k < slot.value :: spis[k].virq != virq
    ensures slot.None? ==> forall k | 0 <= k < |spis| :: spis[k].virq != virq
  {
    if spis == [] then None
    else if spis[0].virq == virq then Some(0)
    else
      match FindSpi(spis[1..], virq)
      case None => None
      case Some(k) => Some(k + 1)
  }

  predicate Registered(s: State, v: nat, irq: nat)
    requires OnVcpu(s, v, irq)
  {
    if irq < NUM_LOCAL_VIRQS then s.vcpus[v].local[irq].Some? else FindSpi(s.spis, irq).Some?
  }

  predicate Level(s: State, v: nat, irq: nat)
    requires OnVcpu(s, v, irq) && Registered(s, v, irq)
  {
    if irq < NUM_LOCAL_VIRQS then s.vcpus[v].local[irq].value else s.spis[FindSpi(s.spis, irq).value].level
  }

  function WithLevel(s: State, v: nat, irq: nat, b: bool): State
    requires OnVcpu(s, v, irq) && Registered(s, v, irq)
  {
    if irq < NUM_LOCAL_VIRQS then
      var c := s.vcpus[v];
      s.(vcpus := s.vcpus[v := c.(local := c.local[irq := Some(b)])])
    else
      var k := FindSpi(s.spis, irq).value;
      s.(spis := s.spis[k := s.spis[k].(level := b)])
  }

  // ----- delivery on one vCPU

  function FirstEmpty(lr: seq<Option<nat>>): (i: Option<nat>)
    ensures i.Some? ==> i.value < |lr| && lr[i.value].None?
    ensures i.Some? ==> forall k | 0 <= k < i.value :: lr[k].Some?
    ensures i.None? ==> forall k | 0 <= k < |lr| :: lr[k].Some?
  {
    if lr == [] then None
    else if lr[0].None? then Some(0)
    else
      match FirstEmpty(lr[1..])
      case None => None
      case Some(k) => Some(k + 1)
  }

  lemma {:induction false} FirstEmptyAt(lr: seq<Option<nat>>, n: nat)
    requires n < |lr| && lr[n].None? && forall k | 0 <= k < n :: lr[k].Some?
    ensures FirstEmpty(lr) == Some(n)
  {
  }

  function Enqueue(c: Vcpu, irq: nat): Vcpu {
    c.(queue := c.queue + [irq], accepted := c.accepted + [irq])
  }

  /** Dequeue the head and load it into list register i. */
  function LoadHead(c: Vcpu, i: nat): Vcpu
    requires i < |c.lr| && c.queue != []
  {
    c.(queue := c.queue[1..], lr := c.lr[i := Some(c.queue[0])], loaded := c.loaded + [c.queue[0]])
  }

  /** Enqueue, then load the head if a list register is free. */
  function Deliver(c: Vcpu, irq: nat): (d: Vcpu)
    ensures |d.lr| == |c.lr| && d.local == c.local
  {
    var e := Enqueue(c, irq);
    match FirstEmpty(e.lr)
    case None => e
    case Some(i) => LoadHead(e, i)
  }

  /** Free list register idx, recording the retirement. */
  function Retire(c: Vcpu, idx: nat): Vcpu
    requires idx < |c.lr| && c.lr[idx].Some?
  {
    c.(lr := c.lr[idx := None], retired := c.retired + [c.lr[idx].value])
  }

  // ----- the operations

  /** The conditions under which an injection makes its irq newly pending. */
  predicate Accepts(s: State, v: nat, irq: nat)
    requires OnVcpu(s, v, irq)
  {
    Registered(s, v, irq) && s.on && Enabled(s, v, irq) && !Pending(s, v, irq)
  }

  predicate QueueFull(s: State, v: nat)
    requires v < |s.vcpus|
  {
    |s.vcpus[v].queue| >= MAX_IRQ_QUEUE_LEN - 1
  }

  function InjectIrq(s: State, v: nat, irq: nat): (o: Outcome)
    requires OnVcpu(s, v, irq)
    ensures Shape(o.state) && |o.state.vcpus| == |s.vcpus|
    ensures o.state.spis == s.spis && o.state.edge == s.edge
  {
    if !Registered(s, v, irq) || !s.on || !Enabled(s, v, irq) then Outcome(s, false)
    else if Pending(s, v, irq) then Outcome(s, true)
    else
      var s1 := SetPending(s, v, irq, true);
      if QueueFull(s, v) then Outcome(s1, false)
      else Outcome(s1.(vcpus := s1.vcpus[v := Deliver(s1.vcpus[v], irq)]), true)
  }

  /** What vgic_irq_ack does after the acknowledge callback. */
  function HandleLevel(s: State, v: nat, irq: nat): (r: State)
    requires OnVcpu(s, v, irq) && Registered(s, v, irq)
    ensures Shape(r) && |r.vcpus| == |s.vcpus|
  {
    if !Level(s, v, irq) then s
    else if s.edge[irq] then WithLevel(s, v, irq, false)
    else InjectIrq(s, v, irq).state
  }

  function RegisterIrq(s: State, v: nat, irq: nat): (o: Outcome)
    requires OnVcpu(s, v, irq)
    ensures Shape(o.state)
  {
    if irq < NUM_LOCAL_VIRQS then
      var c := s.vcpus[v];
      if c.local[irq].Some? then Outcome(s, false)
      else Outcome(s.(vcpus := s.vcpus[v := c.(local := c.local[irq := Some(false)])]), true)
    else if |s.spis| < NUM_SLOTS_SPI_VIRQ then Outcome(s.(spis := s.spis + [Spi(irq, false)]), true)
    else Outcome(s, false)
  }

  function SetIrqLevel(s: State, v: nat, irq: nat, b: bool): (o: Outcome)
    requires OnVcpu(s, v, irq)
    ensures Shape(o.state)
  {
    if !Registered(s, v, irq) then Outcome(s, false)
    else
      var s1 := WithLevel(s, v, irq, b);
      if b && !Level(s, v, irq) then InjectIrq(s1, v, irq) else Outcome(s1, true)
  }

  function EnableIrq(s: State, v: nat, irq: nat): (r: State)
    requires OnVcpu(s, v, irq)
    ensures Shape(r)
  {
    var s1 := SetEnabled(s, v, irq, true);
    if Registered(s1, v, irq) && !Pending(s1, v, irq) then HandleLevel(s1, v, irq) else s1
  }

  function DisableIrq(s: State, v: nat, irq: nat): (r: State)
    requires OnVcpu(s, v, irq)
    ensures Shape(r)
  {
    if irq < NUM_SGI_VIRQS then s else SetEnabled(s, v, irq, false)
  }

  /** The list register is occupied, by a handle that lookup finds. */
  predicate CanMaintain(s: State, v: nat, idx: nat) {
    && Shape(s) && v < |s.vcpus| && idx < NUM_LIST_REGS && s.vcpus[v].lr[idx].Some?
    && s.vcpus[v].lr[idx].value < NUM_IRQS && Registered(s, v, s.vcpus[v].lr[idx].value)
  }

  /** Retire list register idx: the first half of handle_vgic_maintenance. */
  function RetireLr(s: State, v: nat, idx: nat): (r: State)
    requires CanMaintain(s, v, idx)
    ensures Shape(r) && |r.vcpus| == |s.vcpus|
  {
    var c := s.vcpus[v];
    var s1 := s.(vcpus := s.vcpus[v := Retire(c, idx)]);
    SetPending(s1, v, c.lr[idx].value, false)
  }

  /** Reload list register idx from the overflow queue: the last step of handle_vgic_maintenance. */
  function Reload(s: State, v: nat, idx: nat): (r: State)
    requires Shape(s) && v < |s.vcpus| && idx < NUM_LIST_REGS
    ensures Shape(r) && |r.vcpus| == |s.vcpus|
  {
    if s.vcpus[v].queue == [] then s
    else s.(vcpus := s.vcpus[v := LoadHead(s.vcpus[v], idx)])
  }

  function MaintainLr(s: State, v: nat, idx: nat): (r: State)
    requires CanMaintain(s, v, idx)
    ensures Shape(r)
  {
    Reload(HandleLevel(RetireLr(s, v, idx), v, s.vcpus[v].lr[idx].value), v, idx)
  }

  // ----- runs

  predicate CanHappen(s: State, e: Event) {
    match e
    case Maintain(v, idx) => CanMaintain(s, v, idx)
    case Power(_) => Shape(s)
    case Configure(irq, _) => Shape(s) && irq < NUM_IRQS
    case _ => OnVcpu(s, e.v, e.irq)
  }

  function Step(s: State, e: Event): (r: State)
    requires CanHappen(s, e)
    ensures Shape(r)
  {
    match e
    case Register(v, irq) => RegisterIrq(s, v, irq).state
    case Inject(v, irq) => InjectIrq(s, v, irq).state
    case SetLevel(v, irq, b) => SetIrqLevel(s, v, irq, b).state
    case Enable(v, irq) => EnableIrq(s, v, irq)
    case Disable(v, irq) => DisableIrq(s, v, irq)
    case Maintain(v, idx) => MaintainLr(s, v, idx)
    case ClearPending(v, irq) => SetPending(s, v, irq, false)
    case Power(on) => s.(on := on)
    case Configure(irq, edge) => if irq < NUM_LOCAL_VIRQS then s else s.(edge := s.edge[irq := edge])
  }

  /** The distributor after vgic_dist_reset, no interrupt registered. */
  function Reset(n: nat): (s: State)
    ensures Shape(s)
  {
    State(false,
          seq(n, _ => Vcpu(seq(NUM_LIST_REGS, _ => None), [], seq(NUM_LOCAL_VIRQS, _ => None), [], [], [])),
          seq(n, _ => seq(NUM_LOCAL_VIRQS, _ => false)),
          seq(n, _ => seq(NUM_LOCAL_VIRQS, i => i < NUM_SGI_VIRQS)),
          seq(NUM_IRQS, _ => false), seq(NUM_IRQS, _ => false),
          seq(NUM_IRQS, i => i < NUM_SGI_VIRQS), [])
  }

  predicate CanRun(s: State, es: seq<Event>)
    decreases |es|
  {
    es == [] || (CanHappen(s, es[0]) && CanRun(Step(s, es[0]), es[1..]))
  }

  function Run(s: State, es: seq<Event>): (r: State)
    requires CanRun(s, es)
    decreases |es|
  {
    if es == [] then s else Run(Step(s, es[0]), es[1..])
  }
}
