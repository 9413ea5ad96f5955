/** The x86 interrupt path of one vCPU on values: local APIC, VMX injection window and HLT state,
    fed by the 8259 pair.  Vector bitmaps are sets of vectors. */
module ApicModel {
  import opened Common
  import opened PicModel
  import PS = PicSafety

  /** `extInt`: LVT0 is unmasked and in ExtINT mode.  `window`: exit as soon as the guest can take an
      interrupt.  `entry`: the vector to be injected on the next entry.  `interruptsOn`, `blocked`: the
      guest's IF flag and interruptibility.  `service` is history: vectors taken from the APIC and not
      yet ended, oldest first. */
  datatype Cpu = Cpu(irr: set<nat>, isr: set<nat>, tpr: nat, ppr: nat,
                     swEnabled: bool, hwEnabled: bool, extInt: bool, pics: Pair,
                     window: bool, entry: Option<nat>, halted: bool, inExit: bool,
                     interruptsOn: bool, blocked: bool, service: seq<nat>)

  const FIRST_VECTOR: nat := 16
  const NUM_VECTORS: nat := 256

  predicate IsVectors(s: set<nat>) { forall v | v in s :: FIRST_VECTOR <= v < NUM_VECTORS }

  predicate Wf(c: Cpu) {
    && IsVectors(c.irr) && IsVectors(c.isr) && c.tpr < NUM_VECTORS && Shape(c.pics)
    && c.pics.master.irqBase >= FIRST_VECTOR && c.pics.slave.irqBase >= FIRST_VECTOR
  }

  ghost predicate IsMax(s: set<nat>, m: nat) { m in s && forall x | x in s :: x <= m }

  lemma {:induction false} FindMax(s: set<nat>) returns (m: nat)
    requires s != {}
    ensures IsMax(s, m)
    decreases |s|
  {
    var a :| a in s;
    var rest := s - {a};
    if rest == {} {
      m := a;
    } else {
      m := FindMax(rest);
      m := if a < m then m else a;
    }
    forall x | x in s ensures x <= m { assert x == a || x in rest; }
  }

  lemma {:induction false} MaxExists(s: set<nat>)
    requires s != {}
    ensures exists m :: m in s && forall x | x in s :: x <= m
  {
    var m := FindMax(s);
    assert m in s && forall x | x in s :: x <= m;
  }

  function Max(s: set<nat>): (m: nat)
    requires s != {}
    ensures m in s && forall x | x in s :: x <= m
  {
    MaxExists(s);
    var m :| m in s && forall x | x in s :: x <= m;
    m
  }

  /** The priority class of a vector or priority register: its upper four bits. */
  function Class(v: nat): nat { v / 16 }

  /** The processor priority, from the task priority and the highest vector in service. */
  function PprOf(tpr: nat, isr: set<nat>): nat {
    var isrv := if isr == {} then 0 else Max(isr);
    if Class(tpr) >= Class(isrv) then tpr else 16 * Class(isrv)
  }

  predicate Consistent(c: Cpu) { c.ppr == PprOf(c.tpr, c.isr) }

  // ----- what is next

  datatype Next = NoIrq | FromPic | FromApic(vector: nat)

  predicate AcceptsPic(c: Cpu) { c.extInt && c.swEnabled }

  function HasInterrupt(c: Cpu): (n: Next)
    ensures n.FromApic? ==> n.vector in c.irr
  {
    if AcceptsPic(c) && c.pics.output then FromPic
    else if c.irr == {} || 16 * Class(Max(c.irr)) <= c.ppr then NoIrq
    else FromApic(Max(c.irr))
  }

  predicate CanInject(c: Cpu) { c.interruptsOn && !c.blocked && c.entry.None? }

  /** Nothing that could be delivered is forgotten: if there is something, the guest will be made to
      exit for it and is not halted. */
  predicate NoLost(c: Cpu) { HasInterrupt(c) != NoIrq ==> c.window && !c.halted }

  /** A vector reported by the APIC has a class above the task priority and everything in service, so
      taking it raises the processor priority. */
  lemma {:induction false} TakenOutranks(c: Cpu)
    requires Wf(c) && Consistent(c) && HasInterrupt(c).FromApic?
    ensures var v := HasInterrupt(c).vector;
            && Class(c.tpr) < Class(v)
            && (forall x | x in c.isr :: Class(x) < Class(v))
            && v !in c.isr
            && PprOf(c.tpr, c.isr + {v}) == 16 * Class(v) > c.ppr
  {
    var v := HasInterrupt(c).vector;
    if c.isr != {} {
      forall x | x in c.isr ensures Class(x) < Class(v) { assert x <= Max(c.isr); }
    }
    assert Max(c.isr + {v}) == v;
  }

  // ----- the mutually recursive operations

  /** The parts no acceptance touches. */
  predicate SameSetup(c: Cpu, r: Cpu) {
    && r.tpr == c.tpr && r.swEnabled == c.swEnabled && r.hwEnabled == c.hwEnabled && r.extInt == c.extInt
    && r.inExit == c.inExit && r.interruptsOn == c.interruptsOn && r.blocked == c.blocked
  }

  /** Acceptance sets the window flag but never clears it, ends a halt but never starts one, and never
      replaces an injection that is already set up. */
  predicate Progresses(c: Cpu, r: Cpu) {
    && (c.window ==> r.window) && (r.halted ==> c.halted) && (c.entry.Some? ==> r.entry == c.entry)
    && (r.entry.Some? && c.entry.None? ==> r.entry.value >= FIRST_VECTOR)
  }

  /** apic_update_ppr.  The measure says that only a falling priority leads to acceptance. */
  function UpdatePpr(c: Cpu): (r: Cpu)
    requires Wf(c)
    ensures Wf(r) && Consistent(r) && SameSetup(c, r) && Progresses(c, r)
    ensures PprOf(c.tpr, c.isr) >= c.ppr ==> r == c.(ppr := PprOf(c.tpr, c.isr))
    ensures NoLost(c) ==> NoLost(r)
    decreases if PprOf(c.tpr, c.isr) < c.ppr then 4 else 0
  {
    var ppr := PprOf(c.tpr, c.isr);
    if ppr < c.ppr then Accept(c.(ppr := ppr)) else c.(ppr := ppr)
  }

  /** vm_vcpu_accept_interrupt */
  function Accept(c: Cpu): (r: Cpu)
    requires Wf(c) && Consistent(c)
    ensures Wf(r) && Consistent(r) && SameSetup(c, r) && Progresses(c, r) && NoLost(r)
    decreases 3
  {
    if HasInterrupt(c).NoIrq? then c else HavePending(c)
  }

  /** vm_have_pending_interrupt */
  function HavePending(c: Cpu): (r: Cpu)
    requires Wf(c) && Consistent(c) && HasInterrupt(c) != NoIrq
    ensures Wf(r) && Consistent(r) && SameSetup(c, r) && Progresses(c, r) && NoLost(r)
    decreases 2
  {
    if !CanInject(c) || c.halted then c.(window := true, halted := false)
    else
      var t := Take(c);
      var c1 := t.cpu.(entry := Some(t.vector));
      if HasInterrupt(c1).NoIrq? then c1 else c1.(window := true)
  }

  datatype Taken = Taken(cpu: Cpu, vector: nat)

  /** vm_apic_get_interrupt, when there is one */
  function Take(c: Cpu): (t: Taken)
    requires Wf(c) && Consistent(c) && HasInterrupt(c) != NoIrq
    ensures Wf(t.cpu) && Consistent(t.cpu) && SameSetup(c, t.cpu) && t.vector >= FIRST_VECTOR
    ensures t.cpu.window == c.window && t.cpu.halted == c.halted && t.cpu.entry == c.entry
    decreases 1
  {
    match HasInterrupt(c)
    case FromPic =>
      var r := ReadIrq(c.pics);
      PS.ReadIrqShape(c.pics);
      Taken(c.(pics := r.pair), r.vector)
    case FromApic(v) =>
      TakenOutranks(c);
      var c1 := UpdatePpr(c.(isr := c.isr + {v}, service := c.service + [v]));
      Taken(c1.(irr := c1.irr - {v}), v)
  }

  // ----- operations of the guest and the VMM

  function WriteTpr(c: Cpu, value: nat): (r: Cpu)
    requires Wf(c) && value < NUM_VECTORS
    ensures Wf(r) && Consistent(r)
    ensures Progresses(c, r)
  {
    UpdatePpr(c.(tpr := value))
  }

  function DropLast(q: seq<nat>): seq<nat> { if q == [] then [] else q[..|q| - 1] }

  /** The register part of an end of interrupt: the highest vector in service is retired. */
  function Retire(c: Cpu): Cpu
    requires c.isr != {}
  {
    c.(isr := c.isr - {Max(c.isr)}, service := DropLast(c.service))
  }

  function WriteEoi(c: Cpu): (r: Cpu)
    requires Wf(c) && Consistent(c)
    ensures Wf(r) && Consistent(r)
    ensures Progresses(c, r)
  {
    if c.isr == {} then c else Accept(UpdatePpr(Retire(c)))
  }

  /** __apic_accept_irq, fixed or lowest priority */
  function RaiseVector(c: Cpu, v: nat): (r: Cpu)
    requires Wf(c) && Consistent(c) && FIRST_VECTOR <= v < NUM_VECTORS
    ensures Wf(r) && Consistent(r)
    ensures Progresses(c, r)
  {
    if c.swEnabled && c.hwEnabled then Accept(c.(irr := c.irr + {v})) else c
  }

  /** vm_check_external_interrupt: its test of the 8259 output is always true. */
  function CheckExternal(c: Cpu): (r: Cpu)
    requires Wf(c) && Consistent(c)
    ensures Wf(r) && Consistent(r)
    ensures Progresses(c, r)
  {
    if AcceptsPic(c) then Accept(c) else c
  }

  function Halt(c: Cpu): Cpu { if HasInterrupt(c).NoIrq? then c.(halted := true) else c }

  /** vm_pending_interrupt_handler */
  function WindowExit(c: Cpu): (r: Cpu)
    requires Wf(c) && Consistent(c)
    ensures Wf(r) && Consistent(r)
  {
    if HasInterrupt(c).NoIrq? then c.(window := false)
    else
      var t := Take(c);
      Settle(t.cpu.(entry := Some(t.vector)))
  }

  /** The end of the window exit: the window stays open only while there is more. */
  function Settle(c: Cpu): Cpu {
    c.(window := c.window && HasInterrupt(c) != NoIrq, halted := false)
  }
}
