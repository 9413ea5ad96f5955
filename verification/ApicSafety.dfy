/** Interrupts nest by priority class and none is lost, over every run of the VMM's event loop. */
module ApicSafety {
  import opened Common
  import opened PicModel
  import opened ApicModel
  import PR = PicRuns
  import PS = PicSafety

  // ----- nesting by priority class

  /** The vectors in service are those of the history, in strictly rising classes. */
  ghost predicate Nested(c: Cpu) {
    && (forall v :: v in c.isr <==> v in c.service)
    && (forall i, j | 0 <= i < j < |c.service| :: Class(c.service[i]) < Class(c.service[j]))
  }

  /** The vector of a general protection fault. */
  const GP_FAULT: nat := 13

  /** What is injected is an interrupt or a general protection fault. */
  predicate EntryOk(entry: Option<nat>) { entry.Some? ==> entry.value >= FIRST_VECTOR || entry.value == GP_FAULT }

  /** What acceptance keeps besides the priority bookkeeping. */
  ghost predicate Sound(c: Cpu) {
    Nested(c) && PS.Inv(c.pics) && EntryOk(c.entry)
  }

  lemma {:induction false} TakeSound(c: Cpu)
    requires Wf(c) && Consistent(c) && Sound(c) && HasInterrupt(c) != NoIrq
    ensures Sound(Take(c).cpu)
  {
    if HasInterrupt(c).FromApic? {
      TakeNests(c);
    } else {
      PS.ReadIrqKeeps(c.pics);
    }
  }

  lemma {:induction false} TakeNests(c: Cpu)
    requires Wf(c) && Consistent(c) && Nested(c) && HasInterrupt(c).FromApic?
    ensures Nested(Take(c).cpu) && Take(c).cpu.pics == c.pics
  {
    TakenOutranks(c);
    var r := Take(c).cpu;
    var v := HasInterrupt(c).vector;
    assert r.service == c.service + [v] && r.isr == c.isr + {v};
    forall i, j | 0 <= i < j < |r.service| ensures Class(r.service[i]) < Class(r.service[j]) {
      assert j == |c.service| ==> c.service[i] in c.isr;
    }
  }

  /** Setting up an injection, asking for the window and ending a halt are all invisible here. */
  lemma {:induction false} SoundSame(c: Cpu, r: Cpu)
    requires Sound(c) && r.isr == c.isr && r.service == c.service && r.pics == c.pics
    requires r.entry == c.entry || EntryOk(r.entry)
    ensures Sound(r)
  {
  }

  lemma {:induction false} AcceptSound(c: Cpu)
    requires Wf(c) && Consistent(c) && Sound(c)
    ensures Sound(Accept(c))
  {
    if HasInterrupt(c) != NoIrq {
      var r := HavePending(c);
      assert Accept(c) == r;
      if CanInject(c) && !c.halted {
        TakeSound(c);
        SoundSame(Take(c).cpu, r);
      } else {
        SoundSame(c, r);
      }
    }
  }

  lemma {:induction false} UpdatePprSound(c: Cpu)
    requires Wf(c) && Sound(c)
    ensures Sound(UpdatePpr(c))
  {
    var ppr := PprOf(c.tpr, c.isr);
    var c1 := c.(ppr := ppr);
    SoundSame(c, c1);
    if ppr < c.ppr {
      AcceptSound(c1);
      assert UpdatePpr(c) == Accept(c1);
    }
  }

  /** The highest vector in service is the one taken last.  Retiring takes it, and no other, out of service and pops the
      history. */
  lemma {:induction false} RetiresLatest(c: Cpu)
    requires Nested(c)
    ensures c.isr == {} <==> c.service == []
    ensures c.service != [] ==>
              var n := |c.service| - 1;
              && Max(c.isr) == c.service[n] && c.service[n] !in c.service[..n] && Nested(Retire(c))
              && Retire(c) == c.(isr := c.isr - {c.service[n]}, service := c.service[..n])
  {
    if c.service != [] {
      var top := c.service[|c.service| - 1];
      assert top in c.isr;
      var m := Max(c.isr);
      var k :| 0 <= k < |c.service| && c.service[k] == m;
      assert k == |c.service| - 1;
      var r := Retire(c);
      forall v ensures v in r.isr <==> v in r.service {
        if v in c.service && v != top {
          var i :| 0 <= i < |c.service| && c.service[i] == v;
          assert r.service[i] == v;
        }
        if v in r.service {
          var i :| 0 <= i < |r.service| && r.service[i] == v;
          assert Class(c.service[i]) < Class(top);
        }
      }
    }
  }

  /** At most fifteen vectors are ever in service: one per priority class from 1 to 15. */
  lemma {:induction false} AtMostFifteen(c: Cpu)
    requires Wf(c) && Nested(c)
    ensures |c.service| <= 15
  {
    if c.service != [] {
      var n := |c.service| - 1;
      ClassesGrow(c.service, n);
      assert c.service[n] in c.isr && c.service[0] in c.isr;
    }
  }

  lemma {:induction false} ClassesGrow(q: seq<nat>, n: nat)
    requires n < |q| && forall i, j | 0 <= i < j < |q| :: Class(q[i]) < Class(q[j])
    ensures Class(q[n]) >= Class(q[0]) + n
  {
    if n > 0 {
      ClassesGrow(q, n - 1);
    }
  }

  // ----- the event loop

  /** What the guest did to the state between an entry and the next exit. */
  datatype Ran = Ran(delivered: bool, interruptsOn: bool, blocked: bool)

  /** Why the guest exited.  `Device` is an access whose handler drives 8259 lines, `Fault` an access to an MSR that
      is not supported, which is answered with an exception. */
  datatype Reason =
    | Hlt
    | InterruptWindow
    | Tpr(value: nat)
    | Eoi
    | Ipi(vector: nat)
    | Spiv(enabled: bool)
    | Lvt0(extInt: bool)
    | BaseMsr(enabled: bool)
    | PicPort(event: PR.Event)
    | Device(lines: seq<PR.Event>)
    | Fault
    | Other

  datatype Event =
    | Exit(ran: Ran, reason: Reason)
    | Notification(ran: Ran, lines: seq<PR.Event>)

  function AfterRun(c: Cpu, g: Ran): Cpu {
    c.(entry := if g.delivered then None else c.entry, interruptsOn := g.interruptsOn, blocked := g.blocked)
  }

  function Handle(c: Cpu, r: Reason): Cpu
    requires Wf(c) && Consistent(c) && ReasonShape(c, r)
  {
    match r
    case Hlt => Halt(c)
    case InterruptWindow => WindowExit(c)
    case Tpr(value) => WriteTpr(c, value)
    case Eoi => WriteEoi(c)
    case Ipi(vector) => RaiseVector(c, vector)
    case Spiv(enabled) => c.(swEnabled := enabled, extInt := c.extInt && enabled)
    case Lvt0(extInt) => c.(extInt := extInt && c.swEnabled)
    case BaseMsr(enabled) => c.(hwEnabled := enabled)
    case PicPort(event) => c.(pics := PR.Step(c.pics, event))
    case Device(lines) => c.(pics := Lines(c.pics, lines))
    case Fault => c.(entry := Some(GP_FAULT))
    case Other => c
  }

  /** Register values are in range; the processor exits for the interrupt window only when that was
      asked for and an interrupt can be taken; an exception while an injection is set up is fatal. */
  predicate ReasonShape(c: Cpu, r: Reason) {
    match r
    case InterruptWindow => c.window && CanInject(c)
    case Tpr(value) => value < NUM_VECTORS
    case Ipi(vector) => FIRST_VECTOR <= vector < NUM_VECTORS
    case PicPort(event) => (event.Cmd? || event.Elcr?) && Shape(c.pics) && PR.CanHappen(event)
    case Device(lines) => LinesCan(c.pics, lines)
    case Fault => c.entry.None?
    case _ => true
  }

  /** vm_resume: an exit that did not end halted lets the guest go on. */
  function Resume(c: Cpu): Cpu { if c.inExit && !c.halted then c.(inExit := false) else c }

  predicate LinesCan(s: Pair, es: seq<PR.Event>)
    decreases |es|
  {
    es == [] || ((es[0].Line? || es[0].Pulse?) && Shape(s) && PR.CanHappen(es[0]) && PR.Good(s, es[0]) && LinesCan(PR.Step(s, es[0]), es[1..]))
  }

  function Lines(s: Pair, es: seq<PR.Event>): Pair
    requires LinesCan(s, es)
    decreases |es|
  {
    if es == [] then s else Lines(PR.Step(s, es[0]), es[1..])
  }

  /** The guest is entered only while it is neither halted nor in an exit. */
  predicate Enters(c: Cpu) { !c.halted && !c.inExit }

  predicate CanHappen(c: Cpu, e: Event) {
    match e
    case Exit(ran, reason) => Enters(c) && ReasonShape(AfterRun(c, ran), reason)
    case Notification(_, lines) => LinesCan(c.pics, lines)
  }

  /** One turn of vm_run_arch. */
  function Step(c: Cpu, e: Event): Cpu
    requires Wf(c) && Consistent(c) && CanHappen(c, e)
  {
    match e
    case Exit(ran, reason) =>
      var c1 := Handle(AfterRun(c, ran).(inExit := true), reason);
      HandleKeeps(AfterRun(c, ran).(inExit := true), reason);
      Resume(CheckExternal(c1))
    case Notification(ran, lines) =>
      var c1 := if Enters(c) then AfterRun(c, ran) else c;
      LinesBases(c.pics, lines);
      var c2 := c1.(pics := Lines(c1.pics, lines));
      Resume(if c2.pics.output then CheckExternal(c2) else c2)
  }

  lemma {:induction false} LinesBases(s: Pair, es: seq<PR.Event>)
    requires LinesCan(s, es)
    ensures SameBases(s, Lines(s, es)) && (Shape(s) ==> Shape(Lines(s, es)))
    decreases |es|
  {
    if es != [] {
      StepBases(s, es[0]);
      LinesBases(PR.Step(s, es[0]), es[1..]);
    }
  }

  lemma {:induction false} StepBases(s: Pair, e: PR.Event)
    requires Shape(s) && PR.CanHappen(e)
    ensures SameBases(s, PR.Step(s, e)) && Shape(PR.Step(s, e))
  {
    PR.StepShape(s, e);
  }

  lemma {:induction false} HandleKeeps(c: Cpu, r: Reason)
    requires Wf(c) && Consistent(c) && ReasonShape(c, r)
    ensures Wf(Handle(c, r)) && Consistent(Handle(c, r))
  {
    match r
    case PicPort(event) => StepBases(c.pics, event);
    case Device(lines) => LinesBases(c.pics, lines);
    case Hlt => assert Handle(c, r) == Halt(c);
    case InterruptWindow => assert Handle(c, r) == WindowExit(c);
    case Tpr(value) => assert Handle(c, r) == WriteTpr(c, value);
    case Eoi => assert Handle(c, r) == WriteEoi(c);
    case Ipi(vector) => assert Handle(c, r) == RaiseVector(c, vector);
    case _ =>
  }

  // ----- one turn of the loop

  /** Between turns of the loop. */
  ghost predicate LoopInv(c: Cpu) {
    Wf(c) && Consistent(c) && Sound(c) && NoLost(c) && (c.inExit <==> c.halted)
  }

  /** Handling an exit leaves nothing forgotten, except perhaps something from the 8259 pair, which
      the check that follows picks up. */
  lemma {:induction false} HandleNoLost(c: Cpu, r: Reason)
    requires Wf(c) && Consistent(c) && ReasonShape(c, r) && NoLost(c)
    ensures Wf(Handle(c, r)) && Consistent(Handle(c, r))
    ensures AcceptsPic(Handle(c, r)) || NoLost(Handle(c, r))
    ensures Handle(c, r).inExit == c.inExit
  {
    HandleKeeps(c, r);
    match r
    case InterruptWindow => WindowNoLost(c);
    case Tpr(value) => assert Handle(c, r) == WriteTpr(c, value);
    case Eoi => assert Handle(c, r) == WriteEoi(c);
    case Ipi(vector) => assert Handle(c, r) == RaiseVector(c, vector);
    case _ => PlainNoLost(c, r);
  }

  lemma {:induction false} WindowNoLost(c: Cpu)
    requires Wf(c) && Consistent(c) && NoLost(c)
    ensures NoLost(WindowExit(c)) && WindowExit(c).inExit == c.inExit
  {
  }

  /** Exits that only touch enable bits, the halt flag or the 8259 pair. */
  lemma {:induction false} PlainNoLost(c: Cpu, r: Reason)
    requires Wf(c) && Consistent(c) && ReasonShape(c, r) && NoLost(c)
    requires !r.InterruptWindow? && !r.Tpr? && !r.Eoi? && !r.Ipi?
    ensures AcceptsPic(Handle(c, r)) || NoLost(Handle(c, r))
    ensures Handle(c, r).inExit == c.inExit
  {
  }

  lemma {:induction false} HandleSound(c: Cpu, r: Reason)
    requires Wf(c) && Consistent(c) && ReasonShape(c, r) && Sound(c)
    ensures Sound(Handle(c, r))
  {
    match r
    case InterruptWindow => WindowSound(c);
    case Tpr(value) =>
      SoundSame(c, c.(tpr := value));
      UpdatePprSound(c.(tpr := value));
    case Eoi => EoiSound(c);
    case Ipi(vector) => RaiseSound(c, vector);
    case _ => PlainHandleSound(c, r);
  }

  /** Exits that only touch enable bits, the halt flag or the 8259 pair. */
  lemma {:induction false} PlainHandleSound(c: Cpu, r: Reason)
    requires Wf(c) && Consistent(c) && ReasonShape(c, r) && Sound(c)
    requires !r.InterruptWindow? && !r.Tpr? && !r.Eoi? && !r.Ipi?
    ensures Sound(Handle(c, r))
  {
    if r.PicPort? {
      PicPortSound(c, r.event);
    } else if r.Device? {
      LinesKeep(c.pics, r.lines);
    } else {
      FlagsOnly(c, r);
      SoundSame(c, Handle(c, r));
    }
  }

  lemma {:induction false} FlagsOnly(c: Cpu, r: Reason)
    requires Wf(c) && Consistent(c) && ReasonShape(c, r)
    requires r.Hlt? || r.Spiv? || r.Lvt0? || r.BaseMsr? || r.Fault? || r.Other?
    ensures var h := Handle(c, r);
            h.isr == c.isr && h.service == c.service && h.pics == c.pics && (h.entry == c.entry || EntryOk(h.entry))
  {
    if r.Hlt? {
      assert Handle(c, r) == Halt(c);
    }
  }

  lemma {:induction false} PicPortSound(c: Cpu, event: PR.Event)
    requires Wf(c) && Sound(c) && (event.Cmd? || event.Elcr?) && PR.CanHappen(event)
    ensures Sound(c.(pics := PR.Step(c.pics, event)))
  {
    PR.StepKeepsIff(c.pics, event);
  }

  lemma {:induction false} RaiseSound(c: Cpu, vector: nat)
    requires Wf(c) && Consistent(c) && Sound(c) && FIRST_VECTOR <= vector < NUM_VECTORS
    ensures Sound(RaiseVector(c, vector))
  {
    if c.swEnabled && c.hwEnabled {
      SoundSame(c, c.(irr := c.irr + {vector}));
      AcceptSound(c.(irr := c.irr + {vector}));
    }
  }

  lemma {:induction false} WindowSound(c: Cpu)
    requires Wf(c) && Consistent(c) && Sound(c)
    ensures Sound(WindowExit(c))
  {
    if HasInterrupt(c).NoIrq? {
      SoundSame(c, WindowExit(c));
    } else {
      TakeSound(c);
      SoundSame(Take(c).cpu, WindowExit(c));
    }
  }

  lemma {:induction false} EoiSound(c: Cpu)
    requires Wf(c) && Consistent(c) && Sound(c)
    ensures Sound(WriteEoi(c))
  {
    if c.isr != {} {
      RetiresLatest(c);
      UpdatePprSound(Retire(c));
      AcceptSound(UpdatePpr(Retire(c)));
    }
  }

  lemma {:induction false} CheckExternalSettles(c: Cpu)
    requires Wf(c) && Consistent(c) && Sound(c) && (AcceptsPic(c) || NoLost(c))
    ensures Sound(CheckExternal(c)) && NoLost(CheckExternal(c)) && SameSetup(c, CheckExternal(c)) && Progresses(c, CheckExternal(c))
  {
    if AcceptsPic(c) {
      AcceptSound(c);
    }
  }

  lemma {:induction false} ResumeSettles(c: Cpu)
    requires Wf(c) && Consistent(c) && Sound(c) && NoLost(c) && (c.halted ==> c.inExit)
    ensures LoopInv(Resume(c))
  {
    SoundSame(c, Resume(c));
  }

  lemma {:induction false} ExitKeeps(c: Cpu, ran: Ran, reason: Reason)
    requires LoopInv(c) && CanHappen(c, Exit(ran, reason))
    ensures LoopInv(Step(c, Exit(ran, reason)))
  {
    var c0 := AfterRun(c, ran).(inExit := true);
    SoundSame(c, c0);
    HandleNoLost(c0, reason);
    HandleSound(c0, reason);
    var c1 := Handle(c0, reason);
    CheckExternalSettles(c1);
    ResumeSettles(CheckExternal(c1));
  }

  lemma {:induction false} LinesKeep(s: Pair, es: seq<PR.Event>)
    requires PS.Inv(s) && LinesCan(s, es)
    ensures PS.Inv(Lines(s, es))
    decreases |es|
  {
    if es != [] {
      PR.StepKeepsIff(s, es[0]);
      LinesKeep(PR.Step(s, es[0]), es[1..]);
    }
  }

  lemma {:induction false} NotificationKeeps(c: Cpu, ran: Ran, lines: seq<PR.Event>)
    requires LoopInv(c) && CanHappen(c, Notification(ran, lines))
    ensures LoopInv(Step(c, Notification(ran, lines)))
  {
    var c1 := if Enters(c) then AfterRun(c, ran) else c;
    SoundSame(c, c1);
    LinesBases(c.pics, lines);
    LinesKeep(c.pics, lines);
    var c2 := c1.(pics := Lines(c1.pics, lines));
    if c2.pics.output {
      CheckExternalSettles(c2);
      ResumeSettles(CheckExternal(c2));
    } else {
      ResumeSettles(c2);
    }
  }

  // ----- whole runs

  /** The boot vCPU once the guest has programmed the 8259 bases. */
  function Booted(masterBase: nat, slaveBase: nat): Cpu {
    var pics := Init();
    var based := pics.(master := pics.master.(irqBase := masterBase), slave := pics.slave.(irqBase := slaveBase));
    Cpu({}, {}, 0, 0, true, true, true, based, false, None, false, false, false, false, [])
  }

  lemma {:induction false} BootSettled(masterBase: nat, slaveBase: nat)
    requires masterBase >= FIRST_VECTOR && slaveBase >= FIRST_VECTOR
    ensures LoopInv(Booted(masterBase, slaveBase))
  {
    PR.InitNests();
    var c := Booted(masterBase, slaveBase);
    PS.GetIrqSame(Init().master, c.pics.master, true);
    PS.GetIrqSame(Init().slave, c.pics.slave, false);
  }

  predicate CanRun(c: Cpu, es: seq<Event>)
    decreases |es|
  {
    es == [] || (Wf(c) && Consistent(c) && CanHappen(c, es[0]) && CanRun(Step(c, es[0]), es[1..]))
  }

  function Run(c: Cpu, es: seq<Event>): Cpu
    requires CanRun(c, es)
    decreases |es|
  {
    if es == [] then c else Run(Step(c, es[0]), es[1..])
  }

  /** In every run: priorities stay consistent, service nests, and a deliverable interrupt always finds
      the window flag set and the vCPU running. */
  lemma {:induction false} RunKeeps(c: Cpu, es: seq<Event>)
    requires LoopInv(c) && CanRun(c, es)
    ensures LoopInv(Run(c, es)) && |Run(c, es).service| <= 15
    decreases |es|
  {
    if es == [] {
      AtMostFifteen(c);
    } else {
      match es[0] {
        case Exit(ran, reason) => ExitKeeps(c, ran, reason);
        case Notification(ran, lines) => NotificationKeeps(c, ran, lines);
      }
      RunKeeps(Step(c, es[0]), es[1..]);
    }
  }

  lemma {:induction false} HandleKeepsInjection(c: Cpu, r: Reason)
    requires Wf(c) && Consistent(c) && ReasonShape(c, r) && c.entry.Some?
    ensures Handle(c, r).entry == c.entry
  {
    match r
    case Tpr(value) => assert Handle(c, r) == WriteTpr(c, value);
    case Eoi => assert Handle(c, r) == WriteEoi(c);
    case Ipi(vector) => assert Handle(c, r) == RaiseVector(c, vector);
    case InterruptWindow =>
    case _ => PlainKeepsInjection(c, r);
  }

  lemma {:induction false} PlainKeepsInjection(c: Cpu, r: Reason)
    requires Wf(c) && Consistent(c) && ReasonShape(c, r) && c.entry.Some?
    requires !r.InterruptWindow? && !r.Tpr? && !r.Eoi? && !r.Ipi?
    ensures Handle(c, r).entry == c.entry
  {
    if r.Hlt? {
      assert Handle(c, r) == Halt(c);
    } else if r.PicPort? || r.Device? {
      assert Handle(c, r) == c.(pics := Handle(c, r).pics);
    } else {
      assert Handle(c, r).entry == c.entry;
    }
  }

  lemma {:induction false} ExitKeepsInjection(c: Cpu, ran: Ran, reason: Reason)
    requires Wf(c) && Consistent(c) && CanHappen(c, Exit(ran, reason)) && c.entry.Some? && !ran.delivered
    ensures Step(c, Exit(ran, reason)).entry == c.entry
  {
    var c0 := AfterRun(c, ran).(inExit := true);
    HandleKeeps(c0, reason);
    HandleKeepsInjection(c0, reason);
    ResumeKeepsInjection(CheckExternal(Handle(c0, reason)));
  }

  lemma {:induction false} NotificationKeepsInjection(c: Cpu, ran: Ran, lines: seq<PR.Event>)
    requires Wf(c) && Consistent(c) && CanHappen(c, Notification(ran, lines)) && c.entry.Some? && (Enters(c) ==> !ran.delivered)
    ensures Step(c, Notification(ran, lines)).entry == c.entry
  {
    LinesBases(c.pics, lines);
  }

  lemma {:induction false} ResumeKeepsInjection(c: Cpu)
    ensures Resume(c).entry == c.entry
  {
  }

  /** An injection that is set up and not yet delivered survives every turn of the loop. */
  lemma {:induction false} InjectionNotOverwritten(c: Cpu, e: Event)
    requires Wf(c) && Consistent(c) && CanHappen(c, e)
    requires c.entry.Some? && (Enters(c) ==> !e.ran.delivered)
    ensures Step(c, e).entry == c.entry
  {
    if e.Exit? {
      ExitKeepsInjection(c, e.ran, e.reason);
    } else {
      NotificationKeepsInjection(c, e.ran, e.lines);
    }
  }
}
