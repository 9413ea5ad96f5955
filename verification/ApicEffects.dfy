/** What each operation of the interrupt path does to what the guest sees, in terms of the operation's own arguments:
    which vector is due, when it is injected, and what happens to the requests and to the vectors in service. */
module ApicEffects {
  import opened Common
  import opened PicModel
  import opened PicEffects
  import opened ApicModel
  import opened ApicSafety

  // ----- what is due

  /** The 8259 pair is heard and asks for service. */
  predicate PicAsks(c: Cpu) { c.extInt && c.swEnabled && c.pics.output }

  /** A requested vector whose class is above the task priority and above everything in service. */
  ghost predicate Eligible(c: Cpu, v: nat) {
    v in c.irr && Class(c.tpr) < Class(v) && forall x | x in c.isr :: Class(x) < Class(v)
  }

  /** The vector to give the guest: the answer of the 8259 pair if it asks, otherwise the highest request. */
  ghost predicate Due(c: Cpu, v: nat)
    requires Shape(c.pics)
  {
    if PicAsks(c) then VectorFor(c.pics, v) else Eligible(c, v) && forall x | x in c.irr :: x <= v
  }

  ghost predicate Pending(c: Cpu) { PicAsks(c) || exists v :: Eligible(c, v) }

  lemma {:induction false} ClassGrows(v: nat, w: nat)
    requires v <= w
    ensures Class(v) <= Class(w)
  {
  }

  lemma {:induction false} AbovePpr(c: Cpu, v: nat)
    requires Consistent(c)
    ensures 16 * Class(v) > c.ppr <==> Class(c.tpr) < Class(v) && forall x | x in c.isr :: Class(x) < Class(v)
  {
    if c.isr != {} {
      forall x | x in c.isr ensures Class(x) <= Class(Max(c.isr)) { ClassGrows(x, Max(c.isr)); }
    }
  }

  /** The APIC reports an interrupt exactly if there is one, and the one that is due. */
  lemma {:induction false} NextIs(c: Cpu)
    requires Wf(c) && Consistent(c)
    ensures HasInterrupt(c) != NoIrq <==> Pending(c)
    ensures HasInterrupt(c).FromPic? <==> PicAsks(c)
    ensures HasInterrupt(c).FromApic? ==> Due(c, HasInterrupt(c).vector)
  {
    if c.irr != {} {
      var m := Max(c.irr);
      AbovePpr(c, m);
      assert 16 * Class(m) > c.ppr <==> Eligible(c, m);
      forall v | Eligible(c, v) ensures Eligible(c, m) { ClassGrows(v, m); }
    }
  }

  // ----- acceptance

  /** What taking from the IRR does: `got` is the vector moved into service and set up for injection, if any. */
  predicate Took(c: Cpu, r: Cpu, got: Option<nat>) {
    match got
    case None => r.irr == c.irr && r.isr == c.isr && r.service == c.service
    case Some(v) =>
      && v in c.irr && v !in c.isr && c.entry.None? && r.entry == Some(v)
      && r.irr == c.irr - {v} && r.isr == c.isr + {v} && r.service == c.service + [v] && r.pics == c.pics
  }

  /** The interrupt that is due has been handed over. */
  ghost predicate Delivered(c: Cpu, r: Cpu)
    requires Shape(c.pics)
  {
    && r.entry.Some? && Due(c, r.entry.value)
    && if PicAsks(c) then Took(c, r, None) && r.pics == ReadIrq(c.pics).pair else Took(c, r, r.entry)
  }

  lemma {:induction false} TakeSeen(c: Cpu)
    requires Wf(c) && Consistent(c) && HasInterrupt(c) != NoIrq && c.entry.None?
    ensures var t := Take(c); Delivered(c, t.cpu.(entry := Some(t.vector)))
  {
    NextIs(c);
    if PicAsks(c) {
      ReadVector(c.pics);
    } else {
      TakenOutranks(c);
    }
  }

  /** Window and halt do not matter to either. */
  lemma {:induction false} DeliveredSame(c: Cpu, d: Cpu, e: Cpu)
    requires Shape(c.pics) && Delivered(c, d)
    requires e.irr == d.irr && e.isr == d.isr && e.service == d.service && e.pics == d.pics && e.entry == d.entry
    ensures Delivered(c, e)
  {
  }

  lemma {:induction false} PendingSame(d: Cpu, e: Cpu)
    requires e.irr == d.irr && e.isr == d.isr && e.tpr == d.tpr && e.pics == d.pics
    requires e.extInt == d.extInt && e.swEnabled == d.swEnabled
    ensures Pending(e) <==> Pending(d)
  {
    assert forall v :: Eligible(e, v) <==> Eligible(d, v);
  }

  /** What acceptance does: an interrupt that is due is delivered if the guest can take it now and is not halted, and
      otherwise the guest is woken and will exit as soon as it can take it. */
  ghost predicate Accepted(c: Cpu, r: Cpu)
    requires Shape(c.pics)
  {
    if !Pending(c) then r == c
    else if CanInject(c) && !c.halted then Delivered(c, r)
    else r == c.(window := true, halted := false)
  }

  lemma {:induction false} AcceptSeen(c: Cpu)
    requires Wf(c) && Consistent(c)
    ensures Accepted(c, Accept(c))
  {
    NextIs(c);
    if Pending(c) {
      assert Accept(c) == HavePending(c);
      if CanInject(c) && !c.halted {
        TakeSeen(c);
      }
    }
  }

  lemma {:induction false} AcceptTook(c: Cpu) returns (got: Option<nat>)
    requires Wf(c) && Consistent(c)
    ensures Took(c, Accept(c), got)
  {
    AcceptSeen(c);
    got := if Pending(c) && CanInject(c) && !c.halted && !PicAsks(c) then Accept(c).entry else None;
  }

  /** The state with its priority brought up to date. */
  function Ranked(c: Cpu): Cpu { c.(ppr := PprOf(c.tpr, c.isr)) }

  lemma {:induction false} UpdateTook(c: Cpu) returns (got: Option<nat>)
    requires Wf(c)
    ensures Took(c, UpdatePpr(c), got) && (UpdatePpr(c).entry.None? ==> UpdatePpr(c).pics == c.pics)
    ensures Ranked(c).ppr >= c.ppr ==> UpdatePpr(c) == Ranked(c)
    ensures Ranked(c).ppr < c.ppr ==> Accepted(Ranked(c), UpdatePpr(c))
  {
    got := None;
    if Ranked(c).ppr < c.ppr {
      AcceptSeen(Ranked(c));
      got := AcceptTook(Ranked(c));
    }
  }

  /** What can_inject decides: acceptance changes the injection exactly if the guest can take what is pending now. */
  lemma {:induction false} InjectsNowIff(c: Cpu)
    requires Wf(c) && Consistent(c) && Pending(c)
    ensures Accept(c).entry != c.entry <==> CanInject(c) && !c.halted
    ensures CanInject(c) && !c.halted ==> Delivered(c, Accept(c))
    ensures !(CanInject(c) && !c.halted) ==> Accept(c) == c.(window := true, halted := false)
  {
    AcceptSeen(c);
  }

  /** Entering and leaving the guest changes nothing about what is due. */
  lemma {:induction false} DueLater(c: Cpu, d: Cpu, e: Cpu)
    requires Shape(c.pics) && Shape(d.pics) && d.irr == c.irr && d.isr == c.isr && d.service == c.service && d.tpr == c.tpr
    requires d.pics == c.pics && d.extInt == c.extInt && d.swEnabled == c.swEnabled && c.entry == d.entry && Delivered(d, e)
    ensures Delivered(c, e)
  {
  }

  /** What could not be injected at once is injected at the window exit it asked for, as soon as the guest can take
      it. */
  lemma {:induction false} WaitsThenInjects(c: Cpu, g: Ran)
    requires Wf(c) && Consistent(c) && Pending(c) && !(CanInject(c) && !c.halted)
    requires CanInject(AfterRun(Accept(c), g))
    ensures ReasonShape(AfterRun(Accept(c), g), InterruptWindow)
    ensures Delivered(c.(entry := None), WindowExit(AfterRun(Accept(c), g)))
  {
    AcceptSeen(c);
    var d := AfterRun(Accept(c), g);
    PendingSame(c, d);
    WindowSeen(d);
    DueLater(c.(entry := None), d, WindowExit(d));
  }

  // ----- the guest's and the VMM's operations

  /** With an injection set up, acceptance only opens the window. */
  lemma {:induction false} AcceptLater(u: Cpu)
    requires Wf(u) && Consistent(u) && u.entry.Some?
    ensures Accept(u) == u || Accept(u) == u.(window := true, halted := false)
  {
    AcceptSeen(u);
  }

  lemma {:induction false} AcceptAgain(d: Cpu, u: Cpu)
    requires Wf(d) && Wf(u) && Consistent(u) && (u == d || Accepted(d, u))
    requires CanInject(d) && !d.halted && Pending(d)
    ensures Delivered(d, Accept(u))
  {
    if u == d {
      AcceptSeen(u);
    } else {
      AcceptLater(u);
      DeliveredSame(d, u, Accept(u));
    }
  }

  lemma {:induction false} TookAgain(c: Cpu, u: Cpu, first: Option<nat>) returns (got: Option<nat>)
    requires Wf(u) && Consistent(u) && Took(c, u, first)
    requires u.entry.None? ==> c.entry.None? && u.pics == c.pics
    ensures Took(c, Accept(u), got)
  {
    got := first;
    if u.entry.Some? {
      AcceptLater(u);
    } else {
      got := AcceptTook(u);
    }
  }

  lemma {:induction false} UpdateThenAccept(c: Cpu) returns (got: Option<nat>)
    requires Wf(c)
    ensures var r := Accept(UpdatePpr(c));
            && Took(c, r, got)
            && (CanInject(c) && !c.halted && Pending(Ranked(c)) ==> Delivered(Ranked(c), r))
  {
    got := UpdateTook(c);
    got := TookAgain(c, UpdatePpr(c), got);
    if CanInject(c) && !c.halted && Pending(Ranked(c)) {
      AcceptAgain(Ranked(c), UpdatePpr(c));
    }
  }

  /** An end of interrupt takes the vector taken last, and no other, out of service; then at most one request is taken,
      and one that is due is delivered if the guest can take it. */
  lemma {:induction false} EoiSeen(c: Cpu) returns (d: Cpu, got: Option<nat>)
    requires Wf(c) && Consistent(c) && Nested(c)
    ensures c.service == [] ==> WriteEoi(c) == c
    ensures c.service != [] ==>
              var n := |c.service| - 1;
              && d == Ranked(c.(isr := c.isr - {c.service[n]}, service := c.service[..n]))
              && Took(d, WriteEoi(c), got) && SameSetup(c, WriteEoi(c))
              && Shape(d.pics) && (CanInject(c) && !c.halted && Pending(d) ==> Delivered(d, WriteEoi(c)))
              && NoLost(WriteEoi(c))
  {
    RetiresLatest(c);
    d, got := c, None;
    if c.service != [] {
      d := Ranked(Retire(c));
      got := UpdateThenAccept(Retire(c));
    }
  }

  lemma {:induction false} RankedNow(c: Cpu, d: Cpu)
    requires Wf(c) && Consistent(c) && Wf(d) && d.ppr == c.ppr && !Pending(c) && Pending(Ranked(d))
    requires d.irr == c.irr && d.pics == c.pics && d.extInt == c.extInt && d.swEnabled == c.swEnabled
    requires CanInject(d) && !d.halted
    ensures Delivered(Ranked(d), UpdatePpr(d))
  {
    PprFalls(c, Ranked(d));
    var got := UpdateTook(d);
  }

  /** A write to the task priority stores its value; lowering it lets at most one request be taken. */
  lemma {:induction false} TprSeen(c: Cpu, value: nat) returns (d: Cpu, got: Option<nat>)
    requires Wf(c) && Consistent(c) && value < NUM_VECTORS
    ensures d == Ranked(c.(tpr := value)) && SameSetup(d, WriteTpr(c, value)) && Took(d, WriteTpr(c, value), got)
    ensures Shape(d.pics) && (CanInject(c) && !c.halted && Pending(d) && !Pending(c) ==> Delivered(d, WriteTpr(c, value)))
  {
    d := Ranked(c.(tpr := value));
    got := UpdateTook(c.(tpr := value));
    if CanInject(c) && !c.halted && Pending(d) && !Pending(c) {
      RankedNow(c, c.(tpr := value));
    }
  }

  /** What becomes deliverable does so because the processor priority falls. */
  lemma {:induction false} PprFalls(c: Cpu, d: Cpu)
    requires Wf(c) && Consistent(c) && Wf(d) && Consistent(d) && Pending(d) && !Pending(c)
    requires d.irr == c.irr && d.pics == c.pics && d.extInt == c.extInt && d.swEnabled == c.swEnabled
    ensures d.ppr < c.ppr
  {
    NextIs(c);
    NextIs(d);
  }

  /** Raising a vector requests it, in an enabled APIC, and it stays requested or is the one taken; a disabled APIC
      ignores it. */
  lemma {:induction false} RaiseSeen(c: Cpu, v: nat) returns (d: Cpu, got: Option<nat>)
    requires Wf(c) && Consistent(c) && FIRST_VECTOR <= v < NUM_VECTORS
    ensures !(c.swEnabled && c.hwEnabled) ==> RaiseVector(c, v) == c
    ensures c.swEnabled && c.hwEnabled ==>
              && d == c.(irr := c.irr + {v}) && Took(d, RaiseVector(c, v), got) && Accepted(d, RaiseVector(c, v))
              && (v in RaiseVector(c, v).irr || (v in RaiseVector(c, v).isr && RaiseVector(c, v).entry == Some(v)))
  {
    d, got := c.(irr := c.irr + {v}), None;
    if c.swEnabled && c.hwEnabled {
      AcceptSeen(d);
      got := AcceptTook(d);
    }
  }

  /** A check for external interrupts accepts what is due exactly if the 8259 pair is heard. */
  lemma {:induction false} CheckSeen(c: Cpu)
    requires Wf(c) && Consistent(c)
    ensures if c.extInt && c.swEnabled then Accepted(c, CheckExternal(c)) else CheckExternal(c) == c
  {
    AcceptSeen(c);
  }

  /** HLT halts the guest exactly if nothing is pending, and changes nothing else. */
  lemma {:induction false} HaltSeen(c: Cpu)
    requires Wf(c) && Consistent(c)
    ensures Halt(c) == if Pending(c) then c else c.(halted := true)
  {
    NextIs(c);
  }

  lemma {:induction false} SettleSeen(c: Cpu, d: Cpu)
    requires Shape(c.pics) && Wf(d) && Consistent(d) && Delivered(c, d)
    ensures Delivered(c, Settle(d)) && !Settle(d).halted
    ensures Settle(d).window <==> d.window && Pending(Settle(d))
  {
    DeliveredSame(c, d, Settle(d));
    NextIs(d);
    PendingSame(d, Settle(d));
  }

  /** The window exit delivers what is due and keeps the window open exactly while there is more. */
  lemma {:induction false} WindowSeen(c: Cpu)
    requires Wf(c) && Consistent(c) && c.entry.None?
    ensures !Pending(c) ==> WindowExit(c) == c.(window := false)
    ensures Pending(c) ==> Delivered(c, WindowExit(c)) && !WindowExit(c).halted
    ensures Pending(c) && c.window ==> (WindowExit(c).window <==> Pending(WindowExit(c)))
  {
    NextIs(c);
    if Pending(c) {
      TakeSeen(c);
      SettleSeen(c, Take(c).cpu.(entry := Some(Take(c).vector)));
    }
  }
}
