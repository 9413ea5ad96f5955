/** What each operation on the 8259 pair does to what the guest and the host see of it, in terms of the operation's own
    arguments. */
module PicEffects {
  import opened Common
  import opened PicModel

  // ----- one controller

  ghost predicate NoneDeliverable(p: Pic, master: bool)
    requires PicShape(p)
  {
    forall k | 0 <= k < 8 :: !Deliverable(p, master, k)
  }

  lemma {:induction false} DeliverableIs(p: Pic, master: bool)
    requires PicShape(p)
    ensures GetIrq(p, master).None? <==> NoneDeliverable(p, master)
    ensures forall k | 0 <= k < 8 && Deliverable(p, master, k) :: GetIrq(p, master) == Some(k)
    ensures GetIrq(p, master).Some? ==> Deliverable(p, master, GetIrq(p, master).value)
  {
    forall k | 0 <= k < 8 ensures GetIrq(p, master) == Some(k) <==> Deliverable(p, master, k) {
      GetIrqIffDeliverable(p, master, k);
    }
  }

  /** What no operation but a command changes. */
  predicate SameSettings(p: Pic, q: Pic) {
    && q.imr == p.imr && q.elcr == p.elcr && q.irqBase == p.irqBase
    && q.autoEoi == p.autoEoi && q.rotateOnAutoEoi == p.rotateOnAutoEoi && q.specialNested == p.specialNested
  }

  /** Line `k` has been acknowledged: it is in service unless interrupts end by themselves, and it is requested only if
      it is level-triggered; no other line changes. */
  predicate Acknowledged(p: Pic, q: Pic, k: nat)
    requires PicShape(p) && PicShape(q) && k < 8
  {
    && SameSettings(p, q) && q.lastIrr == p.lastIrr
    && (k in q.isr <==> !p.autoEoi) && (k in q.irr <==> k in p.irr && k in p.elcr)
    && (forall line | 0 <= line < 8 && line != k :: (line in q.isr <==> line in p.isr) && (line in q.irr <==> line in p.irr))
    && if p.autoEoi && p.rotateOnAutoEoi then Rank(k, q.priorityAdd) == 7 else q.priorityAdd == p.priorityAdd
  }

  lemma {:induction false} AckSeen(p: Pic, k: nat)
    requires PicShape(p) && k < 8
    ensures PicShape(IntAck(p, k)) && Acknowledged(p, IntAck(p, k), k)
  {
  }

  /** Only the request of the cascade line differs, which the slave's pulse has set. */
  predicate CascadePulsed(p: Pic, q: Pic, pulse: bool) {
    && SameSettings(p, q) && q.isr == p.isr && q.priorityAdd == p.priorityAdd
    && (forall line | 0 <= line < 8 && line != CASCADE :: line in q.irr <==> line in p.irr)
    && (CASCADE in q.irr <==> if CASCADE in p.elcr then CASCADE in p.irr && !pulse
                              else CASCADE in p.irr || (pulse && CASCADE !in p.lastIrr))
  }

  /** pic_update_irq pulses the cascade line exactly if the slave has a line to deliver, and the output says whether the
      master then has one. */
  lemma {:induction false} UpdateSeen(s: Pair)
    requires Shape(s)
    ensures var r := UpdateIrq(s);
            && Shape(r) && r.slave == s.slave
            && CascadePulsed(s.master, r.master, !NoneDeliverable(s.slave, false))
            && (r.output <==> !NoneDeliverable(r.master, true))
  {
    DeliverableIs(s.slave, false);
    DeliverableIs(UpdateIrq(s).master, true);
  }

  // ----- the acknowledge cycle

  /** The vector the guest is given: that of the line deliverable at the master or, behind the cascade line, at the
      slave, and line 7 of the controller that was asked if it has none. */
  ghost predicate VectorFor(s: Pair, vector: nat)
    requires Shape(s)
  {
    && (forall k | 0 <= k < 8 && k != CASCADE && Deliverable(s.master, true, k) :: vector == s.master.irqBase + k)
    && (NoneDeliverable(s.master, true) ==> vector == s.master.irqBase + 7)
    && (Deliverable(s.master, true, CASCADE) ==>
          && (forall j | 0 <= j < 8 && Deliverable(s.slave, false, j) :: vector == s.slave.irqBase + j)
          && (NoneDeliverable(s.slave, false) ==> vector == s.slave.irqBase + 7))
  }

  lemma {:induction false} ReadVector(s: Pair)
    requires Shape(s)
    ensures VectorFor(s, ReadIrq(s).vector)
  {
    DeliverableIs(s.master, true);
    DeliverableIs(s.slave, false);
  }

  /** VectorFor leaves one vector. */
  lemma {:induction false} VectorUnique(s: Pair, v: nat, w: nat)
    requires Shape(s) && VectorFor(s, v) && VectorFor(s, w)
    ensures v == w
  {
    DeliverableIs(s.master, true);
    DeliverableIs(s.slave, false);
  }

  /** The lines delivered are acknowledged, a controller without one is left alone, and the outputs are brought up to
      date. */
  ghost predicate Answered(s: Pair, t: Pair)
    requires Shape(s) && Shape(t)
  {
    && (forall k | 0 <= k < 8 && Deliverable(s.master, true, k) :: Acknowledged(s.master, t.master, k))
    && (NoneDeliverable(s.master, true) ==> t.master == s.master)
    && (!Deliverable(s.master, true, CASCADE) || NoneDeliverable(s.slave, false) ==> t.slave == s.slave)
    && (Deliverable(s.master, true, CASCADE) ==>
          forall j | 0 <= j < 8 && Deliverable(s.slave, false, j) :: Acknowledged(s.slave, t.slave, j))
  }

  lemma {:induction false} ReadAcknowledges(s: Pair) returns (t: Pair)
    requires Shape(s)
    ensures Shape(t) && Answered(s, t) && ReadIrq(s).pair == UpdateIrq(t)
  {
    DeliverableIs(s.master, true);
    DeliverableIs(s.slave, false);
    var irq, irq2 := GetIrq(s.master, true), GetIrq(s.slave, false);
    t := s;
    if irq.Some? {
      AckSeen(s.master, irq.value);
      t := t.(master := IntAck(s.master, irq.value));
      if irq.value == CASCADE && irq2.Some? {
        AckSeen(s.slave, irq2.value);
        t := t.(slave := IntAck(s.slave, irq2.value));
      }
    }
  }

  // ----- commands

  /** The line in service with the highest priority. */
  predicate Highest(p: Pic, k: nat)
    requires PicShape(p)
  {
    k in p.isr && Outranks(k, p.isr - {k}, p.priorityAdd)
  }

  lemma {:induction false} HighestIff(p: Pic, top: nat, k: nat)
    requires PicShape(p) && p.isr != {} && top == LineAt(GetPriority(p.isr, p.priorityAdd), p.priorityAdd)
    ensures Highest(p, k) <==> k == top
  {
    PriorityIsLeastRank(p.isr, p.priorityAdd);
    if Highest(p, k) {
      assert Rank(k, p.priorityAdd) >= Rank(top, p.priorityAdd);
    } else if k == top {
      var j :| j in p.isr - {k} && Rank(j, p.priorityAdd) <= Rank(k, p.priorityAdd);
      RankInjective(j, k, p.priorityAdd);
    }
  }

  lemma {:induction false} SomeInService(p: Pic) returns (top: nat)
    requires PicShape(p) && p.isr != {}
    ensures GetPriority(p.isr, p.priorityAdd) != 8 && top < 8
    ensures top == LineAt(GetPriority(p.isr, p.priorityAdd), p.priorityAdd)
  {
    PriorityIsLeastRank(p.isr, p.priorityAdd);
    top := LineAt(GetPriority(p.isr, p.priorityAdd), p.priorityAdd);
  }

  lemma {:induction false} RotatedIsLowest(line: nat)
    requires line < 8
    ensures Rank(line, (line + 1) % 8) == 7
  {
  }

  lemma {:induction false} EndHighestSeen(p: Pic, rotate: bool) returns (top: nat)
    requires PicShape(p) && p.isr != {}
    ensures top < 8 && top == LineAt(GetPriority(p.isr, p.priorityAdd), p.priorityAdd)
    ensures var q := Commanded(p, Eoi(rotate));
            && q.isr == p.isr - {top} && q.imr == p.imr && q.rotateOnAutoEoi == p.rotateOnAutoEoi
            && if rotate then Rank(top, q.priorityAdd) == 7 else q.priorityAdd == p.priorityAdd
  {
    top := SomeInService(p);
    RotatedIsLowest(top);
  }

  /** The line a command takes out of service. */
  predicate Ends(p: Pic, cmd: Command, k: nat)
    requires PicShape(p)
  {
    match cmd
    case Eoi(_) => Highest(p, k)
    case SpecificEoi(line) => k == line
    case RotateSpecificEoi(line) => k == line
    case _ => false
  }

  /** The line a command gives the lowest priority. */
  predicate Lowers(p: Pic, cmd: Command, k: nat)
    requires PicShape(p)
  {
    match cmd
    case Eoi(rotate) => rotate && Highest(p, k)
    case SetPriority(line) => k == line
    case RotateSpecificEoi(line) => k == line
    case _ => false
  }

  ghost predicate CommandDone(p: Pic, cmd: Command, q: Pic)
    requires PicShape(p) && PicShape(q) && CommandShape(cmd)
  {
    && q.imr == (if cmd.Mask? then cmd.mask else p.imr)
    && q.rotateOnAutoEoi == (if cmd.RotateAutoEoi? then cmd.on else p.rotateOnAutoEoi)
    && (forall k | 0 <= k < 8 :: k in q.isr <==> k in p.isr && !Ends(p, cmd, k))
    && (forall k | 0 <= k < 8 && Lowers(p, cmd, k) :: Rank(k, q.priorityAdd) == 7)
    && ((forall k | 0 <= k < 8 :: !Lowers(p, cmd, k)) ==> q.priorityAdd == p.priorityAdd)
  }

  lemma {:induction false} EoiOfNone(p: Pic, rotate: bool)
    requires PicShape(p) && p.isr == {}
    ensures CommandDone(p, Eoi(rotate), p) && Commanded(p, Eoi(rotate)) == p
  {
    PriorityIsLeastRank(p.isr, p.priorityAdd);
  }

  lemma {:induction false} EoiOf(p: Pic, rotate: bool, q: Pic, top: nat)
    requires PicShape(p) && PicShape(q) && top < 8 && forall k | 0 <= k < 8 :: Highest(p, k) <==> k == top
    requires q.isr == p.isr - {top} && q.imr == p.imr && q.rotateOnAutoEoi == p.rotateOnAutoEoi
    requires if rotate then Rank(top, q.priorityAdd) == 7 else q.priorityAdd == p.priorityAdd
    ensures CommandDone(p, Eoi(rotate), q)
  {
    assert rotate ==> Lowers(p, Eoi(rotate), top);
  }

  lemma {:induction false} EoiSeen(p: Pic, rotate: bool)
    requires PicShape(p)
    ensures CommandDone(p, Eoi(rotate), Commanded(p, Eoi(rotate)))
  {
    if p.isr == {} {
      EoiOfNone(p, rotate);
    } else {
      var top := EndHighestSeen(p, rotate);
      forall k | 0 <= k < 8 ensures Highest(p, k) <==> k == top { HighestIff(p, top, k); }
      EoiOf(p, rotate, Commanded(p, Eoi(rotate)), top);
    }
  }

  lemma {:induction false} CommandSeen(p: Pic, cmd: Command)
    requires PicShape(p) && CommandShape(cmd)
    ensures CommandDone(p, cmd, Commanded(p, cmd))
  {
    match cmd
    case Eoi(rotate) => EoiSeen(p, rotate);
    case SetPriority(line) => assert Lowers(p, cmd, line);
    case RotateSpecificEoi(line) => assert Lowers(p, cmd, line);
    case _ =>
  }

  /** What a command changes is the registers of its own controller; the other one at most sees the cascade pulse. */
  lemma {:induction false} ExecuteSeen(s: Pair, c: Chip, cmd: Command)
    requires Shape(s) && CommandShape(cmd)
    ensures var r := Execute(s, c, cmd);
            && Shape(r) && CommandDone(Get(s, c), cmd, Get(r, c))
            && Other(Get(s, if c.Master? then Slave else Master), Get(r, if c.Master? then Slave else Master))
  {
    CommandSeen(Get(s, c), cmd);
    UpdateSeen(Put(s, c, Commanded(Get(s, c), cmd)));
  }

  /** Only the requests may differ. */
  predicate Other(p: Pic, q: Pic) { SameSettings(p, q) && q.isr == p.isr && q.priorityAdd == p.priorityAdd }

  // ----- the pins

  /** The controller and line of an interrupt number. */
  function ChipOf(irq: nat): Chip { if irq < 8 then Master else Slave }

  function LineOf(irq: nat): nat { if irq < 8 then irq else irq - 8 }

  /** A level-triggered line requests what its pin says; an edge-triggered one is requested by a rise and stays so. */
  predicate PinDone(p: Pic, q: Pic, line: nat, level: bool) {
    && Other(p, q)
    && (line in q.lastIrr <==> level)
    && (line in q.irr <==> if line in p.elcr then level else line in p.irr || (level && line !in p.lastIrr))
    && (forall k | 0 <= k < 8 && k != line :: (k in q.irr <==> k in p.irr) && (k in q.lastIrr <==> k in p.lastIrr))
  }

  lemma {:induction false} PinSeen(p: Pic, line: nat, level: bool)
    requires PicShape(p) && line < 8
    ensures PicShape(SetIrq1(p, line, level)) && PinDone(p, SetIrq1(p, line, level), line, level)
  {
  }

  /** A pin moves one line of one controller, and the outputs are brought up to date. */
  lemma {:induction false} SetLineSeen(s: Pair, irq: nat, level: bool) returns (t: Pair)
    requires Shape(s) && irq < 16
    ensures Shape(t) && SetLine(s, irq, level) == UpdateIrq(t)
    ensures PinDone(Get(s, ChipOf(irq)), Get(t, ChipOf(irq)), LineOf(irq), level)
    ensures irq < 8 ==> t.slave == s.slave
    ensures irq >= 8 ==> t.master == s.master
  {
    t := WithPin(s, irq, level);
    PinSeen(Get(s, ChipOf(irq)), LineOf(irq), level);
  }

  /** Raising an edge-triggered line of the master that was low, is unmasked and outranks what is requested and in
      service makes the output high, and the guest is given that line's vector. */
  lemma {:induction false} RaisedIsAnswered(s: Pair, irq: nat)
    requires Shape(s) && irq < 8 && irq != CASCADE && NoneDeliverable(s.slave, false)
    requires irq !in s.master.imr && irq !in s.master.lastIrr
    requires Outranks(irq, Requests(s.master) - {irq}, s.master.priorityAdd)
    requires Outranks(irq, InService(s.master, true), s.master.priorityAdd)
    ensures SetLine(s, irq, true).output && ReadIrq(SetLine(s, irq, true)).vector == s.master.irqBase + irq
  {
    var t := SetLineSeen(s, irq, true);
    UpdateSeen(t);
    var r := SetLine(s, irq, true);
    assert Requests(r.master) - {irq} == Requests(s.master) - {irq};
    assert Deliverable(r.master, true, irq);
    ReadVector(r);
  }

  /** Interrupts 0, 1, 2, 8 and 13 are always edge-triggered; the bits of the others are as written, and no other
      register changes. */
  lemma {:induction false} ElcrSeen(s: Pair, c: Chip, value: set<nat>)
    ensures var r := WriteElcr(s, c, value);
            && (forall irq | 0 <= irq < 16 :: LineOf(irq) in Get(r, ChipOf(irq)).elcr <==>
                  if ChipOf(irq) == c then LineOf(irq) in value && irq !in {0, 1, 2, 8, 13}
                  else LineOf(irq) in Get(s, ChipOf(irq)).elcr)
            && r == s.(master := s.master.(elcr := r.master.elcr), slave := s.slave.(elcr := r.slave.elcr))
  {
  }
}
