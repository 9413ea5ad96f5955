/** The cascaded pair of 8259 interrupt controllers, on values.  A register byte is the set of its
    set bits, each bit standing for one of the eight request lines. */
module PicModel {
  import opened Common

  const CASCADE: nat := 2

  datatype Pic = Pic(irr: set<nat>, isr: set<nat>, imr: set<nat>, lastIrr: set<nat>, elcr: set<nat>,
                     priorityAdd: nat, irqBase: nat,
                     autoEoi: bool, rotateOnAutoEoi: bool, specialNested: bool)

  /** Master, slave and the interrupt output of the master. */
  datatype Pair = Pair(master: Pic, slave: Pic, output: bool)

  predicate IsByte(b: set<nat>) { forall k | k in b :: k < 8 }

  predicate PicShape(p: Pic) {
    IsByte(p.irr) && IsByte(p.isr) && IsByte(p.imr) && IsByte(p.lastIrr) && IsByte(p.elcr) && p.priorityAdd < 8
  }

  predicate Shape(s: Pair) { PicShape(s.master) && PicShape(s.slave) }

  // ----- priorities

  /** The line at priority k when line `add` has the highest. */
  function LineAt(k: nat, add: nat): nat { (k + add) % 8 }

  /** The priority of a line, 0 being the highest: the inverse of LineAt. */
  function Rank(line: nat, add: nat): nat
    requires line < 8 && add < 8
  {
    (line + 8 - add) % 8
  }

  lemma {:induction false} RankOfLine(line: nat, add: nat)
    requires line < 8 && add < 8
    ensures Rank(line, add) < 8 && LineAt(Rank(line, add), add) == line
  {
  }

  lemma {:induction false} LineOfRank(k: nat, add: nat)
    requires k < 8 && add < 8
    ensures LineAt(k, add) < 8 && Rank(LineAt(k, add), add) == k
  {
  }

  /** The lines from the highest priority to the lowest. */
  function Order(add: nat): seq<nat> { seq(8, k requires 0 <= k => LineAt(k, add)) }

  /** The index of the first line that is in mask, or |lines|. */
  function FirstIn(mask: set<nat>, lines: seq<nat>): (r: nat)
    ensures r <= |lines|
    ensures r < |lines| ==> lines[r] in mask
    ensures forall j | 0 <= j < r :: lines[j] !in mask
  {
    if lines == [] || lines[0] in mask then 0 else 1 + FirstIn(mask, lines[1..])
  }

  /** The highest priority (smallest number) found in mask, 8 if there is none. */
  function GetPriority(mask: set<nat>, add: nat): (r: nat)
    ensures r <= 8
    ensures r < 8 ==> LineAt(r, add) in mask
    ensures forall j | 0 <= j < r :: LineAt(j, add) !in mask
  {
    var r := FirstIn(mask, Order(add));
    assert forall j | 0 <= j < r :: LineAt(j, add) == Order(add)[j];
    r
  }

  /** The priority found is the rank of a line of the mask, and no line of the mask ranks higher. */
  lemma {:induction false} PriorityIsLeastRank(mask: set<nat>, add: nat)
    requires IsByte(mask) && add < 8
    ensures var r := GetPriority(mask, add);
            && (r == 8 <==> mask == {})
            && (r < 8 ==> LineAt(r, add) in mask && Rank(LineAt(r, add), add) == r)
            && forall line | line in mask :: r <= Rank(line, add)
  {
    var r := GetPriority(mask, add);
    forall line | line in mask ensures r <= Rank(line, add) {
      RankOfLine(line, add);
    }
    if r < 8 {
      LineOfRank(r, add);
    }
    if mask != {} {
      var line :| line in mask;
      assert r <= Rank(line, add);
    }
  }

  // ----- one controller

  /** The requests a controller may forward. */
  function Requests(p: Pic): set<nat> { p.irr - p.imr }

  /** The lines in service, as the priority comparison sees them. */
  function InService(p: Pic, master: bool): set<nat> {
    if p.specialNested && master then p.isr - {CASCADE} else p.isr
  }

  function GetIrq(p: Pic, master: bool): (irq: Option<nat>)
    ensures irq.Some? ==> irq.value < 8
  {
    var priority := GetPriority(Requests(p), p.priorityAdd);
    if priority == 8 then None
    else if priority < GetPriority(InService(p, master), p.priorityAdd) then Some(LineAt(priority, p.priorityAdd))
    else None
  }

  /** A line outranks all lines of a set. */
  predicate Outranks(line: nat, others: set<nat>, add: nat)
    requires line < 8 && IsByte(others) && add < 8
  {
    forall k | k in others :: Rank(line, add) < Rank(k, add)
  }

  /** The line to deliver: requested, unmasked, first in rotated priority order, above everything in
      service. */
  ghost predicate Deliverable(p: Pic, master: bool, line: nat)
    requires PicShape(p)
  {
    && line in Requests(p)
    && Outranks(line, Requests(p) - {line}, p.priorityAdd)
    && Outranks(line, InService(p, master), p.priorityAdd)
  }

  lemma {:induction false} RankInjective(a: nat, b: nat, add: nat)
    requires a < 8 && b < 8 && add < 8 && Rank(a, add) == Rank(b, add)
    ensures a == b
  {
  }

  /** The scan returns exactly the deliverable line, and -1 exactly when there is none. */
  lemma {:induction false} GetIrqIffDeliverable(p: Pic, master: bool, line: nat)
    requires PicShape(p) && line < 8
    ensures GetIrq(p, master) == Some(line) <==> Deliverable(p, master, line)
  {
    var add := p.priorityAdd;
    PriorityIsLeastRank(Requests(p), add);
    PriorityIsLeastRank(InService(p, master), add);
    var r, cur := GetPriority(Requests(p), add), GetPriority(InService(p, master), add);
    if GetIrq(p, master) == Some(line) {
      forall k | k in Requests(p) - {line} ensures Rank(line, add) < Rank(k, add) {
        if Rank(k, add) == Rank(line, add) { RankInjective(k, line, add); }
      }
    }
    if Deliverable(p, master, line) {
      assert r < 8 && LineAt(r, add) in Requests(p);
      assert r == Rank(line, add);
    }
  }

  /** Edge detection on a line: a level-triggered line follows its level, an edge-triggered one
      records a rising edge. */
  function SetIrq1(p: Pic, line: nat, level: bool): Pic {
    if line in p.elcr then
      if level then p.(irr := p.irr + {line}, lastIrr := p.lastIrr + {line})
      else p.(irr := p.irr - {line}, lastIrr := p.lastIrr - {line})
    else if level then
      p.(irr := if line in p.lastIrr then p.irr else p.irr + {line}, lastIrr := p.lastIrr + {line})
    else p.(lastIrr := p.lastIrr - {line})
  }

  function ClearIsr(p: Pic, line: nat): Pic { p.(isr := p.isr - {line}) }

  /** Take the highest-priority line out of service, and make it the lowest if asked to. */
  function EndHighest(p: Pic, rotate: bool): Pic {
    var line := LineAt(GetPriority(p.isr, p.priorityAdd), p.priorityAdd);
    ClearIsr(if rotate then p.(priorityAdd := (line + 1) % 8) else p, line)
  }

  function IntAck(p: Pic, line: nat): Pic {
    var p1 := p.(isr := p.isr + {line}, irr := if line in p.elcr then p.irr else p.irr - {line});
    if p.autoEoi then
      ClearIsr(if p.rotateOnAutoEoi then p1.(priorityAdd := (line + 1) % 8) else p1, line)
    else p1
  }

  // ----- the pair

  predicate SameBases(s: Pair, r: Pair) {
    r.master.irqBase == s.master.irqBase && r.slave.irqBase == s.slave.irqBase
  }

  function UpdateIrq(s: Pair): (r: Pair)
    ensures SameBases(s, r) && r.slave == s.slave
  {
    var m := if GetIrq(s.slave, false).Some? then SetIrq1(SetIrq1(s.master, CASCADE, true), CASCADE, false)
             else s.master;
    s.(master := m, output := GetIrq(m, true).Some?)
  }

  function WithPin(s: Pair, irq: nat, level: bool): (r: Pair)
    requires irq < 16
    ensures SameBases(s, r)
  {
    if irq < 8 then s.(master := SetIrq1(s.master, irq, level)) else s.(slave := SetIrq1(s.slave, irq - 8, level))
  }

  function SetLine(s: Pair, irq: nat, level: bool): (r: Pair)
    requires irq < 16
    ensures SameBases(s, r)
  {
    UpdateIrq(WithPin(s, irq, level))
  }

  /** Which controller a port belongs to. */
  datatype Chip = Master | Slave

  function Get(s: Pair, c: Chip): Pic { if c.Master? then s.master else s.slave }

  function Put(s: Pair, c: Chip, p: Pic): Pair { if c.Master? then s.(master := p) else s.(slave := p) }

  datatype Command =
    | RotateAutoEoi(on: bool)       // OCW2 0, 4
    | Eoi(rotate: bool)             // OCW2 1, 5
    | SpecificEoi(line: nat)        // OCW2 3
    | SetPriority(line: nat)        // OCW2 6
    | RotateSpecificEoi(line: nat)  // OCW2 7
    | NoOperation                   // OCW2 2
    | Mask(mask: set<nat>)          // OCW1

  predicate CommandShape(cmd: Command) {
    match cmd
    case SpecificEoi(line) => line < 8
    case SetPriority(line) => line < 8
    case RotateSpecificEoi(line) => line < 8
    case Mask(mask) => IsByte(mask)
    case _ => true
  }

  /** What a command does to the registers of its controller. */
  function Commanded(p: Pic, cmd: Command): (q: Pic)
    requires PicShape(p) && CommandShape(cmd)
    ensures PicShape(q) && q.lastIrr == p.lastIrr && q.elcr == p.elcr && q.irr == p.irr
    ensures q.irqBase == p.irqBase && q.autoEoi == p.autoEoi && q.specialNested == p.specialNested
  {
    match cmd
    case RotateAutoEoi(on) => p.(rotateOnAutoEoi := on)
    case Eoi(rotate) => if GetPriority(p.isr, p.priorityAdd) == 8 then p else EndHighest(p, rotate)
    case SpecificEoi(line) => ClearIsr(p, line)
    case SetPriority(line) => p.(priorityAdd := (line + 1) % 8)
    case RotateSpecificEoi(line) => ClearIsr(p.(priorityAdd := (line + 1) % 8), line)
    case NoOperation => p
    case Mask(mask) => p.(imr := mask)
  }

  /** Commands that are not followed by an update of the active interrupt. */
  predicate Silent(p: Pic, cmd: Command) {
    cmd.RotateAutoEoi? || cmd.NoOperation? || (cmd.Eoi? && GetPriority(p.isr, p.priorityAdd) == 8)
  }

  function Execute(s: Pair, c: Chip, cmd: Command): (r: Pair)
    requires Shape(s) && CommandShape(cmd)
    ensures SameBases(s, r)
  {
    var r := Put(s, c, Commanded(Get(s, c), cmd));
    if Silent(Get(s, c), cmd) then r else UpdateIrq(r)
  }

  /** Writable ELCR bits of each controller. */
  function ElcrMask(c: Chip): set<nat> { if c.Master? then {3, 4, 5, 6, 7} else {1, 2, 3, 4, 6, 7} }

  function WriteElcr(s: Pair, c: Chip, value: set<nat>): (r: Pair)
    ensures SameBases(s, r)
  {
    Put(s, c, Get(s, c).(elcr := value * ElcrMask(c)))
  }

  datatype Read = Read(pair: Pair, vector: nat)

  /** Acknowledge the highest pending request; a request that has gone is answered with line 7. */
  function ReadIrq(s: Pair): (r: Read)
    ensures SameBases(s, r.pair)
    ensures r.vector >= s.master.irqBase || r.vector >= s.slave.irqBase
  {
    match GetIrq(s.master, true)
    case None => Read(UpdateIrq(s), s.master.irqBase + 7)
    case Some(irq) =>
      var s1 := s.(master := IntAck(s.master, irq));
      if irq != CASCADE then Read(UpdateIrq(s1), s.master.irqBase + irq)
      else
        match GetIrq(s1.slave, false)
        case None => Read(UpdateIrq(s1), s.slave.irqBase + 7)
        case Some(irq2) => Read(UpdateIrq(s1.(slave := IntAck(s1.slave, irq2))), s.slave.irqBase + irq2)
  }

  /** The state i8259_init_state leaves. */
  function InitPic(): Pic { Pic({}, {}, {}, {}, {}, 0, 0, false, false, false) }

  function Init(): Pair { Pair(InitPic(), InitPic(), false) }
}
