/** Runs of the 8259 pair: line changes, guest commands and acknowledge cycles in any order. */
module PicRuns {
  import opened Common
  import opened PicModel
  import opened PicSafety

  datatype Event =
    | Line(irq: nat, level: bool)
    | Pulse(irq: nat)
    | Cmd(chip: Chip, cmd: Command)
    | Elcr(chip: Chip, value: set<nat>)
    | Ack

  predicate CanHappen(e: Event) {
    match e
    case Line(irq, _) => irq < 16
    case Pulse(irq) => irq < 16
    case Cmd(_, cmd) => CommandShape(cmd)
    case _ => true
  }

  /** A pulse is how vm_inject_irq drives a line; an acknowledge cycle only happens while the output is
      raised. */
  function Step(s: Pair, e: Event): Pair
    requires Shape(s) && CanHappen(e)
  {
    match e
    case Line(irq, level) => SetLine(s, irq, level)
    case Pulse(irq) => SetLine(SetLine(s, irq, true), irq, false)
    case Cmd(chip, cmd) => Execute(s, chip, cmd)
    case Elcr(chip, value) => WriteElcr(s, chip, value)
    case Ack => if s.output then ReadIrq(s).pair else s
  }

  lemma {:induction false} LineShape(s: Pair, irq: nat, level: bool)
    requires Shape(s) && irq < 16
    ensures Shape(SetLine(s, irq, level))
  {
    if irq < 8 {
      SetIrq1Shape(s.master, irq, level);
      UpdateShape(s.(master := SetIrq1(s.master, irq, level)));
    } else {
      SetIrq1Shape(s.slave, irq - 8, level);
      UpdateShape(s.(slave := SetIrq1(s.slave, irq - 8, level)));
    }
  }

  lemma {:induction false} StepShape(s: Pair, e: Event)
    requires Shape(s) && CanHappen(e)
    ensures Shape(Step(s, e)) && SameBases(s, Step(s, e))
  {
    match e
    case Line(irq, level) => LineShape(s, irq, level);
    case Pulse(irq) =>
      LineShape(s, irq, true);
      LineShape(SetLine(s, irq, true), irq, false);
    case Cmd(chip, cmd) => UpdateShape(Put(s, chip, Commanded(Get(s, chip), cmd)));
    case Elcr(_, _) =>
    case Ack => ReadIrqShape(s);
  }

  predicate Good(s: Pair, e: Event) {
    !(e.Line? && e.irq == CASCADE && e.level && GetIrq(s.slave, false).None?)
  }

  lemma {:induction false} StepKeepsIff(s: Pair, e: Event)
    requires Inv(s) && CanHappen(e)
    ensures Inv(Step(s, e)) <==> Good(s, e)
  {
    match e
    case Line(irq, level) => SetLineKeepsIff(s, irq, level);
    case Pulse(irq) => PulseKeeps(s, irq);
    case Cmd(chip, cmd) => ExecuteKeeps(s, chip, cmd);
    case Elcr(chip, value) => WriteElcrKeeps(s, chip, value);
    case Ack => ReadIrqKeeps(s);
  }

  // ----- fully nested service

  /** What the pair does and, per controller, the lines acknowledged and not yet ended, oldest
      first. */
  datatype Nested = Nested(pair: Pair, master: seq<nat>, slave: seq<nat>)

  function Stack(n: Nested, c: Chip): seq<nat> { if c.Master? then n.master else n.slave }

  /** The lines in service are those on the stack, each outranking all below it. */
  ghost predicate Nests(p: Pic, stack: seq<nat>)
    requires PicShape(p)
  {
    && (forall x :: x in p.isr <==> x in stack)
    && (forall i | 0 <= i < |stack| :: stack[i] < 8)
    && (forall i, j | 0 <= i < j < |stack| :: Rank(stack[j], p.priorityAdd) < Rank(stack[i], p.priorityAdd))
  }

  /** Neither automatic end of interrupt nor special fully nested mode. */
  predicate PlainMode(s: Pair) {
    !s.master.autoEoi && !s.slave.autoEoi && !s.master.specialNested
  }

  ghost predicate NestInv(n: Nested) {
    Inv(n.pair) && PlainMode(n.pair) && Nests(n.pair.master, n.master) && Nests(n.pair.slave, n.slave)
  }

  /** No rotation and no specific end of interrupt; the cascade pin not left high. */
  predicate PlainEvent(s: Pair, e: Event) {
    && Good(s, e)
    && (e.Cmd? ==> e.cmd == Eoi(false) || e.cmd.Mask? || e.cmd.NoOperation? || e.cmd.RotateAutoEoi?)
  }

  function DropLast(q: seq<nat>): seq<nat> { if q == [] then [] else q[..|q| - 1] }

  function NestStep(n: Nested, e: Event): Nested
    requires Shape(n.pair) && CanHappen(e)
  {
    var s := n.pair;
    var r := Step(s, e);
    match e
    case Cmd(Master, Eoi(_)) => Nested(r, DropLast(n.master), n.slave)
    case Cmd(Slave, Eoi(_)) => Nested(r, n.master, DropLast(n.slave))
    case Ack =>
      (match if s.output then GetIrq(s.master, true) else None
       case None => n.(pair := r)
       case Some(irq) =>
         var taken := if irq == CASCADE then GetIrq(s.slave, false) else None;
         Nested(r, n.master + [irq], if taken.Some? then n.slave + [taken.value] else n.slave))
    case _ => n.(pair := r)
  }

  lemma {:induction false} UpdateService(s: Pair)
    ensures var r := UpdateIrq(s);
            && r.slave == s.slave
            && r.master.(irr := s.master.irr, lastIrr := s.master.lastIrr) == s.master
  {
  }

  /** An acknowledged line goes on top of the stack. */
  lemma {:induction false} AckPushes(p: Pic, master: bool, stack: seq<nat>, line: nat)
    requires PicShape(p) && Nests(p, stack) && !p.autoEoi && !(p.specialNested && master)
    requires GetIrq(p, master) == Some(line)
    ensures PicShape(IntAck(p, line)) && Nests(IntAck(p, line), stack + [line])
  {
    GetIrqIffDeliverable(p, master, line);
    var q := stack + [line];
    forall i, j | 0 <= i < j < |q| ensures Rank(q[j], p.priorityAdd) < Rank(q[i], p.priorityAdd) {
      if j == |stack| {
        assert stack[i] in p.isr;
      }
    }
  }

  /** The line of highest priority in service is the one on top of the stack. */
  lemma {:induction false} TopOutranks(p: Pic, stack: seq<nat>)
    requires PicShape(p) && Nests(p, stack)
    ensures var priority := GetPriority(p.isr, p.priorityAdd);
            && (priority == 8 <==> stack == [])
            && (stack != [] ==> LineAt(priority, p.priorityAdd) == stack[|stack| - 1])
  {
    var add, priority := p.priorityAdd, GetPriority(p.isr, p.priorityAdd);
    PriorityIsLeastRank(p.isr, add);
    if stack != [] {
      var top := stack[|stack| - 1];
      assert top in p.isr;
      var line := LineAt(priority, add);
      assert line in stack;
      var i :| 0 <= i < |stack| && stack[i] == line;
      assert line == top;
    }
  }

  lemma {:induction false} TopPopped(p: Pic, stack: seq<nat>)
    requires PicShape(p) && Nests(p, stack) && stack != []
    ensures var q := ClearIsr(p, stack[|stack| - 1]);
            PicShape(q) && Nests(q, DropLast(stack))
  {
    var add, top := p.priorityAdd, stack[|stack| - 1];
    var q, rest := ClearIsr(p, top), DropLast(stack);
    forall x ensures x in q.isr <==> x in rest {
      if x in stack && x != top {
        var k :| 0 <= k < |stack| && stack[k] == x;
        assert rest[k] == x;
      }
      if x in rest {
        var k :| 0 <= k < |rest| && rest[k] == x;
        assert Rank(top, add) < Rank(stack[k], add);
      }
    }
  }

  /** A non-specific end of interrupt finds the line acknowledged last, and takes it out of service. */
  lemma {:induction false} EoiPops(p: Pic, stack: seq<nat>)
    requires PicShape(p) && Nests(p, stack)
    ensures var priority := GetPriority(p.isr, p.priorityAdd);
            && (priority == 8 <==> stack == [])
            && (stack != [] ==> LineAt(priority, p.priorityAdd) == stack[|stack| - 1])
            && (stack != [] ==> PicShape(ClearIsr(p, stack[|stack| - 1])) && Nests(ClearIsr(p, stack[|stack| - 1]), DropLast(stack)))
  {
    TopOutranks(p, stack);
    if stack != [] {
      TopPopped(p, stack);
    }
  }

  /** What an end-of-interrupt command removes is the most recently acknowledged line still in
      service on that controller. */
  lemma {:induction false} EoiEndsLatest(n: Nested, c: Chip)
    requires NestInv(n)
    ensures var stack := Stack(n, c);
            Get(Execute(n.pair, c, Eoi(false)), c).isr ==
              Get(n.pair, c).isr - if stack == [] then {} else {stack[|stack| - 1]}
  {
    var p := Get(n.pair, c);
    EoiPops(p, Stack(n, c));
    if Stack(n, c) != [] {
      UpdateService(Put(n.pair, c, EndHighest(p, false)));
    }
  }

  lemma {:induction false} NestsSame(p: Pic, q: Pic, stack: seq<nat>)
    requires PicShape(p) && PicShape(q) && Nests(p, stack) && q.isr == p.isr && q.priorityAdd == p.priorityAdd
    ensures Nests(q, stack)
  {
  }

  lemma {:induction false} EoiKeepsNesting(n: Nested, c: Chip)
    requires NestInv(n)
    ensures NestInv(NestStep(n, Cmd(c, Eoi(false))))
  {
    var s := n.pair;
    var p := Get(s, c);
    StepKeepsIff(s, Cmd(c, Eoi(false)));
    EoiPops(p, Stack(n, c));
    if Stack(n, c) != [] {
      var q := EndHighest(p, false);
      assert q == ClearIsr(p, Stack(n, c)[|Stack(n, c)| - 1]);
      var r := Execute(s, c, Eoi(false));
      assert r == UpdateIrq(Put(s, c, q));
      UpdateService(Put(s, c, q));
      NestsSame(Put(s, c, q).master, r.master, NestStep(n, Cmd(c, Eoi(false))).master);
    }
  }

  lemma {:induction false} AckKeepsNesting(n: Nested)
    requires NestInv(n)
    ensures NestInv(NestStep(n, Ack))
  {
    var s := n.pair;
    StepKeepsIff(s, Ack);
    if s.output {
      var irq := GetIrq(s.master, true).value;
      AckPushes(s.master, true, n.master, irq);
      var s1 := s.(master := IntAck(s.master, irq));
      if irq == CASCADE && GetIrq(s.slave, false).Some? {
        var irq2 := GetIrq(s.slave, false).value;
        AckPushes(s.slave, false, n.slave, irq2);
        var s2 := s1.(slave := IntAck(s.slave, irq2));
        assert Step(s, Ack) == UpdateIrq(s2);
        UpdateService(s2);
        NestsSame(s2.master, UpdateIrq(s2).master, n.master + [irq]);
      } else {
        assert Step(s, Ack) == UpdateIrq(s1);
        UpdateService(s1);
        NestsSame(s1.master, UpdateIrq(s1).master, n.master + [irq]);
      }
    }
  }

  /** Lines in service, priorities and modes are the same. */
  predicate SameService(p: Pic, q: Pic) {
    q.isr == p.isr && q.priorityAdd == p.priorityAdd && q.autoEoi == p.autoEoi && q.specialNested == p.specialNested
  }

  predicate SameServices(s: Pair, r: Pair) { SameService(s.master, r.master) && SameService(s.slave, r.slave) }

  lemma {:induction false} LineQuiet(s: Pair, irq: nat, level: bool)
    requires irq < 16
    ensures SameServices(s, SetLine(s, irq, level))
  {
    var s1 := if irq < 8 then s.(master := SetIrq1(s.master, irq, level))
              else s.(slave := SetIrq1(s.slave, irq - 8, level));
    assert SameServices(s, s1);
    UpdateService(s1);
  }

  lemma {:induction false} CommandQuiet(s: Pair, c: Chip, cmd: Command)
    requires Shape(s) && CommandShape(cmd) && (cmd.Mask? || cmd.NoOperation? || cmd.RotateAutoEoi?)
    ensures SameServices(s, Execute(s, c, cmd))
  {
    var s1 := Put(s, c, Commanded(Get(s, c), cmd));
    assert SameServices(s, s1);
    UpdateService(s1);
  }

  /** Any other plain event leaves service and priorities alone. */
  lemma {:induction false} QuietEvent(s: Pair, e: Event)
    requires Shape(s) && CanHappen(e) && PlainEvent(s, e) && !e.Ack? && !(e.Cmd? && e.cmd.Eoi?)
    ensures SameServices(s, Step(s, e))
  {
    match e
    case Line(irq, level) => LineQuiet(s, irq, level);
    case Pulse(irq) =>
      LineQuiet(s, irq, true);
      LineQuiet(SetLine(s, irq, true), irq, false);
    case Cmd(chip, cmd) => CommandQuiet(s, chip, cmd);
    case Elcr(_, _) =>
  }

  lemma {:induction false} StepKeepsNesting(n: Nested, e: Event)
    requires NestInv(n) && CanHappen(e) && PlainEvent(n.pair, e)
    ensures NestInv(NestStep(n, e))
  {
    if e.Ack? {
      AckKeepsNesting(n);
    } else if e.Cmd? && e.cmd.Eoi? {
      EoiKeepsNesting(n, e.chip);
    } else {
      StepKeepsIff(n.pair, e);
      QuietEvent(n.pair, e);
      var r := Step(n.pair, e);
      NestsSame(n.pair.master, r.master, n.master);
      NestsSame(n.pair.slave, r.slave, n.slave);
      assert NestStep(n, e) == n.(pair := r);
    }
  }

  // ----- whole runs

  predicate CanRun(n: Nested, es: seq<Event>)
    decreases |es|
  {
    es == [] || (Shape(n.pair) && CanHappen(es[0]) && PlainEvent(n.pair, es[0]) && CanRun(NestStep(n, es[0]), es[1..]))
  }

  function Run(n: Nested, es: seq<Event>): Nested
    requires CanRun(n, es)
    decreases |es|
  {
    if es == [] then n else Run(NestStep(n, es[0]), es[1..])
  }

  lemma {:induction false} RunNests(n: Nested, es: seq<Event>)
    requires NestInv(n) && CanRun(n, es)
    ensures NestInv(Run(n, es))
    decreases |es|
  {
    if es != [] {
      StepKeepsNesting(n, es[0]);
      RunNests(NestStep(n, es[0]), es[1..]);
    }
  }

  lemma {:induction false} InitNests()
    ensures NestInv(Nested(Init(), [], []))
  {
    PriorityIsLeastRank({}, 0);
    assert Requests(InitPic()) == {};
  }

  /** Whatever commands the guest gives, rotations and modes included, a run of good events keeps the
      pair in step. */
  predicate GoodRun(s: Pair, es: seq<Event>)
    decreases |es|
  {
    es == [] || (Shape(s) && CanHappen(es[0]) && Good(s, es[0]) && GoodRun(Step(s, es[0]), es[1..]))
  }

  function RunPair(s: Pair, es: seq<Event>): Pair
    requires GoodRun(s, es)
    decreases |es|
  {
    if es == [] then s else RunPair(Step(s, es[0]), es[1..])
  }

  lemma {:induction false} RunStaysInStep(s: Pair, es: seq<Event>)
    requires Inv(s) && GoodRun(s, es)
    ensures Inv(RunPair(s, es))
    decreases |es|
  {
    if es != [] {
      StepKeepsIff(s, es[0]);
      RunStaysInStep(Step(s, es[0]), es[1..]);
    }
  }
}
