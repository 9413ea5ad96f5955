/** What the 8259 pair keeps over every run: the slave's requests reach the master, the output line
    tells the truth, and with fixed priorities service nests. */
module PicSafety {
  import opened Common
  import opened PicModel

  // ----- the cascade and the output

  /** A slave request that could be delivered is visible at the master, and the output says whether
      the master has something to deliver. */
  predicate InStep(s: Pair) {
    && (GetIrq(s.slave, false).Some? ==> CASCADE in s.master.irr)
    && (s.output <==> GetIrq(s.master, true).Some?)
  }

  /** The cascade pin is driven by the slave alone: it is edge-triggered and at rest. */
  predicate CascadeAtRest(s: Pair) {
    CASCADE !in s.master.elcr && CASCADE !in s.master.lastIrr
  }

  predicate Inv(s: Pair) {
    Shape(s) && InStep(s) && CascadeAtRest(s)
  }

  /** An update brings the pair in step exactly unless the cascade pin has been left high by someone
      else and its request has already been taken. */
  lemma {:induction false} UpdateInStepIff(s: Pair)
    requires Shape(s) && CASCADE !in s.master.elcr
    ensures InStep(UpdateIrq(s)) <==>
            !(GetIrq(s.slave, false).Some? && CASCADE in s.master.lastIrr && CASCADE !in s.master.irr)
  {
  }

  lemma {:induction false} UpdateKeeps(s: Pair)
    requires Shape(s) && CascadeAtRest(s)
    ensures Inv(UpdateIrq(s))
  {
  }

  lemma {:induction false} SetIrq1Shape(p: Pic, line: nat, level: bool)
    requires PicShape(p) && line < 8
    ensures PicShape(SetIrq1(p, line, level))
  {
  }

  /** A line change keeps the invariant unless it leaves the cascade pin high with no slave request
      to bring it back. */
  lemma {:induction false} SetLineKeepsIff(s: Pair, irq: nat, level: bool)
    requires Inv(s) && irq < 16
    ensures Inv(SetLine(s, irq, level)) <==> !(irq == CASCADE && level && GetIrq(s.slave, false).None?)
  {
    if irq < 8 {
      SetIrq1Shape(s.master, irq, level);
      var s1 := s.(master := SetIrq1(s.master, irq, level));
      if irq != CASCADE || !level {
        UpdateKeeps(s1);
      } else {
        UpdateInStepIff(s1);
        UpdateShape(s1);
      }
    } else {
      SetIrq1Shape(s.slave, irq - 8, level);
      UpdateKeeps(s.(slave := SetIrq1(s.slave, irq - 8, level)));
    }
  }

  lemma {:induction false} UpdateShape(s: Pair)
    requires Shape(s)
    ensures Shape(UpdateIrq(s)) && UpdateIrq(s).master.elcr == s.master.elcr
    ensures UpdateIrq(s).master.lastIrr ==
            if GetIrq(s.slave, false).Some? then s.master.lastIrr - {CASCADE} else s.master.lastIrr
  {
  }

  /** A pulse, which is how the library injects, keeps it on every line. */
  lemma {:induction false} PulseKeeps(s: Pair, irq: nat)
    requires Inv(s) && irq < 16
    ensures Inv(SetLine(SetLine(s, irq, true), irq, false))
  {
    SetLineKeepsIff(s, irq, true);
    if Inv(SetLine(s, irq, true)) {
      SetLineKeepsIff(SetLine(s, irq, true), irq, false);
    } else {
      PulseCascade(s);
    }
  }

  lemma {:induction false} PulseCascade(s: Pair)
    requires Inv(s)
    ensures Inv(SetLine(SetLine(s, CASCADE, true), CASCADE, false))
  {
    SetIrq1Shape(s.master, CASCADE, true);
    UpdateShape(s.(master := SetIrq1(s.master, CASCADE, true)));
    var r := SetLine(s, CASCADE, true);
    SetIrq1Shape(r.master, CASCADE, false);
    UpdateKeeps(r.(master := SetIrq1(r.master, CASCADE, false)));
  }

  /** The same requests, service and priorities give the same answer. */
  lemma {:induction false} GetIrqSame(p: Pic, q: Pic, master: bool)
    requires q.irr == p.irr && q.isr == p.isr && q.imr == p.imr && q.priorityAdd == p.priorityAdd
    requires q.specialNested == p.specialNested
    ensures GetIrq(q, master) == GetIrq(p, master)
  {
  }

  lemma {:induction false} PutKeeps(s: Pair, c: Chip, p: Pic)
    requires Inv(s) && PicShape(p) && p.lastIrr == Get(s, c).lastIrr && p.elcr == Get(s, c).elcr
    ensures Inv(UpdateIrq(Put(s, c, p)))
  {
    UpdateKeeps(Put(s, c, p));
  }

  lemma {:induction false} ExecuteKeeps(s: Pair, c: Chip, cmd: Command)
    requires Inv(s) && CommandShape(cmd)
    ensures Inv(Execute(s, c, cmd))
  {
    var p := Get(s, c);
    var q := Commanded(p, cmd);
    if Silent(p, cmd) {
      GetIrqSame(p, q, c.Master?);
    } else {
      PutKeeps(s, c, q);
    }
  }

  lemma {:induction false} WriteElcrKeeps(s: Pair, c: Chip, value: set<nat>)
    requires Inv(s)
    ensures Inv(WriteElcr(s, c, value))
  {
    GetIrqSame(Get(s, c), Get(s, c).(elcr := value * ElcrMask(c)), c.Master?);
  }

  lemma {:induction false} IntAckShape(p: Pic, line: nat)
    requires PicShape(p) && line < 8
    ensures PicShape(IntAck(p, line)) && IntAck(p, line).elcr == p.elcr && IntAck(p, line).lastIrr == p.lastIrr
  {
  }

  lemma {:induction false} ReadIrqKeeps(s: Pair)
    requires Inv(s)
    ensures Inv(ReadIrq(s).pair)
  {
    if GetIrq(s.master, true).Some? {
      var irq := GetIrq(s.master, true).value;
      IntAckShape(s.master, irq);
      var s1 := s.(master := IntAck(s.master, irq));
      UpdateKeeps(s1);
      if GetIrq(s1.slave, false).Some? {
        IntAckShape(s1.slave, GetIrq(s1.slave, false).value);
        UpdateKeeps(s1.(slave := IntAck(s1.slave, GetIrq(s1.slave, false).value)));
      }
    } else {
      UpdateKeeps(s);
    }
  }

  lemma {:induction false} ReadIrqShape(s: Pair)
    requires Shape(s)
    ensures Shape(ReadIrq(s).pair)
  {
    match GetIrq(s.master, true)
    case None => UpdateShape(s);
    case Some(irq) =>
      IntAckShape(s.master, irq);
      var s1 := s.(master := IntAck(s.master, irq));
      UpdateShape(s1);
      if GetIrq(s.slave, false).Some? {
        var irq2 := GetIrq(s.slave, false).value;
        IntAckShape(s.slave, irq2);
        UpdateShape(s1.(slave := IntAck(s.slave, irq2)));
      }
  }

  // ----- a counterexample

  /** Nothing requested or in service; the cascade and slave line 0 unmasked, edge-triggered and low;
      no automatic end of interrupt. */
  predicate Idle(s: Pair) {
    && Shape(s) && CascadeAtRest(s) && s.master.irr == {} && s.slave.irr == {} && s.master.isr == {} && s.slave.isr == {}
    && CASCADE !in s.master.imr && 0 !in s.slave.imr && 0 !in s.slave.elcr && 0 !in s.slave.lastIrr
    && !s.master.autoEoi
  }

  lemma {:induction false} NothingRequested(p: Pic, master: bool)
    requires PicShape(p) && Requests(p) == {}
    ensures GetIrq(p, master).None?
  {
    if GetIrq(p, master).Some? {
      GetIrqIffDeliverable(p, master, GetIrq(p, master).value);
    }
  }

  lemma {:induction false} OnlyRequest(p: Pic, master: bool, line: nat)
    requires PicShape(p) && line < 8 && Requests(p) == {line} && p.isr == {}
    ensures GetIrq(p, master) == Some(line)
  {
    GetIrqIffDeliverable(p, master, line);
  }

  lemma {:induction false} RaiseCascade(s: Pair)
    requires Idle(s)
    ensures SetLine(s, CASCADE, true) ==
            s.(master := s.master.(irr := {CASCADE}, lastIrr := s.master.lastIrr + {CASCADE}), output := true)
  {
    var m := SetIrq1(s.master, CASCADE, true);
    assert m.irr == {CASCADE} && Requests(m) == {CASCADE} && Requests(s.slave) == {};
    NothingRequested(s.slave, false);
    OnlyRequest(m, true, CASCADE);
  }

  lemma {:induction false} TakeCascade(s: Pair)
    requires Shape(s) && s.master.irr == {CASCADE} && s.master.isr == {} && CASCADE !in s.master.imr
    requires CASCADE !in s.master.elcr && !s.master.autoEoi && s.slave.irr == {}
    ensures ReadIrq(s).pair == s.(master := s.master.(irr := {}, isr := {CASCADE}), output := false)
  {
    assert Requests(s.master) == {CASCADE} && Requests(s.slave) == {};
    OnlyRequest(s.master, true, CASCADE);
    NothingRequested(s.slave, false);
    var m := IntAck(s.master, CASCADE);
    assert m == s.master.(irr := {}, isr := {CASCADE});
    assert Requests(m) == {};
    NothingRequested(m, true);
  }

  lemma {:induction false} EndCascade(s: Pair)
    requires Shape(s) && s.master.irr == {} && s.master.isr == {CASCADE} && s.slave.irr == {} && !s.output
    ensures Execute(s, Master, Eoi(false)) == s.(master := s.master.(isr := {}))
  {
    PriorityIsLeastRank(s.master.isr, s.master.priorityAdd);
    var m := Commanded(s.master, Eoi(false));
    assert m == s.master.(isr := {});
    assert Requests(m) == {} && Requests(s.slave) == {};
    NothingRequested(m, true);
    NothingRequested(s.slave, false);
  }

  /** Driven from outside, the cascade pin can hide a slave request.  From any idle pair: raise it, let
      the CPU take it and end it, and the next slave request does not reach the output. */
  lemma {:induction false} CascadeDrivenFromOutside(s: Pair)
    requires Idle(s)
    ensures var s1 := SetLine(s, CASCADE, true);
            Shape(ReadIrq(s1).pair)
    ensures var s1 := SetLine(s, CASCADE, true);
            var s3 := SetLine(Execute(ReadIrq(s1).pair, Master, Eoi(false)), 8, true);
            GetIrq(s3.slave, false) == Some(0) && !s3.output
  {
    RaiseCascade(s);
    TakeCascade(SetLine(s, CASCADE, true));
    EndCascade(ReadIrq(SetLine(s, CASCADE, true)).pair);
    var s2 := Execute(ReadIrq(SetLine(s, CASCADE, true)).pair, Master, Eoi(false));
    assert s2 == s.(master := s.master.(lastIrr := s.master.lastIrr + {CASCADE}), output := false);
    HiddenRequest(s2);
  }

  lemma {:induction false} HiddenRequest(s: Pair)
    requires Shape(s) && s.master.irr == {} && s.slave.irr == {} && s.slave.isr == {} && CASCADE !in s.master.elcr
    requires CASCADE in s.master.lastIrr && 0 !in s.slave.imr && 0 !in s.slave.elcr && 0 !in s.slave.lastIrr
    ensures GetIrq(SetLine(s, 8, true).slave, false) == Some(0) && !SetLine(s, 8, true).output
  {
    var slave := SetIrq1(s.slave, 0, true);
    assert Requests(slave) == {0};
    OnlyRequest(slave, false, 0);
    var master := SetIrq1(SetIrq1(s.master, CASCADE, true), CASCADE, false);
    assert Requests(master) == {};
    NothingRequested(master, true);
  }
}
