/** The emulated 8259 pair as the library keeps it: two sets of register bytes updated in place, scanned by a
    loop over priorities. */
module Pic8259 {
  import opened Common
  import opened LineBytes
  import opened PicModel
  import PE = PicEffects
  import PS = PicSafety

  /** struct i8259_state */
  datatype Regs = Regs(irr: Register, isr: Register, imr: Register, lastIrr: Register, elcr: Register, priorityAdd: nat, irqBase: nat,
                       autoEoi: bool, rotateOnAutoEoi: bool, specialNested: bool)

  function Sets(r: Regs): Pic {
    Pic(Lines(r.irr), Lines(r.isr), Lines(r.imr), Lines(r.lastIrr), Lines(r.elcr), r.priorityAdd, r.irqBase,
        r.autoEoi, r.rotateOnAutoEoi, r.specialNested)
  }

  /** The loop over priorities; `target` is the one it is looking for. */
  method ScanFrom(mask: Register, add: nat, ghost target: nat) returns (priority: nat)
    requires LineAt(target, add) in Lines(mask) && forall j | 0 <= j < target :: LineAt(j, add) !in Lines(mask)
    ensures priority == target
  {
    priority := 0;
    var found := Test(mask, LineAt(priority, add));
    while !found
      invariant priority <= target && (found <==> LineAt(priority, add) in Lines(mask))
      decreases target - priority, !found
    {
      priority := priority + 1;
      found := Test(mask, LineAt(priority, add));
    }
  }

  /** get_priority: the highest priority (smallest number) found in mask, 8 if it is empty. */
  method ScanPriority(mask: Register, add: nat) returns (priority: nat)
    requires add < 8
    ensures priority == GetPriority(Lines(mask), add)
  {
    PriorityIsLeastRank(Lines(mask), add);
    NoLines(mask);
    if mask == 0 {
      return 8;
    }
    priority := ScanFrom(mask, add, GetPriority(Lines(mask), add));
  }

  /** The lines in service that count for the priority. */
  method ServiceMask(r: Regs, master: bool) returns (mask: Register)
    ensures Lines(mask) == InService(Sets(r), master)
  {
    mask := r.isr;
    if r.specialNested && master {
      mask := Lower(mask, CASCADE);
    }
  }

  /** pic_get_irq */
  method FindIrq(r: Regs, master: bool) returns (irq: Option<nat>)
    requires r.priorityAdd < 8
    ensures irq == GetIrq(Sets(r), master)
  {
    var requests := Except(r.irr, r.imr);
    var priority := ScanPriority(requests, r.priorityAdd);
    if priority == 8 {
      return None;
    }
    var mask := ServiceMask(r, master);
    var current := ScanPriority(mask, r.priorityAdd);
    irq := if priority < current then Some(LineAt(priority, r.priorityAdd)) else None;
  }

  /** pic_set_irq1 */
  method SetPin(r: Regs, irq: nat, level: bool) returns (q: Regs)
    requires irq < 8
    ensures Sets(q) == SetIrq1(Sets(r), irq, level)
  {
    var irr, last := r.irr, r.lastIrr;
    var levelTriggered := Test(r.elcr, irq);
    if levelTriggered {
      if level {
        irr := Raise(irr, irq);
        last := Raise(last, irq);
      } else {
        irr := Lower(irr, irq);
        last := Lower(last, irq);
      }
    } else if level {
      var high := Test(last, irq);
      if !high {
        irr := Raise(irr, irq);
      }
      last := Raise(last, irq);
    } else {
      last := Lower(last, irq);
    }
    q := r.(irr := irr, lastIrr := last);
  }

  /** pic_clear_isr */
  method EndLine(r: Regs, irq: nat) returns (q: Regs)
    requires irq < 8
    ensures Sets(q) == ClearIsr(Sets(r), irq)
  {
    var isr := Lower(r.isr, irq);
    q := r.(isr := isr);
  }

  /** pic_intack */
  method Ack(r: Regs, irq: nat) returns (q: Regs)
    requires irq < 8
    ensures Sets(q) == IntAck(Sets(r), irq)
  {
    var isr := Raise(r.isr, irq);
    q := r.(isr := isr);
    var levelTriggered := Test(r.elcr, irq);
    if !levelTriggered {
      var irr := Lower(r.irr, irq);
      q := q.(irr := irr);
    }
    if r.autoEoi {
      if r.rotateOnAutoEoi {
        q := q.(priorityAdd := (irq + 1) % 8);
      }
      q := EndLine(q, irq);
    }
  }

  /** The registers after a command, and whether the active interrupt is left as it was; `val` is the byte
      written, which for OCW1 is the mask. */
  method Obey(r: Regs, cmd: Command, val: Register) returns (q: Regs, silent: bool)
    requires r.priorityAdd < 8 && CommandShape(cmd) && (cmd.Mask? ==> cmd.mask == Lines(val))
    ensures Sets(q) == Commanded(Sets(r), cmd) && silent == Silent(Sets(r), cmd)
  {
    q, silent := r, false;
    match cmd
    case RotateAutoEoi(on) => q, silent := r.(rotateOnAutoEoi := on), true;
    case Eoi(rotate) =>
      var priority := ScanPriority(r.isr, r.priorityAdd);
      if priority == 8 {
        return r, true;
      }
      var line := LineAt(priority, r.priorityAdd);
      if rotate {
        q := q.(priorityAdd := (line + 1) % 8);
      }
      q := EndLine(q, line);
    case SpecificEoi(line) => q := EndLine(r, line);
    case SetPriority(line) => q := r.(priorityAdd := (line + 1) % 8);
    case RotateSpecificEoi(line) =>
      q := r.(priorityAdd := (line + 1) % 8);
      q := EndLine(q, line);
    case NoOperation => silent := true;
    case Mask(_) => q := r.(imr := val);
  }

  class I8259 {
    var master: Regs
    var slave: Regs
    var output: bool

    function Abs(): Pair
      reads this
    {
      Pair(Sets(master), Sets(slave), output)
    }

    constructor ()
      ensures Abs() == Init()
    {
      var zero := Regs(0, 0, 0, 0, 0, 0, 0, false, false, false);
      NoLines(0);
      master, slave, output := zero, zero, false;
    }

    /** pic_update_irq: to be called whenever the active interrupt may have changed. */
    method Update()
      requires Shape(Abs())
      modifies this
      ensures Abs() == UpdateIrq(old(Abs()))
    {
      var irq2 := FindIrq(slave, false);
      if irq2.Some? {
        var m := SetPin(master, CASCADE, true);
        master := SetPin(m, CASCADE, false);
      }
      var irq := FindIrq(master, true);
      output := irq.Some?;
    }

    method Store(c: Chip, r: Regs)
      modifies this
      ensures Abs() == Put(old(Abs()), c, Sets(r))
    {
      if c.Master? {
        master := r;
      } else {
        slave := r;
      }
    }

    method ChangePin(irq: nat, level: bool)
      requires Shape(Abs()) && irq < 16
      modifies this
      ensures Shape(Abs()) && Abs() == WithPin(old(Abs()), irq, level)
    {
      if irq < 8 {
        PS.SetIrq1Shape(Sets(master), irq, level);
        master := SetPin(master, irq, level);
      } else {
        PS.SetIrq1Shape(Sets(slave), irq - 8, level);
        slave := SetPin(slave, irq - 8, level);
      }
    }

    /** vm_set_irq_level */
    method SetIrqLevel(irq: nat, level: bool)
      requires Shape(Abs()) && irq < 16
      modifies this
      ensures Abs() == SetLine(old(Abs()), irq, level)
    {
      ChangePin(irq, level);
      Update();
    }

    /** pic_ioport_write in normal mode: operation command words 1 and 2. */
    method Command(c: Chip, cmd: PicModel.Command, val: Register)
      requires Shape(Abs()) && CommandShape(cmd) && (cmd.Mask? ==> cmd.mask == Lines(val))
      modifies this
      ensures Abs() == Execute(old(Abs()), c, cmd)
    {
      var r, silent := Obey(if c.Master? then master else slave, cmd, val);
      Store(c, r);
      if !silent {
        Update();
      }
    }

    /** The slave's part of an acknowledge cycle that found the cascade line. */
    method AcknowledgeSlave() returns (vector: nat)
      requires PicShape(Sets(slave))
      modifies this`slave
      ensures PicShape(Sets(slave))
      ensures var p := old(Sets(slave));
              var irq := GetIrq(p, false);
              if irq.Some? then Sets(slave) == IntAck(p, irq.value) && vector == p.irqBase + irq.value
              else Sets(slave) == p && vector == p.irqBase + 7
    {
      var irq := FindIrq(slave, false);
      if irq.Some? {
        PS.IntAckShape(Sets(slave), irq.value);
        vector := slave.irqBase + irq.value;
        slave := Ack(slave, irq.value);
      } else {
        vector := slave.irqBase + 7;
      }
    }

    /** The master's part: the request is acknowledged and its vector found. */
    method Answer() returns (vector: nat)
      requires Shape(Abs())
      modifies this
      ensures Shape(Abs()) && Read(UpdateIrq(Abs()), vector) == ReadIrq(old(Abs()))
    {
      var irq := FindIrq(master, true);
      if irq.None? {
        vector := master.irqBase + 7;
      } else {
        PS.IntAckShape(Sets(master), irq.value);
        master := Ack(master, irq.value);
        if irq.value == CASCADE {
          vector := AcknowledgeSlave();
        } else {
          vector := master.irqBase + irq.value;
        }
      }
    }

    /** i8259_read_irq: acknowledge the highest request and return its vector. */
    method Acknowledge() returns (vector: nat)
      requires Shape(Abs())
      modifies this
      ensures Read(Abs(), vector) == ReadIrq(old(Abs())) && PE.VectorFor(old(Abs()), vector)
    {
      PE.ReadVector(Abs());
      vector := Answer();
      Update();
    }
  }
}
