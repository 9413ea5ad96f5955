/** Virtualised control registers of a 32-bit x86 guest: guest/host masks, read shadows, and the point
    where the guest takes over paging. */
module ControlRegisters {
  /** A register value as the set of its bits that are 1. */
  type Bits = set<nat>

  const PE: nat := 0
  const PG: nat := 31
  const PSE: nat := 4
  const PAE: nat := 5
  const VMXE: nat := 13

  /** The bits that are not reserved. */
  const CR0_BITS: Bits := {0, 1, 2, 3, 4, 5, 16, 18, 29, 30, 31}
  const CR4_BITS: Bits := {0, 1, 2, 3, 4, 5, 6, 7, 8, 9, 10, 13, 16, 17, 18, 20}

  const CR0_MASK: Bits := {PG, PE}
  const CR0_HOST: Bits := {PG, PE}
  const CR4_MASK: Bits := {PSE, PAE, VMXE}
  const CR4_HOST: Bits := {PSE, VMXE}

  /** A masked register: the host owns the bits in `mask` and gives them the values in `host`; the guest
      reads those from the shadow and owns the rest of the real register. */
  datatype Reg = Reg(mask: Bits, host: Bits, shadow: Bits, actual: Bits)

  /** `cr3Cached` is the guest's CR3 while accesses to it still exit. */
  datatype State = State(cr0: Reg, cr4: Reg, cr3: Bits, cr3Cached: Bits, cr3Exits: bool)

  /** apply_cr_bits */
  function Apply(cr: Bits, mask: Bits, host: Bits): (r: Bits)
    ensures r * mask == host * mask && r - mask == cr - mask
  {
    (cr + mask * host) - (mask - host)
  }

  /** What the guest sees. */
  function Visible(r: Reg): Bits { r.shadow * r.mask + (r.actual - r.mask) }

  predicate HostBitsHeld(r: Reg) { r.actual * r.mask == r.host * r.mask }

  predicate Paging(s: State) { PG in s.cr0.shadow }

  /** vm_cr_get_cr3 while reads exit, and the register itself afterwards. */
  function Visible3(s: State): Bits {
    if !s.cr3Exits || Paging(s) then s.cr3 else s.cr3Cached
  }

  // ----- the handlers

  function Store(r: Reg, value: Bits): Reg { r.(shadow := value, actual := Apply(value, r.mask, r.host)) }

  /** Give PSE and PAE to the guest with the values it believes they have. */
  function HandOver(r: Reg): Reg {
    var mask := r.mask - {PSE, PAE};
    r.(mask := mask, actual := Apply(r.actual, r.mask - mask, r.shadow))
  }

  /** The part of vm_cr_set_cr0 that lets the guest take over paging. */
  function TakePaging(s: State): State {
    s.(cr4 := HandOver(s.cr4), cr3Exits := false, cr3 := s.cr3Cached)
  }

  predicate Accepts0(s: State, value: Bits) {
    value <= CR0_BITS && (Paging(s) ==> PG in value)
  }

  /** vm_cr_set_cr0; a refused value changes nothing. */
  function SetCr0(s: State, value: Bits): State {
    if !Accepts0(s, value) then s
    else
      var s1 := if PG in value && !Paging(s) then TakePaging(s) else s;
      s1.(cr0 := Store(s1.cr0, value))
  }

  /** vm_cr_set_cr3 */
  function SetCr3(s: State, value: Bits): State {
    s.(cr3Cached := value, cr3 := if Paging(s) then value else s.cr3)
  }

  /** vm_cr_set_cr4 */
  function SetCr4(s: State, value: Bits): State {
    if !(value <= CR4_BITS) then s else s.(cr4 := Store(s.cr4, value))
  }

  // ----- the processor

  /** A write exits only if it would change a bit the host owns. */
  predicate Exits(r: Reg, value: Bits) { value * r.mask != r.shadow * r.mask }

  /** A change of guest-owned bits that does not exit. */
  function Merge(r: Reg, value: Bits): Reg { r.(actual := r.actual * r.mask + (value - r.mask)) }

  datatype Event = Write0(value: Bits) | Write3(value: Bits) | Write4(value: Bits) | Own0(value: Bits) | Own4(value: Bits)

  /** `Own0` and `Own4` are instructions that change guest-owned bits only. */
  function Step(s: State, e: Event): State {
    match e
    case Write0(v) => if Exits(s.cr0, v) then SetCr0(s, v) else s.(cr0 := Merge(s.cr0, v))
    case Write4(v) => if Exits(s.cr4, v) then SetCr4(s, v) else s.(cr4 := Merge(s.cr4, v))
    case Write3(v) => if s.cr3Exits then SetCr3(s, v) else s.(cr3 := v)
    case Own0(v) => s.(cr0 := Merge(s.cr0, v))
    case Own4(v) => s.(cr4 := Merge(s.cr4, v))
  }

  // ----- a machine without masks and shadows

  /** The registers as the guest sees them. */
  datatype Plain = Plain(cr0: Bits, cr3: Bits, cr4: Bits)

  /** The bits the host watches at boot. */
  datatype Watch = Watch(cr0: Bits, cr4: Bits)

  /** PSE and PAE are watched until the guest takes over paging. */
  function Watched4(w: Watch, p: Plain): Bits { if PG in p.cr0 then w.cr4 - {PSE, PAE} else w.cr4 }

  predicate Changes(was: Bits, value: Bits, bits: Bits) { exists b | b in bits :: (b in was) != (b in value) }

  /** A write that changes a watched bit is refused if it sets a reserved one or switches paging off. */
  predicate Refused(w: Watch, p: Plain, e: Event) {
    match e
    case Write0(v) => Changes(p.cr0, v, w.cr0) && !(v <= CR0_BITS && (PG in p.cr0 ==> PG in v))
    case Write4(v) => Changes(p.cr4, v, Watched4(w, p)) && !(v <= CR4_BITS)
    case _ => false
  }

  /** Every write that is not refused is stored as it is. */
  function PlainStep(w: Watch, p: Plain, e: Event): Plain {
    if Refused(w, p, e) then p
    else
      match e
      case Write0(v) => p.(cr0 := v)
      case Write3(v) => p.(cr3 := v)
      case Write4(v) => p.(cr4 := v)
      case Own0(v) => p.(cr0 := p.cr0 * w.cr0 + (v - w.cr0))
      case Own4(v) => p.(cr4 := p.cr4 * Watched4(w, p) + (v - Watched4(w, p)))
  }

  function Shown(s: State): Plain { Plain(Visible(s.cr0), Visible3(s), Visible(s.cr4)) }

  // ----- what every access keeps

  predicate Inv(s: State, w: Watch) {
    && PG in w.cr0 && s.cr0.mask == w.cr0 && s.cr4.mask == Watched4(w, Shown(s))
    && HostBitsHeld(s.cr0) && HostBitsHeld(s.cr4) && (s.cr3Exits <==> !Paging(s))
  }

  /** An accepted trapped write shows exactly what was written and keeps the host's bits. */
  lemma {:induction false} StoreShows(r: Reg, value: Bits)
    ensures Visible(Store(r, value)) == value && HostBitsHeld(Store(r, value))
  {
  }

  lemma {:induction false} MergeShows(r: Reg, value: Bits)
    requires HostBitsHeld(r)
    ensures HostBitsHeld(Merge(r, value)) && Visible(Merge(r, value)) == Visible(r) * r.mask + (value - r.mask)
    ensures !Exits(r, value) ==> Visible(Merge(r, value)) == value
  {
  }

  /** Handing PSE and PAE over changes neither what the guest sees of CR4 nor the bits the host keeps. */
  lemma {:induction false} HandOverShows(r: Reg)
    requires HostBitsHeld(r)
    ensures Visible(HandOver(r)) == Visible(r) && HostBitsHeld(HandOver(r))
  {
    var h := HandOver(r);
    forall b | b in h.mask ensures b in h.actual <==> b in h.host {
      assert b in r.mask;
      assert b in r.actual * r.mask <==> b in r.host * r.mask;
    }
  }

  /** A write to CR0 that reaches its handler shows what was written, unless it is refused and changes nothing; CR3 and
      CR4 look as they did, also when the guest takes over paging. */
  lemma {:induction false} SetCr0Shows(s: State, value: Bits)
    requires HostBitsHeld(s.cr4) && (s.cr3Exits <==> !Paging(s))
    ensures !Accepts0(s, value) ==> SetCr0(s, value) == s
    ensures Accepts0(s, value) ==>
              var t := SetCr0(s, value);
              && Shown(t) == Shown(s).(cr0 := value) && HostBitsHeld(t.cr0) && HostBitsHeld(t.cr4)
              && (t.cr3Exits <==> !Paging(t)) && t.cr0.mask == s.cr0.mask
              && t.cr4.mask == if PG in value && !Paging(s) then s.cr4.mask - {PSE, PAE} else s.cr4.mask
  {
    StoreShows(s.cr0, value);
    HandOverShows(s.cr4);
  }

  lemma {:induction false} SetCr3Shows(s: State, value: Bits)
    requires s.cr3Exits
    ensures Shown(SetCr3(s, value)) == Shown(s).(cr3 := value)
    ensures var t := SetCr3(s, value); t.cr0 == s.cr0 && t.cr4 == s.cr4 && t.cr3Exits == s.cr3Exits
  {
  }

  lemma {:induction false} SetCr4Shows(s: State, value: Bits)
    ensures !(value <= CR4_BITS) ==> SetCr4(s, value) == s
    ensures value <= CR4_BITS ==>
              var t := SetCr4(s, value);
              && Shown(t) == Shown(s).(cr4 := value) && HostBitsHeld(t.cr4)
              && t == s.(cr4 := t.cr4) && t.cr4.mask == s.cr4.mask
  {
    StoreShows(s.cr4, value);
  }

  /** Taking over paging leaves the visible CR3 and CR4 as they were and ends the watch on PSE, PAE and CR3. */
  lemma {:induction false} PagingSeamless(s: State, w: Watch, value: Bits)
    requires Inv(s, w) && Accepts0(s, value) && PG in value && !Paging(s)
    ensures var t := SetCr0(s, value);
            && Shown(t) == Shown(s).(cr0 := value)
            && t.cr3 == s.cr3Cached && !t.cr3Exits && PSE !in t.cr4.mask && PAE !in t.cr4.mask
  {
    SetCr0Shows(s, value);
  }

  /** A write exits exactly if it changes a watched bit of what the guest sees. */
  lemma {:induction false} ExitsIff(r: Reg, value: Bits)
    ensures Exits(r, value) <==> Changes(Visible(r), value, r.mask)
  {
    if Changes(Visible(r), value, r.mask) {
      var b :| b in r.mask && (b in Visible(r)) != (b in value);
      assert (b in value * r.mask) != (b in r.shadow * r.mask);
    } else {
      forall b | b in r.mask ensures b in value <==> b in r.shadow {
        assert (b in Visible(r)) == (b in value);
      }
    }
  }

  predicate Follows(s: State, w: Watch, e: Event) {
    Inv(Step(s, e), w) && Shown(Step(s, e)) == PlainStep(w, Shown(s), e)
  }

  lemma {:induction false} Write0Follows(s: State, w: Watch, v: Bits)
    requires Inv(s, w)
    ensures Follows(s, w, Write0(v))
  {
    ExitsIff(s.cr0, v);
    if Exits(s.cr0, v) {
      SetCr0Shows(s, v);
    } else {
      MergeShows(s.cr0, v);
      assert PG in v * w.cr0 <==> PG in s.cr0.shadow * w.cr0;
    }
  }

  lemma {:induction false} Write4Follows(s: State, w: Watch, v: Bits)
    requires Inv(s, w)
    ensures Follows(s, w, Write4(v))
  {
    ExitsIff(s.cr4, v);
    if Exits(s.cr4, v) {
      SetCr4Shows(s, v);
    } else {
      MergeShows(s.cr4, v);
    }
  }

  lemma {:induction false} StepFollows(s: State, w: Watch, e: Event)
    requires Inv(s, w)
    ensures Follows(s, w, e)
  {
    match e
    case Write0(v) => Write0Follows(s, w, v);
    case Write4(v) => Write4Follows(s, w, v);
    case Write3(v) =>
    case Own0(v) => MergeShows(s.cr0, v);
    case Own4(v) => MergeShows(s.cr4, v);
  }

  function Run(s: State, es: seq<Event>): State
    decreases |es|
  {
    if es == [] then s else Run(Step(s, es[0]), es[1..])
  }

  function PlainRun(w: Watch, p: Plain, es: seq<Event>): Plain
    decreases |es|
  {
    if es == [] then p else PlainRun(w, PlainStep(w, p, es[0]), es[1..])
  }

  /** Over any sequence of accesses, trapped or not, the guest sees the registers of a machine without masks and
      shadows, and the bits the host owns have the host's values. */
  lemma {:induction false} RunTransparent(s: State, w: Watch, es: seq<Event>)
    requires Inv(s, w)
    ensures Shown(Run(s, es)) == PlainRun(w, Shown(s), es)
    ensures Inv(Run(s, es), w)
    decreases |es|
  {
    if es != [] {
      StepFollows(s, w, es[0]);
      RunTransparent(Step(s, es[0]), w, es[1..]);
    }
  }

  /** The state set up for a new vCPU. */
  function Boot(guestPd: Bits): State {
    var cr0, cr4 := Reg(CR0_MASK, CR0_HOST, {}, CR0_HOST), Reg(CR4_MASK, CR4_HOST, {}, CR4_HOST);
    State(cr0, cr4, guestPd, {}, true)
  }

  /** A new guest sees empty registers, while paging and protection are on. */
  lemma {:induction false} BootInv(guestPd: Bits)
    ensures Inv(Boot(guestPd), Watch(CR0_MASK, CR4_MASK)) && Shown(Boot(guestPd)) == Plain({}, {}, {})
    ensures PG in Boot(guestPd).cr0.actual && PE in Boot(guestPd).cr0.actual
  {
  }

  /** The guest cannot switch paging off again. */
  lemma {:induction false} PagingStays(s: State, w: Watch, e: Event)
    requires Inv(s, w) && Paging(s)
    ensures Paging(Step(s, e))
  {
  }

  // ----- in place

  class GuestCr {
    var cr0Mask: Bits
    var cr4Mask: Bits
    var cr0Shadow: Bits
    var cr4Shadow: Bits
    const cr0Host: Bits
    const cr4Host: Bits
    var cr0: Bits
    var cr3: Bits
    var cr4: Bits
    var cr3Guest: Bits
    var cr3Exits: bool

    ghost function Value(): State
      reads this
    {
      State(Reg(cr0Mask, cr0Host, cr0Shadow, cr0), Reg(cr4Mask, cr4Host, cr4Shadow, cr4), cr3, cr3Guest, cr3Exits)
    }

    constructor (guestPd: Bits)
      ensures Value() == Boot(guestPd)
    {
      cr0Mask, cr0Shadow, cr0Host, cr0 := CR0_MASK, {}, CR0_HOST, CR0_HOST;
      cr4Mask, cr4Shadow, cr4Host, cr4 := CR4_MASK, {}, CR4_HOST, CR4_HOST;
      cr3, cr3Guest, cr3Exits := guestPd, {}, true;
    }

    /** vm_cr_set_cr0 */
    method WriteCr0(value: Bits) returns (ok: bool)
      modifies this
      ensures Value() == SetCr0(old(Value()), value) && ok == Accepts0(old(Value()), value)
      ensures ok && old(HostBitsHeld(Value().cr4) && (cr3Exits <==> !Paging(Value()))) ==>
                Shown(Value()) == old(Shown(Value())).(cr0 := value) && HostBitsHeld(Value().cr0)
      ensures !ok ==> Value() == old(Value())
    {
      if !(value <= CR0_BITS) {
        return false;
      }
      if PG in value && PG !in cr0Shadow {
        var newMask := cr4Mask - {PSE, PAE};
        cr4 := Apply(cr4, cr4Mask - newMask, cr4Shadow);
        cr4Mask := newMask;
        cr3Exits := false;
        cr3 := cr3Guest;
      }
      if PG !in value && PG in cr0Shadow {
        return false;
      }
      cr0Shadow := value;
      cr0 := Apply(value, cr0Mask, cr0Host);
      ok := true;
      if old(HostBitsHeld(Value().cr4) && (cr3Exits <==> !Paging(Value()))) {
        SetCr0Shows(old(Value()), value);
      }
    }

    /** vm_cr_set_cr3 */
    method WriteCr3(value: Bits)
      modifies this
      ensures Value() == SetCr3(old(Value()), value)
      ensures old(cr3Exits) ==> Shown(Value()) == old(Shown(Value())).(cr3 := value)
    {
      cr3Guest := value;
      if PG in cr0Shadow {
        cr3 := value;
      }
    }

    /** vm_cr_get_cr3, called while reads exit */
    method ReadCr3() returns (value: Bits)
      requires cr3Exits
      ensures value == Visible3(Value())
    {
      value := if PG in cr0Shadow then cr3 else cr3Guest;
    }

    /** vm_cr_set_cr4 */
    method WriteCr4(value: Bits) returns (ok: bool)
      modifies this
      ensures Value() == SetCr4(old(Value()), value) && ok == (value <= CR4_BITS)
      ensures ok ==> Shown(Value()) == old(Shown(Value())).(cr4 := value) && HostBitsHeld(Value().cr4)
      ensures !ok ==> Value() == old(Value())
    {
      ok := value <= CR4_BITS;
      if ok {
        cr4Shadow := value;
        cr4 := Apply(value, cr4Mask, cr4Host);
      }
      SetCr4Shows(old(Value()), value);
    }
  }
}
