/** The local APIC and the injection logic as the library keeps them: vector bitmaps of eight 32-bit
    words with summary fields, and calls that re-enter each other. */
module LocalApic {
  import opened Common
  import opened PicModel
  import opened Words
  import opened ApicModel
  import Pic8259

  const NUM_WORDS: nat := 8

  /** Vector v is set in a bitmap: bit v % 32 of word v / 32. */
  predicate Has(words: seq<nat>, v: nat)
    requires |words| == NUM_WORDS && v < NUM_VECTORS
  {
    TestBit(words[v / 32], v % 32)
  }

  /** The bitmap holds exactly the vectors of s. */
  ghost predicate Represents(words: seq<nat>, s: set<nat>) {
    && |words| == NUM_WORDS && (forall v | v in s :: v < NUM_VECTORS)
    && (forall v: nat {:trigger Has(words, v)} | v < NUM_VECTORS :: Has(words, v) <==> v in s)
  }

  lemma {:induction false} RepresentsSet(words: seq<nat>, s: set<nat>, v: nat)
    requires Represents(words, s) && v < NUM_VECTORS
    ensures Represents(words[v / 32 := SetBit(words[v / 32], v % 32)], s + {v})
  {
    var words' := words[v / 32 := SetBit(words[v / 32], v % 32)];
    forall x: nat | x < NUM_VECTORS ensures Has(words', x) <==> x in s + {v} {
      SetBitTest(words[v / 32], v % 32, x % 32);
      assert Has(words, x) <==> x in s;
    }
  }

  lemma {:induction false} RepresentsClear(words: seq<nat>, s: set<nat>, v: nat)
    requires Represents(words, s) && v < NUM_VECTORS
    ensures Represents(words[v / 32 := ClearBit(words[v / 32], v % 32)], s - {v})
  {
    var words' := words[v / 32 := ClearBit(words[v / 32], v % 32)];
    forall x: nat | x < NUM_VECTORS ensures Has(words', x) <==> x in s - {v} {
      ClearBitTest(words[v / 32], v % 32, x % 32);
      assert Has(words, x) <==> x in s;
    }
  }

  lemma {:induction false} EmptyWord(words: seq<nat>, s: set<nat>, k: nat)
    requires Represents(words, s) && k < NUM_WORDS && words[k] == 0 && forall x | x in s :: x < 32 * k + 32
    ensures forall x | x in s :: x < 32 * k
  {
    forall x | x in s ensures x < 32 * k {
      assert Has(words, x);
      ZeroHasNoBits(x % 32);
    }
  }

  lemma {:induction false} HighestInWord(words: seq<nat>, s: set<nat>, k: nat, bit: nat)
    requires Represents(words, s) && k < NUM_WORDS && forall x | x in s :: x < 32 * k + 32
    requires bit < 32 && TestBit(words[k], bit) && forall j | bit < j :: !TestBit(words[k], j)
    ensures 32 * k + bit in s && forall x | x in s :: x <= 32 * k + bit
  {
    assert Has(words, 32 * k + bit);
    forall x | x in s ensures x <= 32 * k + bit {
      assert Has(words, x);
    }
  }

  /** find_highest_vector: scan the words from the top, then the word by Fls. */
  method FindHighestVector(words: array<nat>, ghost s: set<nat>) returns (v: int)
    requires Represents(words[..], s) && forall i | 0 <= i < NUM_WORDS :: words[i] < Pow2(32)
    ensures s == {} ==> v == -1
    ensures s != {} ==> v == Max(s)
  {
    var vec := NUM_VECTORS - 32;
    while vec >= 0
      invariant -32 <= vec <= NUM_VECTORS - 32 && vec % 32 == 0
      invariant forall x | x in s :: x < vec + 32
      decreases vec + 32
    {
      var w := words[vec / 32];
      if w != 0 {
        var r := Fls(w);
        v := r - 1 + vec;
        HighestInWord(words[..], s, vec / 32, r - 1);
        return;
      }
      EmptyWord(words[..], s, vec / 32);
      vec := vec - 32;
    }
    v := -1;
  }

  /** A 256-bit vector bitmap. */
  class VectorMap {
    const words: array<nat>
    ghost var vectors: set<nat>

    ghost predicate Valid()
      reads this, words
    {
      && words.Length == NUM_WORDS && (forall i | 0 <= i < NUM_WORDS :: words[i] < Pow2(32))
      && Represents(words[..], vectors)
    }

    constructor ()
      ensures Valid() && vectors == {} && fresh(words)
    {
      words := new nat[NUM_WORDS](_ => 0);
      vectors := {};
      new;
      forall v: nat ensures !TestBit(0, v) { ZeroHasNoBits(v); }
    }

    /** apic_test_vector */
    method Test(v: nat) returns (b: bool)
      requires Valid() && v < NUM_VECTORS
      ensures b == (v in vectors)
    {
      assert Has(words[..], v) <==> v in vectors;
      b := TestBit(words[v / 32], v % 32);
    }

    /** apic_set_vector */
    method Set(v: nat)
      requires Valid() && v < NUM_VECTORS
      modifies this, words
      ensures Valid() && vectors == old(vectors) + {v}
    {
      ghost var before := words[..];
      RepresentsSet(before, vectors, v);
      BitOpBounds(words[v / 32], v % 32, 32);
      words[v / 32] := SetBit(words[v / 32], v % 32);
      assert words[..] == before[v / 32 := SetBit(before[v / 32], v % 32)];
      vectors := vectors + {v};
    }

    /** apic_clear_vector */
    method Clear(v: nat)
      requires Valid() && v < NUM_VECTORS
      modifies this, words
      ensures Valid() && vectors == old(vectors) - {v}
    {
      ghost var before := words[..];
      RepresentsClear(before, vectors, v);
      BitOpBounds(words[v / 32], v % 32, 32);
      words[v / 32] := ClearBit(words[v / 32], v % 32);
      assert words[..] == before[v / 32 := ClearBit(before[v / 32], v % 32)];
      vectors := vectors - {v};
    }

    method Highest() returns (v: int)
      requires Valid()
      ensures vectors == {} ==> v == -1
      ensures vectors != {} ==> v == Max(vectors)
    {
      v := FindHighestVector(words, vectors);
    }
  }

  /** The cache field as the source stores it. */
  function Cached(cache: Option<nat>): int { if cache.Some? then cache.value else -1 }

  /** The request and service bitmaps with the summary fields kept beside them. */
  class Requests {
    const irr: VectorMap
    const isr: VectorMap
    var irrPending: bool
    var isrCount: int
    var highestIsrCache: Option<nat>

    ghost function Repr(): set<object> { {this, irr, isr, irr.words, isr.words} }

    /** The cache of the highest vector in service (None where the source stores -1) is never filled. */
    ghost predicate Valid()
      reads Repr()
    {
      highestIsrCache.None? && SummariesAgree()
    }

    /** `irrPending` says whether IRR is non-empty, and `isrCount` counts the bits of ISR. */
    ghost predicate SummariesAgree()
      reads Repr()
    {
      && irr.Valid() && isr.Valid() && irr != isr && irr.words != isr.words
      && (irrPending <==> irr.vectors != {}) && isrCount == |isr.vectors|
    }

    constructor ()
      ensures Valid() && irr.vectors == {} && isr.vectors == {} && fresh(Repr())
    {
      irr := new VectorMap();
      isr := new VectorMap();
      irrPending, isrCount, highestIsrCache := false, 0, None;
    }

    method SetIrr(v: nat)
      requires Valid() && v < NUM_VECTORS
      modifies Repr()
      ensures Valid() && irr.vectors == old(irr.vectors) + {v} && isr.vectors == old(isr.vectors)
    {
      irrPending := true;
      irr.Set(v);
    }

    method ClearIrr(v: nat)
      requires Valid() && v < NUM_VECTORS
      modifies Repr()
      ensures Valid() && irr.vectors == old(irr.vectors) - {v} && isr.vectors == old(isr.vectors)
    {
      irr.Clear(v);
      var highest := irr.Highest();
      irrPending := highest != -1;
    }

    method SetIsr(v: nat)
      requires Valid() && v < NUM_VECTORS
      modifies Repr()
      ensures Valid() && isr.vectors == old(isr.vectors) + {v} && irr.vectors == old(irr.vectors)
    {
      var already := isr.Test(v);
      if already {
        return;
      }
      isr.Set(v);
      isrCount := isrCount + 1;
    }

    method ClearIsr(v: nat)
      requires Valid() && v < NUM_VECTORS
      modifies Repr()
      ensures Valid() && isr.vectors == old(isr.vectors) - {v} && irr.vectors == old(irr.vectors)
    {
      var present := isr.Test(v);
      if !present {
        return;
      }
      isr.Clear(v);
      isrCount := isrCount - 1;
      highestIsrCache := None;
    }

    method HighestIrr() returns (v: int)
      requires Valid()
      ensures irr.vectors == {} ==> v == -1
      ensures irr.vectors != {} ==> v == Max(irr.vectors)
    {
      if !irrPending {
        return -1;
      }
      v := irr.Highest();
    }

    method HighestIsr() returns (v: int)
      requires Valid()
      ensures isr.vectors == {} ==> v == -1
      ensures isr.vectors != {} ==> v == Max(isr.vectors)
    {
      if isrCount == 0 {
        return -1;
      }
      if highestIsrCache != None {
        return Cached(highestIsrCache);
      }
      v := isr.Highest();
    }
  }

  class Vcpu {
    const req: Requests
    const pic: Pic8259.I8259
    var tpr: nat
    var ppr: nat
    var swEnabled: bool
    var hwEnabled: bool
    var extInt: bool
    var window: bool
    var entry: Option<nat>
    var halted: bool
    var inExit: bool
    var interruptsOn: bool
    var blocked: bool
    /** The abstract state this vCPU is in. */
    ghost var st: Cpu

    ghost function Repr(): set<object> { {this, pic} + req.Repr() }

    ghost predicate Valid()
      reads Repr()
    {
      && req.Valid()
      && st == Cpu(req.irr.vectors, req.isr.vectors, tpr, ppr, swEnabled, hwEnabled, extInt, pic.Abs(),
                   window, entry, halted, inExit, interruptsOn, blocked, st.service)
    }

    /** A freshly created local APIC in virtual wire mode, behind the given 8259 pair. */
    constructor (p: Pic8259.I8259)
      requires Shape(p.Abs()) && p.master.irqBase >= FIRST_VECTOR && p.slave.irqBase >= FIRST_VECTOR
      ensures Valid() && Consistent(st) && pic == p && fresh(req.Repr())
      ensures st == Cpu({}, {}, 0, 0, true, true, true, p.Abs(), false, None, false, false, false, false, [])
    {
      req := new Requests();
      pic := p;
      tpr, ppr, swEnabled, hwEnabled, extInt := 0, 0, true, true, true;
      window, entry, halted, inExit, interruptsOn, blocked := false, None, false, false, false, false;
      st := Cpu({}, {}, 0, 0, true, true, true, p.Abs(), false, None, false, false, false, false, []);
    }

    /** vm_apic_has_interrupt */
    method PeekInterrupt() returns (n: Next)
      requires Valid()
      ensures n == HasInterrupt(st)
    {
      if extInt && swEnabled && pic.output {
        return FromPic;
      }
      var highest := req.HighestIrr();
      if highest == -1 || highest / 16 * 16 <= ppr {
        return NoIrq;
      }
      n := FromApic(highest);
    }

    method MayInject() returns (b: bool)
      requires Valid()
      ensures b == CanInject(st)
    {
      b := interruptsOn && !blocked && entry.None?;
    }

    method ComputePpr() returns (p: nat)
      requires Valid() && Wf(st)
      ensures p == PprOf(st.tpr, st.isr)
    {
      var highest := req.HighestIsr();
      var isrv := if highest != -1 then highest else 0;
      p := if tpr / 16 >= isrv / 16 then tpr else isrv / 16 * 16;
    }

    /** apic_update_ppr.  Only a falling priority re-enters acceptance. */
    method RefreshPpr()
      requires Valid() && Wf(st)
      modifies Repr()
      ensures Valid() && st == UpdatePpr(old(st))
      decreases if PprOf(st.tpr, st.isr) < st.ppr then 4 else 0
    {
      var p := ComputePpr();
      var before := ppr;
      SetPpr(p);
      if p < before {
        AcceptInterrupt();
      }
    }

    method SetPpr(p: nat)
      requires Valid()
      modifies this
      ensures Valid() && st == old(st).(ppr := p)
    {
      ppr := p;
      st := st.(ppr := p);
    }

    /** vm_vcpu_accept_interrupt */
    method AcceptInterrupt()
      requires Valid() && Wf(st) && Consistent(st)
      modifies Repr()
      ensures Valid() && st == Accept(old(st))
      decreases 3
    {
      var n := PeekInterrupt();
      if n != NoIrq {
        InjectOrWait();
      }
    }

    /** vm_have_pending_interrupt */
    method InjectOrWait()
      requires Valid() && Wf(st) && Consistent(st) && HasInterrupt(st) != NoIrq
      modifies Repr()
      ensures Valid() && st == HavePending(old(st))
      decreases 2
    {
      var can := MayInject();
      if can && !halted {
        InjectNext();
        var more := PeekInterrupt();
        if more != NoIrq {
          SetFlags(true, halted);
        }
      } else {
        SetFlags(true, false);
      }
    }

    /** Take the next interrupt and set it up for injection. */
    method InjectNext()
      requires Valid() && Wf(st) && Consistent(st) && HasInterrupt(st) != NoIrq
      modifies Repr()
      ensures Valid() && st == Take(old(st)).cpu.(entry := Some(Take(old(st)).vector))
      decreases 1, 1
    {
      var vector := TakeInterrupt();
      SetEntry(vector);
    }

    method SetEntry(vector: nat)
      requires Valid()
      modifies this
      ensures Valid() && st == old(st).(entry := Some(vector))
    {
      entry := Some(vector);
      st := st.(entry := entry);
    }

    method SetFlags(w: bool, h: bool)
      requires Valid()
      modifies this
      ensures Valid() && st == old(st).(window := w, halted := h)
    {
      window, halted := w, h;
      st := st.(window := w, halted := h);
    }

    /** vm_apic_get_interrupt */
    method TakeInterrupt() returns (vector: nat)
      requires Valid() && Wf(st) && Consistent(st) && HasInterrupt(st) != NoIrq
      modifies Repr()
      ensures Valid() && Taken(st, vector) == Take(old(st))
      decreases 1, 0
    {
      var n := PeekInterrupt();
      if n == FromPic {
        vector := AcknowledgePic();
        return;
      }
      vector := n.vector;
      TakenOutranks(st);
      PutInService(vector);
      RefreshPpr();
      Withdraw(vector);
    }

    method AcknowledgePic() returns (vector: nat)
      requires Valid() && Wf(st)
      modifies Repr()
      ensures Valid() && st == old(st).(pics := ReadIrq(old(st.pics)).pair) && vector == ReadIrq(old(st.pics)).vector
    {
      vector := pic.Acknowledge();
      st := st.(pics := ReadIrq(st.pics).pair);
    }

    method PutInService(v: nat)
      requires Valid() && FIRST_VECTOR <= v < NUM_VECTORS
      modifies req.Repr(), this`st
      ensures Valid() && st == old(st).(isr := old(st.isr) + {v}, service := old(st.service) + [v])
    {
      req.SetIsr(v);
      st := st.(isr := st.isr + {v}, service := st.service + [v]);
    }

    method Withdraw(v: nat)
      requires Valid() && v < NUM_VECTORS
      modifies req.Repr(), this`st
      ensures Valid() && st == old(st).(irr := old(st.irr) - {v})
    {
      req.ClearIrr(v);
      st := st.(irr := st.irr - {v});
    }

    /** apic_set_tpr */
    method SetTpr(value: nat)
      requires Valid() && Wf(st) && value < NUM_VECTORS
      modifies Repr()
      ensures Valid() && st == WriteTpr(old(st), value)
    {
      tpr := value;
      st := st.(tpr := value);
      RefreshPpr();
    }

    /** apic_set_eoi */
    method SetEoi()
      requires Valid() && Wf(st) && Consistent(st)
      modifies Repr()
      ensures Valid()
      ensures old(st.isr) == {} ==> st == old(st)
      ensures old(st.isr) != {} ==> st == Accept(UpdatePpr(Retire(old(st))))
    {
      var v := req.HighestIsr();
      if v != -1 {
        EndServiceAndAccept(v);
      }
    }

    method EndServiceAndAccept(v: nat)
      requires Valid() && Wf(st) && Consistent(st) && st.isr != {} && v == Max(st.isr)
      modifies Repr()
      ensures Valid() && st == Accept(UpdatePpr(Retire(old(st))))
    {
      EndService(v);
      RefreshPpr();
      AcceptInterrupt();
    }

    method EndService(v: nat)
      requires Valid() && v < NUM_VECTORS
      modifies req.Repr(), this`st
      ensures Valid() && st == old(st).(isr := old(st.isr) - {v}, service := DropLast(old(st.service)))
    {
      req.ClearIsr(v);
      st := st.(isr := st.isr - {v}, service := DropLast(st.service));
    }

    /** __apic_accept_irq, fixed or lowest priority delivery */
    method Raise(v: nat)
      requires Valid() && Wf(st) && Consistent(st) && FIRST_VECTOR <= v < NUM_VECTORS
      modifies Repr()
      ensures Valid() && st == RaiseVector(old(st), v)
    {
      if swEnabled && hwEnabled {
        Request(v);
        AcceptInterrupt();
      }
    }

    method Request(v: nat)
      requires Valid() && FIRST_VECTOR <= v < NUM_VECTORS
      modifies req.Repr(), this`st
      ensures Valid() && st == old(st).(irr := old(st.irr) + {v})
    {
      req.SetIrr(v);
      st := st.(irr := st.irr + {v});
    }

    /** vm_check_external_interrupt */
    method CheckExternalInterrupt()
      requires Valid() && Wf(st) && Consistent(st)
      modifies Repr()
      ensures Valid() && st == CheckExternal(old(st))
    {
      if extInt && swEnabled {
        AcceptInterrupt();
      }
    }

    /** vm_hlt_handler */
    method HandleHlt()
      requires Valid()
      modifies Repr()
      ensures Valid() && st == Halt(old(st))
    {
      var n := PeekInterrupt();
      if n == NoIrq {
        SetFlags(window, true);
      }
    }

    /** vm_pending_interrupt_handler */
    method HandleWindow()
      requires Valid() && Wf(st) && Consistent(st) && CanInject(st)
      modifies Repr()
      ensures Valid() && st == WindowExit(old(st))
    {
      var n := PeekInterrupt();
      if n == NoIrq {
        SetFlags(false, halted);
      } else {
        InjectAtWindow();
      }
    }

    /** The window exit with an interrupt pending. */
    method InjectAtWindow()
      requires Valid() && Wf(st) && Consistent(st) && HasInterrupt(st) != NoIrq
      modifies Repr()
      ensures Valid() && st == Settle(Take(old(st)).cpu.(entry := Some(Take(old(st)).vector)))
    {
      InjectNext();
      SettleWindow();
    }

    method SettleWindow()
      requires Valid()
      modifies this
      ensures Valid() && st == Settle(old(st))
    {
      var more := PeekInterrupt();
      SetFlags(more != NoIrq && window, false);
    }
  }
}
