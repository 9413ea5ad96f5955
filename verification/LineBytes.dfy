/** Register bytes with one bit for each of eight lines, as the sets of lines they stand for. */
module LineBytes {
  import opened Words

  type Register = b: nat | b < 256

  function Lines(b: Register): (s: set<nat>)
    ensures forall k | k in s :: k < 8
  {
    set k: nat | k < 8 && TestBit(b, k)
  }

  /** `a & ~b` */
  function AndNot(a: nat, b: nat): nat
    decreases a
  {
    if a == 0 then 0 else 2 * AndNot(a / 2, b / 2) + if a % 2 == 1 && b % 2 == 0 then 1 else 0
  }

  lemma {:induction false} AndNotTest(a: nat, b: nat, k: nat)
    ensures TestBit(AndNot(a, b), k) <==> TestBit(a, k) && !TestBit(b, k)
    decreases k, a
  {
    if a == 0 {
      ZeroHasNoBits(k);
    } else if k > 0 {
      AndNotTest(a / 2, b / 2, k - 1);
    }
  }

  lemma {:induction false} AndNotBound(a: nat, b: nat)
    ensures AndNot(a, b) <= a
  {
    if a > 0 {
      AndNotBound(a / 2, b / 2);
    }
  }

  lemma {:induction false} SomeBit(b: nat, n: nat) returns (k: nat)
    requires 0 < b < Pow2(n)
    ensures k < n && TestBit(b, k)
  {
    if b % 2 == 1 {
      k := 0;
    } else {
      k := SomeBit(b / 2, n - 1);
      k := k + 1;
    }
  }

  lemma {:induction false} NoLines(b: Register)
    ensures Lines(b) == {} <==> b == 0
  {
    if b == 0 {
      forall k: nat ensures !TestBit(b, k) { ZeroHasNoBits(k); }
    } else {
      PowersTo32();
      var k := SomeBit(b, 8);
      assert k in Lines(b);
    }
  }

  // ----- the operations of the source

  /** `b & (1 << k)` */
  method Test(b: Register, k: nat) returns (on: bool)
    requires k < 8
    ensures on <==> k in Lines(b)
  {
    on := TestBit(b, k);
  }

  /** `b | (1 << k)` */
  method Raise(b: Register, k: nat) returns (c: Register)
    requires k < 8
    ensures Lines(c) == Lines(b) + {k}
  {
    PowersTo32();
    BitOpBounds(b, k, 8);
    c := SetBit(b, k);
    forall j: nat ensures TestBit(c, j) <==> j == k || TestBit(b, j) { SetBitTest(b, k, j); }
  }

  /** `b & ~(1 << k)` */
  method Lower(b: Register, k: nat) returns (c: Register)
    requires k < 8
    ensures Lines(c) == Lines(b) - {k}
  {
    PowersTo32();
    BitOpBounds(b, k, 8);
    c := ClearBit(b, k);
    forall j: nat ensures TestBit(c, j) <==> j != k && TestBit(b, j) { ClearBitTest(b, k, j); }
  }

  /** `a & ~b` */
  method Except(a: Register, b: Register) returns (c: Register)
    ensures Lines(c) == Lines(a) - Lines(b)
  {
    AndNotBound(a, b);
    c := AndNot(a, b);
    forall j: nat ensures TestBit(c, j) <==> TestBit(a, j) && !TestBit(b, j) { AndNotTest(a, b, j); }
  }
}
