/** Machine words of at most 32 bits, held as naturals, with the bit operations the emulators
    apply to their register words.  Bits are numbered from 0, the least significant. */
module Words {

  function Pow2(n: nat): (p: nat)
    ensures p > 0
  {
    if n == 0 then 1 else 2 * Pow2(n - 1)
  }

  /** `w & (1 << i)` is non-zero. */
  predicate TestBit(w: nat, i: nat) {
    if i == 0 then w % 2 == 1 else TestBit(w / 2, i - 1)
  }

  /** `w | (1 << i)` */
  function SetBit(w: nat, i: nat): nat {
    if i == 0 then w - w % 2 + 1 else 2 * SetBit(w / 2, i - 1) + w % 2
  }

  /** `w & ~(1 << i)` */
  function ClearBit(w: nat, i: nat): nat {
    if i == 0 then w - w % 2 else 2 * ClearBit(w / 2, i - 1) + w % 2
  }

  lemma {:induction false} SetBitTest(w: nat, i: nat, j: nat)
    ensures TestBit(SetBit(w, i), j) <==> i == j || TestBit(w, j)
  {
    if i > 0 && j > 0 {
      SetBitTest(w / 2, i - 1, j - 1);
    }
  }

  lemma {:induction false} ClearBitTest(w: nat, i: nat, j: nat)
    ensures TestBit(ClearBit(w, i), j) <==> i != j && TestBit(w, j)
  {
    if i > 0 && j > 0 {
      ClearBitTest(w / 2, i - 1, j - 1);
    }
  }

  /** Setting and clearing bits below position n stays within n bits, and clearing a set bit
      makes the word smaller. */
  lemma {:induction false} BitOpBounds(w: nat, i: nat, n: nat)
    requires i < n && w < Pow2(n)
    ensures SetBit(w, i) < Pow2(n) && ClearBit(w, i) < Pow2(n)
    ensures TestBit(w, i) ==> ClearBit(w, i) < w
  {
    if i > 0 {
      BitOpBounds(w / 2, i - 1, n - 1);
    }
  }

  /** A word is zero exactly when none of its bits is set. */
  lemma {:induction false} ZeroHasNoBits(j: nat)
    ensures !TestBit(0, j)
  {
    if j > 0 {
      ZeroHasNoBits(j - 1);
    }
  }

  /** A word between 2^i and 2^(i+1) has bit i set and none above it. */
  lemma {:induction false} HighestBit(w: nat, i: nat, j: nat)
    requires Pow2(i) <= w < Pow2(i + 1)
    ensures TestBit(w, i)
    ensures i < j ==> !TestBit(w, j)
  {
    if i > 0 && j > 0 {
      HighestBit(w / 2, i - 1, j - 1);
    } else if i > 0 {
      HighestBit(w / 2, i - 1, 0);
    } else if j > 0 {
      ZeroHasNoBits(j - 1);
    }
  }

  lemma {:induction false} PowersTo32()
    ensures Pow2(1) == 2 && Pow2(2) == 4 && Pow2(4) == 16 && Pow2(8) == 256
    ensures Pow2(16) == 0x1_0000 && Pow2(32) == 0x1_0000_0000
  {
    assert Pow2(8) == 256 && Pow2(12) == 0x1000 && Pow2(16) == 0x1_0000;
    assert Pow2(20) == 0x10_0000 && Pow2(24) == 0x100_0000 && Pow2(28) == 0x1000_0000;
  }

  /** y is x shifted left by s places, no set bit lost. */
  ghost predicate Shifted(x: nat, y: nat, s: nat) {
    forall j: nat :: TestBit(y, j + s) <==> TestBit(x, j)
  }

  lemma {:induction false} ShiftFurther(x: nat, y: nat, s: nat, k: nat, f: nat)
    requires Shifted(x, y, s) && f == Pow2(k)
    ensures Shifted(x, y * f, s + k)
  {
    if k > 0 {
      var h := Pow2(k - 1);
      ShiftFurther(x, y, s, k - 1, h);
      assert y * f == 2 * (y * h);
      forall j: nat ensures TestBit(y * f, j + (s + k)) <==> TestBit(x, j) {
        assert TestBit(y * f, j + (s + k)) == TestBit(y * h, j + (s + (k - 1)));
      }
    }
  }

  lemma {:induction false} TimesBelow(y: nat, bound: nat, factor: nat)
    requires y < bound && factor > 0
    ensures y * factor < bound * factor
  {
  }

  /** One halving of Fls: when the top k bits of y are clear, shift them out. */
  method ShiftIfClear(ghost x: nat, y: nat, r: nat, k: nat, factor: nat, bound: nat) returns (y': nat, r': nat)
    requires factor == Pow2(k) && k < r <= 32 && Shifted(x, y, 32 - r)
    requires bound * factor == 0x1_0000_0000 && 0 < y < 0x1_0000_0000 && bound <= y * factor
    ensures r' == (if y < bound then r - k else r) && Shifted(x, y', 32 - r')
    ensures bound <= y' < 0x1_0000_0000
  {
    y', r' := y, r;
    if y < bound {
      ShiftFurther(x, y, 32 - r, k, factor);
      TimesBelow(y, bound, factor);
      y', r' := y * factor, r - k;
    }
  }

  /** Find last set: 0 for a zero word, otherwise one more than the index of the highest set bit,
      found by five halvings of the word.  A test against a mask of high bits is the comparison it
      amounts to, and a left shift, which never loses a set bit here, is a multiplication. */
  method Fls(x: nat) returns (r: nat)
    requires x < Pow2(32)
    ensures r <= 32
    ensures r == 0 <==> x == 0
    ensures r > 0 ==> TestBit(x, r - 1)
    ensures forall j :: r <= j ==> !TestBit(x, j)
  {
    PowersTo32();
    if x == 0 {
      forall j: nat ensures !TestBit(x, j) { ZeroHasNoBits(j); }
      return 0;
    }
    var y := x;
    r := 32;
    y, r := ShiftIfClear(x, y, r, 16, 0x1_0000, 0x1_0000);
    y, r := ShiftIfClear(x, y, r, 8, 0x100, 0x100_0000);
    y, r := ShiftIfClear(x, y, r, 4, 0x10, 0x1000_0000);
    y, r := ShiftIfClear(x, y, r, 2, 4, 0x4000_0000);
    y, r := ShiftIfClear(x, y, r, 1, 2, 0x8000_0000);
    TopOfShifted(x, y, r);
  }

  lemma {:induction false} TopOfShifted(x: nat, y: nat, r: nat)
    requires 0 < r <= 32 && Shifted(x, y, 32 - r)
    requires 0x8000_0000 <= y < 0x1_0000_0000
    ensures TestBit(x, r - 1)
    ensures forall j :: r <= j ==> !TestBit(x, j)
  {
    PowersTo32();
    assert Pow2(32) == 2 * Pow2(31);
    HighestBit(y, 31, 31);
    assert TestBit(y, (r - 1) + (32 - r));
    forall j | r <= j ensures !TestBit(x, j) {
      HighestBit(y, 31, j + (32 - r));
    }
  }

  /** Count trailing zeros: the index of the lowest set bit of a non-zero word. */
  method Ctz(x: nat) returns (r: nat)
    requires 0 < x < Pow2(32)
    ensures r < 32
    ensures TestBit(x, r)
    ensures forall j :: 0 <= j < r ==> !TestBit(x, j)
  {
    var y := x;
    r := 0;
    while y % 2 == 0
      invariant r <= 32 && 0 < y < Pow2(32 - r) && Dropped(x, y, r)
      decreases y
    {
      DropOne(x, y, r);
      y := y / 2;
      r := r + 1;
    }
    assert TestBit(y, 0) && TestBit(x, 0 + r);
  }

  /** `y` is `x` without its `r` lowest bits, which are all clear. */
  ghost predicate Dropped(x: nat, y: nat, r: nat) {
    && (forall j: nat :: TestBit(y, j) <==> TestBit(x, j + r))
    && (forall j: nat | j < r :: !TestBit(x, j))
  }

  lemma {:induction false} DropOne(x: nat, y: nat, r: nat)
    requires Dropped(x, y, r) && y % 2 == 0
    ensures Dropped(x, y / 2, r + 1)
  {
    assert !TestBit(y, 0);
    assert !TestBit(x, 0 + r);
    forall j: nat ensures TestBit(y / 2, j) <==> TestBit(x, j + (r + 1)) {
      assert TestBit(y, j + 1) == TestBit(y / 2, j);
      assert TestBit(y, j + 1) <==> TestBit(x, j + 1 + r);
    }
  }
}
