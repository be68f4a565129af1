/** Bitwise operators on unsigned words, written over natural numbers, with the
    bit-level facts the masks of the sources rely on. */
module Bits {
  import opened Machine

  ghost predicate Bit(x: nat, i: nat) { if i == 0 then x % 2 == 1 else Bit(x / 2, i - 1) }

  function Pow2(n: nat): (p: nat)
    ensures p >= 1
  {
    if n == 0 then 1 else 2 * Pow2(n - 1)
  }

  function And(a: nat, b: nat): nat {
    if a == 0 || b == 0 then 0 else (a % 2) * (b % 2) + 2 * And(a / 2, b / 2)
  }

  function Or(a: nat, b: nat): nat {
    if a == 0 then b else if b == 0 then a
    else Max(a % 2, b % 2) + 2 * Or(a / 2, b / 2)
  }

  /** Bitwise complement of a word of the given width. */
  function Not(x: nat, width: nat): nat
    requires x < Pow2(width)
  {
    Pow2(width) - 1 - x
  }

  /** `1 << i`. */
  function OneBit(i: nat): nat { Pow2(i) }

  function PopCount(x: nat): nat { if x == 0 then 0 else x % 2 + PopCount(x / 2) }

  function TrailingZeros(x: nat): nat
    requires x != 0
  {
    if x % 2 == 1 then 0 else 1 + TrailingZeros(x / 2)
  }

  /** The bit positions below `width` that are set. */
  ghost function SetBits(x: nat, width: nat): set<nat> { set i: nat | i < width && Bit(x, i) }

  lemma {:induction false} ZeroBits(i: nat)
    ensures !Bit(0, i)
  {
    if i > 0 { ZeroBits(i - 1); }
  }

  lemma {:induction false} AndBit(a: nat, b: nat, i: nat)
    ensures Bit(And(a, b), i) <==> Bit(a, i) && Bit(b, i)
    decreases i
  {
    if a == 0 || b == 0 {
      ZeroBits(i);
    } else {
      var r := And(a, b);
      assert r % 2 == (a % 2) * (b % 2) && r / 2 == And(a / 2, b / 2);
      if i > 0 { AndBit(a / 2, b / 2, i - 1); }
    }
  }

  lemma {:induction false} OrBit(a: nat, b: nat, i: nat)
    ensures Bit(Or(a, b), i) <==> Bit(a, i) || Bit(b, i)
    decreases i
  {
    if a == 0 || b == 0 {
      ZeroBits(i);
    } else {
      var r := Or(a, b);
      assert r % 2 == Max(a % 2, b % 2) && r / 2 == Or(a / 2, b / 2);
      if i > 0 { OrBit(a / 2, b / 2, i - 1); }
    }
  }

  lemma {:induction false} NotBit(x: nat, width: nat, i: nat)
    requires x < Pow2(width)
    ensures Bit(Not(x, width), i) <==> i < width && !Bit(x, i)
    decreases width
  {
    if width == 0 {
      ZeroBits(i);
    } else {
      var r := Not(x, width);
      assert r / 2 == Not(x / 2, width - 1) && r % 2 == 1 - x % 2;
      if i > 0 { NotBit(x / 2, width - 1, i - 1); }
    }
  }

  lemma {:induction false} OneBitBit(k: nat, i: nat)
    ensures Bit(OneBit(k), i) <==> i == k
    decreases k
  {
    if k == 0 {
      if i > 0 { ZeroBits(i - 1); }
    } else if i > 0 {
      OneBitBit(k - 1, i - 1);
    }
  }

  /** Bits at or above the width of a word are clear. */
  lemma {:induction false} HighBitsClear(x: nat, width: nat, i: nat)
    requires x < Pow2(width) && i >= width
    ensures !Bit(x, i)
    decreases width
  {
    if width == 0 { ZeroBits(i); } else { HighBitsClear(x / 2, width - 1, i - 1); }
  }

  /** A word is zero exactly when none of its bits is set. */
  lemma {:induction false} NonzeroHasBit(x: nat, width: nat) returns (i: nat)
    requires 0 < x < Pow2(width)
    ensures i < width && Bit(x, i)
    decreases width
  {
    if x % 2 == 1 {
      i := 0;
    } else {
      var j := NonzeroHasBit(x / 2, width - 1);
      i := j + 1;
    }
  }

  lemma {:induction false} OrBound(a: nat, b: nat, width: nat)
    requires a < Pow2(width) && b < Pow2(width)
    ensures Or(a, b) < Pow2(width)
    decreases width
  {
    if width > 0 && a != 0 && b != 0 { OrBound(a / 2, b / 2, width - 1); }
  }

  lemma {:induction false} AndBound(a: nat, b: nat)
    ensures And(a, b) <= a && And(a, b) <= b
    decreases a
  {
    if a != 0 && b != 0 {
      AndBound(a / 2, b / 2);
      assert (a % 2) * (b % 2) <= a % 2 && (a % 2) * (b % 2) <= b % 2;
    }
  }

  lemma {:induction false} Pow2Monotone(i: nat, j: nat)
    requires i < j
    ensures 2 * Pow2(i) <= Pow2(j)
    decreases j
  {
    if i < j - 1 { Pow2Monotone(i, j - 1); }
  }

  /** Trailing zeros name the lowest set bit. */
  lemma {:induction false} TrailingZerosLeast(x: nat, i: nat)
    requires x != 0
    ensures Bit(x, TrailingZeros(x))
    ensures i < TrailingZeros(x) ==> !Bit(x, i)
    decreases x
  {
    if x % 2 == 0 { TrailingZerosLeast(x / 2, if i > 0 then i - 1 else 0); }
  }

  /** The population count is the size of the set of set bits. */
  lemma {:induction false} PopCountIsCardinality(x: nat, width: nat)
    requires x < Pow2(width)
    ensures PopCount(x) == |SetBits(x, width)|
    decreases width
  {
    if width == 0 {
      assert SetBits(x, 0) == {};
    } else {
      PopCountIsCardinality(x / 2, width - 1);
      ShiftKeepsSize(SetBits(x / 2, width - 1));
      SetBitsHalve(x, width);
      assert 0 !in Shifted(SetBits(x / 2, width - 1));
    }
  }

  lemma SetBitsHalve(x: nat, width: nat)
    requires width > 0
    ensures SetBits(x, width) == (if x % 2 == 1 then {0} else {}) + Shifted(SetBits(x / 2, width - 1))
  {
    forall i: nat | i < width && Bit(x, i) && i > 0 ensures i in Shifted(SetBits(x / 2, width - 1)) {
      assert i - 1 in SetBits(x / 2, width - 1);
    }
  }

  ghost function Shifted(s: set<nat>): set<nat> { set i | i in s :: i + 1 }

  lemma {:induction false} ShiftKeepsSize(s: set<nat>)
    ensures |Shifted(s)| == |s|
    decreases |s|
  {
    if s != {} {
      var x :| x in s;
      ShiftKeepsSize(s - {x});
      forall j | j in Shifted(s) ensures j in Shifted(s - {x}) + {x + 1} {
        assert j - 1 in s;
        if j != x + 1 { assert j - 1 in s - {x}; }
      }
      assert Shifted(s) == Shifted(s - {x}) + {x + 1};
    }
  }

  lemma {:induction false} OneBitBound(i: nat, width: nat)
    requires i < width
    ensures OneBit(i) < Pow2(width)
  {
    Pow2Monotone(i, width);
  }

  /** `x | 1 << i` adds one position. */
  lemma SetOneBit(x: nat, i: nat, width: nat)
    requires x < Pow2(width) && i < width
    ensures Or(x, OneBit(i)) < Pow2(width)
    ensures SetBits(Or(x, OneBit(i)), width) == SetBits(x, width) + {i}
  {
    OneBitBound(i, width);
    OrBound(x, OneBit(i), width);
    forall j: nat | j < width ensures Bit(Or(x, OneBit(i)), j) <==> Bit(x, j) || j == i {
      OrBit(x, OneBit(i), j);
      OneBitBit(i, j);
    }
  }

  /** `x & !(1 << i)` removes one position. */
  lemma ClearOneBit(x: nat, i: nat, width: nat)
    requires x < Pow2(width) && i < width && OneBit(i) < Pow2(width)
    ensures And(x, Not(OneBit(i), width)) < Pow2(width)
    ensures SetBits(And(x, Not(OneBit(i), width)), width) == SetBits(x, width) - {i}
  {
    var others := Not(OneBit(i), width);
    AndBound(x, others);
    forall j: nat | j < width ensures Bit(And(x, others), j) <==> Bit(x, j) && j != i {
      AndBit(x, others, j);
      NotBit(OneBit(i), width, j);
      OneBitBit(i, j);
    }
  }

  /** `x & 1 << i` tests one position. */
  lemma TestOneBit(x: nat, i: nat, width: nat)
    requires x < Pow2(width) && i < width
    ensures And(x, OneBit(i)) != 0 <==> i in SetBits(x, width)
  {
    AndBit(x, OneBit(i), i);
    OneBitBit(i, i);
    if And(x, OneBit(i)) == 0 {
      ZeroBits(i);
    } else {
      AndBound(x, OneBit(i));
      var j := NonzeroHasBit(And(x, OneBit(i)), width);
      AndBit(x, OneBit(i), j);
      OneBitBit(i, j);
    }
  }

  lemma Pow2At64()
    ensures Pow2(64) == 0x1_0000_0000_0000_0000
  {
    assert Pow2(8) == 0x100;
    assert Pow2(16) == 0x1_0000;
    assert Pow2(24) == 0x100_0000;
    assert Pow2(32) == 0x1_0000_0000;
    assert Pow2(40) == 0x100_0000_0000;
    assert Pow2(48) == 0x1_0000_0000_0000;
    assert Pow2(56) == 0x100_0000_0000_0000;
  }

  /** Clearing the low `k` bits of a word rounds it down to a multiple of 2^k:
      `mask` is the word of the given width whose low `k` bits are clear. */
  lemma {:induction false} ClearLowBits(x: nat, width: nat, k: nat, mask: nat)
    requires x < Pow2(width) && k <= width && mask + Pow2(k) == Pow2(width)
    ensures And(x, mask) == x - x % Pow2(k)
    decreases width, k
  {
    if x == 0 || width == 0 {
    } else if k == 0 {
      assert mask == 2 * Pow2(width - 1) - 1;
      ClearLowBits(x / 2, width - 1, 0, mask / 2);
    } else {
      assert mask % 2 == 0 && mask / 2 + Pow2(k - 1) == Pow2(width - 1);
      ClearLowBits(x / 2, width - 1, k - 1, mask / 2);
      HalfMod(x, Pow2(k - 1));
      if mask == 0 { assert x < Pow2(k); SmallMod(x, Pow2(k)); }
    }
  }

  lemma SmallMod(x: nat, p: nat)
    requires x < p
    ensures x % p == x
  {
  }

  lemma HalfMod(x: nat, p: nat)
    requires p > 0
    ensures x % (2 * p) == 2 * ((x / 2) % p) + x % 2
  {
    var q, r := (x / 2) / p, (x / 2) % p;
    assert x / 2 == p * q + r;
    assert 2 * (p * q) == (2 * p) * q;
    DivModUnique(x, 2 * p, q, 2 * r + x % 2);
  }

  /** Euclidean division is unique. */
  lemma DivModUnique(x: int, d: int, q: int, r: int)
    requires d > 0 && 0 <= r < d && x == d * q + r
    ensures x % d == r && x / d == q
  {
    SameQuotient(d, q, r, x / d, x % d);
  }

  lemma SameQuotient(d: int, q: int, r: int, q': int, r': int)
    requires d > 0 && 0 <= r < d && 0 <= r' < d && d * q + r == d * q' + r'
    ensures q == q' && r == r'
  {
    if q > q' {
      assert d * (q - q') == d * q - d * q';
      MulAtLeast(d, q - q');
    } else if q < q' {
      assert d * (q' - q) == d * q' - d * q;
      MulAtLeast(d, q' - q);
    }
  }

  lemma {:induction false} MulAtLeast(d: int, k: int)
    requires d > 0 && k >= 1
    ensures d * k >= d
    decreases k
  {
    if k > 1 {
      MulAtLeast(d, k - 1);
      assert d * k == d * (k - 1) + d;
    }
  }
}
