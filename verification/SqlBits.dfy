/** SQLite's bit operators on 64-bit integers, written out on the unsigned bit pattern.

    The pattern is a natural number below 2^64; `Bit` reads one bit, lowest first.  Every
    operator comes with the lemma that says what it does to each bit. */
module SqlBits {
  const WORD: nat := 0x1_0000_0000_0000_0000
  const MASK_63: nat := 9223372036854775807

  predicate Bit(w: nat, i: nat)
    decreases i
  {
    if i == 0 then w % 2 == 1 else Bit(w / 2, i - 1)
  }

  /** `v | w` */
  function Or(v: nat, w: nat): nat {
    if v == 0 && w == 0 then 0
    else (if v % 2 == 1 || w % 2 == 1 then 1 else 0) + 2 * Or(v / 2, w / 2)
  }

  /** `v & w` */
  function And(v: nat, w: nat): nat {
    if v == 0 || w == 0 then 0
    else (if v % 2 == 1 && w % 2 == 1 then 1 else 0) + 2 * And(v / 2, w / 2)
  }

  /** `w << d`: bits shifted past the 64th are lost. */
  function ShiftLeft(w: nat, d: nat): nat {
    if d == 0 then w else (2 * ShiftLeft(w, d - 1)) % WORD
  }

  function Ones(k: nat): nat {
    if k == 0 then 0 else 1 + 2 * Ones(k - 1)
  }

  lemma {:induction false} BitOfZero(i: nat)
    ensures !Bit(0, i)
  {
    if i > 0 { BitOfZero(i - 1); }
  }

  lemma {:induction false} BitOfOne(i: nat)
    ensures Bit(1, i) <==> i == 0
  {
    if i > 0 { BitOfZero(i - 1); }
  }

  lemma {:induction false} BitOfOr(v: nat, w: nat, i: nat)
    ensures Bit(Or(v, w), i) <==> Bit(v, i) || Bit(w, i)
    decreases i
  {
    if v == 0 && w == 0 {
      BitOfZero(i);
    } else if i > 0 {
      BitOfOr(v / 2, w / 2, i - 1);
    }
  }

  lemma {:induction false} BitOfAnd(v: nat, w: nat, i: nat)
    ensures Bit(And(v, w), i) <==> Bit(v, i) && Bit(w, i)
    decreases i
  {
    if v == 0 || w == 0 {
      BitOfZero(i);
    } else if i > 0 {
      BitOfAnd(v / 2, w / 2, i - 1);
    }
  }

  lemma {:induction false} BitOfOnes(k: nat, i: nat)
    ensures Bit(Ones(k), i) <==> i < k
    decreases i
  {
    if k == 0 {
      BitOfZero(i);
    } else if i > 0 {
      BitOfOnes(k - 1, i - 1);
    }
  }

  function Power2(k: nat): (p: nat)
    ensures p > 0
  {
    if k == 0 then 1 else 2 * Power2(k - 1)
  }

  lemma HalveRemainder(y: nat, m: nat)
    requires m > 0
    ensures (y % (2 * m)) / 2 == (y / 2) % m
    ensures (y % (2 * m)) % 2 == y % 2
  {
    var q, r := y / (2 * m), y % (2 * m);
    assert y == 2 * (m * q) + r;
    assert y / 2 == m * q + r / 2;
    assert r / 2 < m;
    RemainderIs(y / 2, m, q, r / 2);
  }

  lemma Multiples(m: nat, a: nat, b: nat)
    requires a < b
    ensures m * a + m <= m * b
  {
    assert m * b - m * (a + 1) == m * (b - a - 1) >= 0;
  }

  lemma RemainderIs(y: nat, m: nat, q: nat, r: nat)
    requires r < m && y == m * q + r
    ensures y % m == r
  {
    var q' := y / m;
    if q < q' {
      Multiples(m, q, q');
    } else if q' < q {
      Multiples(m, q', q);
    }
  }

  lemma {:induction false} BitOfRemainder(y: nat, k: nat, i: nat)
    requires i < k
    ensures Bit(y % Power2(k), i) <==> Bit(y, i)
    decreases i
  {
    HalveRemainder(y, Power2(k - 1));
    if i > 0 {
      BitOfRemainder(y / 2, k - 1, i - 1);
    }
  }

  lemma {:induction false} OnesBelowPower(k: nat)
    ensures Ones(k) == Power2(k) - 1
  {
    if k > 0 { OnesBelowPower(k - 1); }
  }

  lemma EightMore(k: nat)
    ensures Power2(k + 8) == 256 * Power2(k)
  {
    assert Power2(k + 2) == 4 * Power2(k);
    assert Power2(k + 4) == 4 * Power2(k + 2);
    assert Power2(k + 6) == 4 * Power2(k + 4);
  }

  lemma WordIsPower()
    ensures Power2(64) == WORD && Ones(63) == MASK_63
  {
    EightMore(0); EightMore(8); EightMore(16); EightMore(24);
    EightMore(32); EightMore(40); EightMore(48); EightMore(56);
    OnesBelowPower(63);
    assert Power2(64) == 2 * Power2(63);
  }

  lemma {:induction false} BitOfShift(w: nat, d: nat, i: nat)
    requires i < 64
    ensures Bit(ShiftLeft(w, d), i) <==> i >= d && Bit(w, i - d)
  {
    if d > 0 {
      var x := ShiftLeft(w, d - 1);
      WordIsPower();
      BitOfRemainder(2 * x, 64, i);
      if i > 0 { BitOfShift(w, d - 1, i - 1); }
    }
  }

  /** A register tested against a single shifted one: the result is zero exactly when that bit
      is clear. */
  lemma {:induction false} AndWithOneBit(w: nat, k: nat)
    requires k < 64
    ensures And(w, ShiftLeft(1, k)) == 0 <==> !Bit(w, k)
  {
    BitOfAnd(w, ShiftLeft(1, k), k);
    BitOfShift(1, k, k);
    if And(w, ShiftLeft(1, k)) == 0 {
      BitOfZero(k);
    } else {
      var j := SomeBit(And(w, ShiftLeft(1, k)));
      BitOfAnd(w, ShiftLeft(1, k), j);
      ShiftedOneIsSmall(k);
      if j < 64 {
        BitOfShift(1, k, j);
        BitOfOne(j - k);
      } else {
        HighBitsClear(ShiftLeft(1, k), j);
      }
    }
  }

  lemma {:induction false} ShiftedOneIsSmall(k: nat)
    ensures ShiftLeft(1, k) < WORD
  {
  }

  lemma {:induction false} HighBitsClearPower(w: nat, k: nat, j: nat)
    requires w < Power2(k) && j >= k
    ensures !Bit(w, j)
    decreases k
  {
    if k == 0 { BitOfZero(j); } else { HighBitsClearPower(w / 2, k - 1, j - 1); }
  }

  lemma HighBitsClear(w: nat, j: nat)
    requires w < WORD && j >= 64
    ensures !Bit(w, j)
  {
    WordIsPower();
    HighBitsClearPower(w, 64, j);
  }

  /** A nonzero register has a set bit. */
  lemma {:induction false} SomeBit(w: nat) returns (j: nat)
    requires w > 0
    ensures Bit(w, j)
  {
    if w % 2 == 1 {
      j := 0;
    } else {
      var h := SomeBit(w / 2);
      j := h + 1;
    }
  }

  lemma {:induction false} AndIsSmall(v: nat, w: nat)
    ensures And(v, w) <= w
  {
    if v != 0 && w != 0 { AndIsSmall(v / 2, w / 2); }
  }

  lemma {:induction false} OrIsSmall(v: nat, w: nat, k: nat)
    requires v < Power2(k) && w < Power2(k)
    ensures Or(v, w) < Power2(k)
    decreases k
  {
    if k > 0 { OrIsSmall(v / 2, w / 2, k - 1); }
  }
}
