/** Fixed-width integers as bytes (to_le_bytes, from_le_bytes, to_be_bytes, from_be_bytes)
    and single bits of a machine word. */
module Words {
  import opened Core

  // 256 to the power w: one more than the largest value of w bytes.
  function Span(w: nat): (s: nat)
    ensures s >= 1
  {
    if w == 0 then 1 else 256 * Span(w - 1)
  }

  lemma SpanValues()
    ensures Span(1) == 256 && Span(2) == U16_LIMIT && Span(4) == U32_LIMIT && Span(8) == U64_LIMIT
  {
    assert Span(4) == 256 * (256 * Span(2));
    assert Span(8) == 256 * (256 * (256 * (256 * Span(4))));
  }

  function LeBytes(n: nat, w: nat): (b: Bytes)
    ensures |b| == w
  {
    if w == 0 then [] else [n % 256] + LeBytes(n / 256, w - 1)
  }

  function LeValue(b: Bytes): nat {
    if b == [] then 0 else b[0] + 256 * LeValue(b[1..])
  }

  function BeBytes(n: nat, w: nat): (b: Bytes)
    ensures |b| == w
  {
    if w == 0 then [] else BeBytes(n / 256, w - 1) + [n % 256]
  }

  function BeValue(b: Bytes): nat {
    if b == [] then 0 else 256 * BeValue(b[..|b| - 1]) + b[|b| - 1]
  }

  // Little-endian: the first byte counts least. With LeValue([x]) == x this fixes every value.
  lemma {:induction false} LeSplit(a: Bytes, b: Bytes)
    ensures LeValue(a + b) == LeValue(a) + Span(|a|) * LeValue(b)
    ensures |a| == 1 ==> LeValue(a) == a[0]
  {
    if a == [] {
      assert a + b == b;
    } else {
      LeSplit(a[1..], b);
      assert (a + b)[1..] == a[1..] + b;
      Distribute(LeValue(a[1..]), Span(|a| - 1), LeValue(b));
    }
  }

  // Big-endian: the last byte counts least.
  lemma {:induction false} BeSplit(a: Bytes, b: Bytes)
    ensures BeValue(a + b) == Span(|b|) * BeValue(a) + BeValue(b)
    ensures |b| == 1 ==> BeValue(b) == b[0]
  {
    if b == [] {
      assert a + b == a;
    } else {
      var init := b[..|b| - 1];
      BeSplit(a, init);
      assert (a + b)[..|a + b| - 1] == a + init;
      Distribute(BeValue(init), Span(|init|), BeValue(a));
    }
  }

  lemma Distribute(x: nat, y: nat, z: nat)
    ensures 256 * (x + y * z) == 256 * x + 256 * y * z
  {
  }

  lemma {:induction false} LeRoundTrip(n: nat, w: nat)
    requires n < Span(w)
    ensures LeValue(LeBytes(n, w)) == n
  {
    if w > 0 {
      LeRoundTrip(n / 256, w - 1);
      assert LeBytes(n, w)[1..] == LeBytes(n / 256, w - 1);
    }
  }

  lemma {:induction false} LeValueInverse(b: Bytes)
    ensures LeValue(b) < Span(|b|)
    ensures LeBytes(LeValue(b), |b|) == b
  {
    if b != [] {
      LeValueInverse(b[1..]);
      assert LeValue(b) / 256 == LeValue(b[1..]);
    }
  }

  lemma {:induction false} BeRoundTrip(n: nat, w: nat)
    requires n < Span(w)
    ensures BeValue(BeBytes(n, w)) == n
  {
    if w > 0 {
      BeRoundTrip(n / 256, w - 1);
      assert BeBytes(n, w)[..w - 1] == BeBytes(n / 256, w - 1);
    }
  }

  lemma {:induction false} BeValueInverse(b: Bytes)
    ensures BeValue(b) < Span(|b|)
    ensures BeBytes(BeValue(b), |b|) == b
  {
    if b != [] {
      BeValueInverse(b[..|b| - 1]);
      assert BeValue(b) / 256 == BeValue(b[..|b| - 1]);
    }
  }

  // w & (1 << i) != 0
  predicate TestBit(w: nat, i: nat) {
    if i == 0 then w % 2 == 1 else TestBit(w / 2, i - 1)
  }

  // w | (1 << i)
  function SetBit(w: nat, i: nat): nat {
    if i == 0 then 2 * (w / 2) + 1 else 2 * SetBit(w / 2, i - 1) + w % 2
  }

  function Pow2(n: nat): (p: nat)
    ensures p >= 1
  {
    if n == 0 then 1 else 2 * Pow2(n - 1)
  }

  lemma Pow2Is64()
    ensures Pow2(64) == U64_LIMIT
  {
    assert Pow2(16) == 0x1_0000 by {
      assert Pow2(4) == 16;
      assert Pow2(8) == 16 * Pow2(4);
      assert Pow2(12) == 16 * Pow2(8);
      assert Pow2(16) == 16 * Pow2(12);
    }
    assert Pow2(20) == 16 * Pow2(16) && Pow2(24) == 16 * Pow2(20) && Pow2(28) == 16 * Pow2(24);
    assert Pow2(32) == 16 * Pow2(28) && Pow2(36) == 16 * Pow2(32) && Pow2(40) == 16 * Pow2(36);
    assert Pow2(44) == 16 * Pow2(40) && Pow2(48) == 16 * Pow2(44) && Pow2(52) == 16 * Pow2(48);
    assert Pow2(56) == 16 * Pow2(52) && Pow2(60) == 16 * Pow2(56) && Pow2(64) == 16 * Pow2(60);
  }

  // Bit i is the digit of 2 to the power i.
  lemma {:induction false} TestBitIs(w: nat, i: nat)
    ensures TestBit(w, i) <==> w / Pow2(i) % 2 == 1
  {
    if i > 0 {
      TestBitIs(w / 2, i - 1);
      DivTwice(w, Pow2(i - 1));
    }
  }

  lemma DivTwice(w: nat, p: nat)
    requires p > 0
    ensures w / 2 / p == w / (2 * p)
  {
    var q, r := w / 2 / p, w / 2 % p;
    assert w / 2 == q * p + r;
    assert q * (2 * p) == 2 * (q * p);
    DivUnique(w, q, 2 * r + w % 2, 2 * p);
  }

  // Setting a bit sets that bit and no other.
  lemma {:induction false} SetBitTests(w: nat, i: nat, j: nat)
    ensures TestBit(SetBit(w, i), j) <==> i == j || TestBit(w, j)
  {
    if i > 0 && j > 0 {
      SetBitTests(w / 2, i - 1, j - 1);
    }
  }

  lemma {:induction false} SetBitFits(w: nat, i: nat, n: nat)
    requires w < Pow2(n) && i < n
    ensures SetBit(w, i) < Pow2(n)
  {
    var half := Pow2(n - 1);
    assert Pow2(n) == 2 * half && w / 2 < half;
    if i > 0 {
      SetBitFits(w / 2, i - 1, n - 1);
      assert SetBit(w, i) == 2 * SetBit(w / 2, i - 1) + w % 2;
    }
  }

  lemma {:induction false} ZeroHasNoBits(i: nat)
    ensures !TestBit(0, i)
  {
    if i > 0 {
      ZeroHasNoBits(i - 1);
    }
  }
}
