/** The Bloom filter a node advertises to its peers (Bloom in src/peerindex.rs): the bit vector as a
    value with its laws, and the mutable object whose methods are proved against them. */
module BloomFilter {
  import opened Core
  import opened Words

  const BLOOM_K: nat := 4

  type Digest = d: Bytes | |d| == 32 witness seq(32, _ => 0)

  // A filter of mBits bits, packed into 64-bit words.
  datatype Filter = Filter(bits: seq<nat>, mBits: nat)

  function WordCount(m: nat): nat {
    (m + 63) / 64
  }

  ghost predicate WellFormed(f: Filter) {
    && 64 <= f.mBits < U64_LIMIT
    && |f.bits| == WordCount(f.mBits)
    && forall i | 0 <= i < |f.bits| :: f.bits[i] < U64_LIMIT
  }

  // The i-th probe of a digest by double hashing, in wrapping 64-bit arithmetic.
  function BitPos(d: Digest, i: nat, m: nat): (p: nat)
    requires m > 0
    ensures p < m
  {
    var h1 := LeValue(d[0..8]);
    var h2 := LeValue(d[8..16]);
    var h := (h1 + Times(i, h2) % U64_LIMIT) % U64_LIMIT;
    h % m
  }

  // The probes in plain arithmetic: the two halves of the first 16 bytes of the digest, the second taken i
  // times, modulo 2 to the power 64, modulo the number of bits.
  ghost function Probe(d: Digest, i: nat, m: nat): (p: nat)
    requires m > 0
    ensures p < m
  {
    (LeValue(d[0..8]) + Times(i, LeValue(d[8..16]))) % 0x1_0000_0000_0000_0000 % m
  }

  lemma ProbeIs(d: Digest, i: nat, m: nat)
    requires m > 0
    ensures BitPos(d, i, m) == Probe(d, i, m)
    ensures BitPos(d, 0, m) == LeValue(d[0..8]) % m
  {
    hide LeValue, Times;
    AddMod(LeValue(d[0..8]), Times(i, LeValue(d[8..16])), U64_LIMIT);
    FirstProbe(d, m);
  }

  lemma FirstProbe(d: Digest, m: nat)
    requires m > 0
    ensures BitPos(d, 0, m) == LeValue(d[0..8]) % m
  {
    hide LeValue, Span, LeBytes;
    SpanValues();
    LeValueInverse(d[0..8]);
    var h1 := LeValue(d[0..8]);
    assert Times(0, LeValue(d[8..16])) == 0;
    assert (h1 + 0) % U64_LIMIT == h1;
  }

  function Times(a: nat, b: nat): nat {
    a * b
  }

  lemma AddMod(a: nat, b: nat, m: nat)
    requires m > 0
    ensures (a + b % m) % m == (a + b) % m
  {
    var x := a + b % m;
    SumOfMultiples(x / m, b / m, m, x % m, b % m, x, b);
    DivUnique(a + b, x / m + b / m, x % m, m);
  }

  lemma SumOfMultiples(p: nat, q: nat, m: nat, r: nat, t: nat, x: nat, b: nat)
    requires x == p * m + r && b == q * m + t
    ensures x + (b - t) == (p + q) * m + r
  {
  }

  predicate Has(f: Filter, pos: nat)
    requires WellFormed(f) && pos < f.mBits
  {
    TestBit(f.bits[pos / 64], pos % 64)
  }

  predicate Contains(f: Filter, d: Digest)
    requires WellFormed(f)
  {
    forall i: nat | i < BLOOM_K :: Has(f, BitPos(d, i, f.mBits))
  }

  function Empty(m: nat): (f: Filter)
    requires m < U64_LIMIT
    ensures WellFormed(f) && f.mBits == if m < 64 then 64 else m
  {
    var m' := Max(m, 64);
    Filter(seq(WordCount(m'), _ => 0), m')
  }

  function WithBit(f: Filter, pos: nat): (f': Filter)
    requires WellFormed(f) && pos < f.mBits
    ensures WellFormed(f') && f'.mBits == f.mBits
    ensures forall q: nat | q < f.mBits :: Has(f', q) <==> q == pos || Has(f, q)
  {
    var w := SetBit(f.bits[pos / 64], pos % 64);
    assert w < U64_LIMIT by {
      Pow2Is64();
      SetBitFits(f.bits[pos / 64], pos % 64, 64);
    }
    var f' := f.(bits := f.bits[pos / 64 := w]);
    assert forall q: nat | q < f.mBits :: Has(f', q) <==> q == pos || Has(f, q) by {
      forall q: nat | q < f.mBits
        ensures Has(f', q) <==> q == pos || Has(f, q)
      {
        SetBitTests(f.bits[pos / 64], pos % 64, q % 64);
      }
    }
    f'
  }

  // The filter after the first n probe bits of the digest are set.
  function InsertedTo(f: Filter, d: Digest, n: nat): (f': Filter)
    requires WellFormed(f)
    ensures WellFormed(f') && f'.mBits == f.mBits
  {
    if n == 0 then f else WithBit(InsertedTo(f, d, n - 1), BitPos(d, n - 1, f.mBits))
  }

  function Inserted(f: Filter, d: Digest): (f': Filter)
    requires WellFormed(f)
    ensures WellFormed(f') && f'.mBits == f.mBits
  {
    InsertedTo(f, d, BLOOM_K)
  }

  // Exactly the probe bits of the digest are added.
  lemma {:induction false} InsertedToBits(f: Filter, d: Digest, n: nat, q: nat)
    requires WellFormed(f) && q < f.mBits
    ensures Has(InsertedTo(f, d, n), q) <==> Has(f, q) || exists i: nat :: i < n && BitPos(d, i, f.mBits) == q
  {
    if n > 0 {
      InsertedToBits(f, d, n - 1, q);
    }
  }

  // A digest has four probes: an insert sets those, a test looks at those.
  lemma FourProbes(f: Filter, d: Digest, q: nat)
    requires WellFormed(f) && q < f.mBits
    ensures
      var m := f.mBits;
      && (Has(Inserted(f, d), q) <==>
            Has(f, q) || q == Probe(d, 0, m) || q == Probe(d, 1, m) || q == Probe(d, 2, m) || q == Probe(d, 3, m))
      && (Contains(f, d) <==>
            Has(f, Probe(d, 0, m)) && Has(f, Probe(d, 1, m)) && Has(f, Probe(d, 2, m)) && Has(f, Probe(d, 3, m)))
  {
    hide BitPos, InsertedTo, Probe, Has;
    InsertedToBits(f, d, BLOOM_K, q);
    ProbeIs(d, 0, f.mBits);
    ProbeIs(d, 1, f.mBits);
    ProbeIs(d, 2, f.mBits);
    ProbeIs(d, 3, f.mBits);
  }

  // No false negatives, and nothing that tested positive is lost.
  lemma InsertContains(f: Filter, d: Digest, e: Digest)
    requires WellFormed(f)
    ensures Contains(Inserted(f, d), d)
    ensures Contains(f, e) ==> Contains(Inserted(f, d), e)
  {
    forall i: nat | i < BLOOM_K
      ensures Has(Inserted(f, d), BitPos(d, i, f.mBits))
      ensures Has(f, BitPos(e, i, f.mBits)) ==> Has(Inserted(f, d), BitPos(e, i, f.mBits))
    {
      InsertedToBits(f, d, BLOOM_K, BitPos(d, i, f.mBits));
      InsertedToBits(f, d, BLOOM_K, BitPos(e, i, f.mBits));
    }
  }

  function InsertedAll(f: Filter, ds: seq<Digest>): (f': Filter)
    requires WellFormed(f)
    ensures WellFormed(f') && f'.mBits == f.mBits
  {
    if ds == [] then f else Inserted(InsertedAll(f, ds[..|ds| - 1]), ds[|ds| - 1])
  }

  lemma {:induction false} InsertedAllContains(f: Filter, ds: seq<Digest>, e: Digest)
    requires WellFormed(f)
    ensures e in ds || Contains(f, e) ==> Contains(InsertedAll(f, ds), e)
  {
    if ds != [] {
      InsertedAllContains(f, ds[..|ds| - 1], e);
      InsertContains(InsertedAll(f, ds[..|ds| - 1]), ds[|ds| - 1], e);
    }
  }

  // A filter built from a list has the bits it started with and the probes of the list, no others.
  lemma {:induction false} InsertedAllBits(f: Filter, ds: seq<Digest>, q: nat)
    requires WellFormed(f) && q < f.mBits
    ensures Has(InsertedAll(f, ds), q) <==>
      Has(f, q) || exists d, i: nat :: d in ds && i < BLOOM_K && BitPos(d, i, f.mBits) == q
  {
    hide BitPos, InsertedTo, Has;
    if ds != [] {
      var init, last := ds[..|ds| - 1], ds[|ds| - 1];
      InsertedAllBits(f, init, q);
      InsertedToBits(InsertedAll(f, init), last, BLOOM_K, q);
      assert ds == init + [last];
      assert forall d :: d in ds <==> d in init || d == last;
    }
  }

  lemma EmptyHasNoBits(m: nat, q: nat)
    requires m < U64_LIMIT && q < Empty(m).mBits
    ensures !Has(Empty(m), q)
  {
    ZeroHasNoBits(q % 64);
  }

  lemma EmptyContainsNothing(m: nat, d: Digest)
    requires m < U64_LIMIT
    ensures !Contains(Empty(m), d)
  {
    var f := Empty(m);
    var p := BitPos(d, 0, f.mBits);
    ZeroHasNoBits(p % 64);
    assert !Has(f, p);
  }

  // ---- Publication: the bytes served on /cluster/bloom ----

  function WordsToBytes(ws: seq<nat>): (b: Bytes)
    ensures |b| == 8 * |ws|
  {
    if ws == [] then [] else WordsToBytes(ws[..|ws| - 1]) + LeBytes(ws[|ws| - 1], 8)
  }

  function BytesToWords(b: Bytes): (ws: seq<nat>)
    requires |b| % 8 == 0
    ensures 8 * |ws| == |b|
  {
    if b == [] then [] else BytesToWords(b[..|b| - 8]) + [LeValue(b[|b| - 8..])]
  }

  function Serialise(f: Filter): Bytes
    requires WellFormed(f)
  {
    LeBytes(f.mBits, 8) + WordsToBytes(f.bits)
  }

  function Parse(b: Bytes): Option<Filter> {
    if |b| < 8 then None
    else
      var m := LeValue(b[..8]);
      if m < 64 || |b| - 8 != 8 * WordCount(m) then None
      else Some(Filter(BytesToWords(b[8..]), m))
  }

  lemma {:induction false} WordsRoundTrip(ws: seq<nat>)
    requires forall i | 0 <= i < |ws| :: ws[i] < U64_LIMIT
    ensures BytesToWords(WordsToBytes(ws)) == ws
  {
    hide LeBytes, LeValue, Span;
    if ws != [] {
      var init, last := ws[..|ws| - 1], ws[|ws| - 1];
      WordsRoundTrip(init);
      SpanValues();
      LeRoundTrip(last, 8);
      LastWord(WordsToBytes(init), LeBytes(last, 8));
      assert ws == init + [last];
    }
  }

  lemma LastWord(b: Bytes, w: Bytes)
    requires |b| % 8 == 0 && |w| == 8
    ensures BytesToWords(b + w) == BytesToWords(b) + [LeValue(w)]
  {
    hide LeValue;
    var x := b + w;
    assert x[..|x| - 8] == b && x[|x| - 8..] == w;
  }

  lemma {:induction false} BytesToWordsInverse(b: Bytes)
    requires |b| % 8 == 0
    ensures forall i | 0 <= i < |BytesToWords(b)| :: BytesToWords(b)[i] < U64_LIMIT
    ensures WordsToBytes(BytesToWords(b)) == b
  {
    if b != [] {
      var init, last := b[..|b| - 8], b[|b| - 8..];
      BytesToWordsInverse(init);
      SpanValues();
      LeValueInverse(last);
      assert BytesToWords(b)[..|b| / 8 - 1] == BytesToWords(init);
      assert b == init + last;
    }
  }

  // A peer that parses published bytes holds exactly the published filter.
  lemma ParseSerialise(f: Filter)
    requires WellFormed(f)
    ensures Parse(Serialise(f)) == Some(f)
  {
    var b := Serialise(f);
    assert b[..8] == LeBytes(f.mBits, 8) && b[8..] == WordsToBytes(f.bits);
    SpanValues();
    LeRoundTrip(f.mBits, 8);
    WordsRoundTrip(f.bits);
  }

  // Whatever is accepted is a well-formed filter, and is the serialisation of that filter alone.
  lemma SerialiseParse(b: Bytes)
    requires Parse(b).Some?
    ensures WellFormed(Parse(b).value)
    ensures Serialise(Parse(b).value) == b
  {
    hide BytesToWords, WordsToBytes, LeBytes, LeValue, Span;
    SpanValues();
    LeValueInverse(b[..8]);
    BytesToWordsInverse(b[8..]);
    assert b == b[..8] + b[8..];
  }

  // Where the published bytes hold what: the number of bits, then the words in order, all little-endian.
  lemma SerialiseLayout(f: Filter, i: nat)
    requires WellFormed(f) && i < |f.bits|
    ensures
      var b := Serialise(f);
      && |b| == 8 + 8 * |f.bits| && LeValue(b[0..8]) == f.mBits
      && LeValue(b[8 + 8 * i..16 + 8 * i]) == f.bits[i]
  {
    SpanValues();
    var b := Serialise(f);
    assert b[0..8] == LeBytes(f.mBits, 8);
    LeRoundTrip(f.mBits, 8);
    LeRoundTrip(f.bits[i], 8);
    WordAt(f.bits, i);
    hide LeBytes, LeValue, WordsToBytes;
    assert b[8 + 8 * i..16 + 8 * i] == WordsToBytes(f.bits)[8 * i..8 * i + 8];
  }

  lemma {:induction false} WordAt(ws: seq<nat>, i: nat)
    requires i < |ws|
    ensures WordsToBytes(ws)[8 * i..8 * i + 8] == LeBytes(ws[i], 8)
  {
    hide LeBytes;
    if i < |ws| - 1 {
      WordAt(ws[..|ws| - 1], i);
    }
  }

  /** Bloom: the object whose words insert() updates in place. */
  class Bloom {
    var bits: seq<nat>
    const mBits: nat

    function Value(): Filter
      reads this
    {
      Filter(bits, mBits)
    }

    constructor (m: nat)
      requires m < U64_LIMIT
      ensures Value() == Empty(m)
    {
      mBits := Max(m, 64);
      bits := seq(WordCount(Max(m, 64)), _ => 0);
    }

    constructor FromParts(f: Filter)
      ensures Value() == f
    {
      bits := f.bits;
      mBits := f.mBits;
    }

    static method FromBytes(b: Bytes) returns (r: Option<Bloom>)
      ensures r.Some? <==> |b| >= 8 && LeValue(b[..8]) >= 64 && |b| == 8 + (LeValue(b[..8]) + 63) / 64 * 8
      ensures r.Some? ==> Parse(b).Some?
      ensures r.Some? ==> fresh(r.value) && r.value.Value() == Parse(b).value && WellFormed(r.value.Value())
    {
      hide LeValue, Serialise, WellFormed;
      if |b| < 8 {
        return None;
      }
      var m := LeValue(b[..8]);
      if m < 64 {
        return None;
      }
      var payload := b[8..];
      if |payload| != WordCount(m) * 8 {
        return None;
      }
      var words, i := [], 0;
      while i < |payload|
        invariant 0 <= i <= |payload| && i % 8 == 0
        invariant words == BytesToWords(payload[..i])
      {
        assert payload[..i + 8][..i] == payload[..i] && payload[..i + 8][i..] == payload[i..i + 8];
        words := words + [LeValue(payload[i..i + 8])];
        i := i + 8;
      }
      assert payload[..i] == payload;
      SerialiseParse(b);
      var bloom := new Bloom.FromParts(Filter(words, m));
      r := Some(bloom);
    }

    method ToBytes() returns (out: Bytes)
      requires WellFormed(Value())
      ensures out == Serialise(Value())
    {
      out := LeBytes(mBits, 8);
      for i := 0 to |bits|
        invariant out == LeBytes(mBits, 8) + WordsToBytes(bits[..i])
      {
        assert bits[..i + 1][..i] == bits[..i];
        out := out + LeBytes(bits[i], 8);
      }
      assert bits[..|bits|] == bits;
    }

    method Insert(d: Digest)
      requires WellFormed(Value())
      modifies this
      ensures Value() == Inserted(old(Value()), d)
    {
      ghost var before := Value();
      for i := 0 to BLOOM_K
        invariant Value() == InsertedTo(before, d, i)
      {
        var pos := BitPos(d, i, mBits);
        ghost var f := Value();
        bits := bits[pos / 64 := SetBit(bits[pos / 64], pos % 64)];
        assert Value() == WithBit(f, pos) == InsertedTo(before, d, i + 1);
      }
    }

    method Test(d: Digest) returns (r: bool)
      requires WellFormed(Value())
      ensures r == Contains(Value(), d)
    {
      for i := 0 to BLOOM_K
        invariant forall j: nat | j < i :: Has(Value(), BitPos(d, j, mBits))
      {
        var pos := BitPos(d, i, mBits);
        if !TestBit(bits[pos / 64], pos % 64) {
          assert !Has(Value(), BitPos(d, i, mBits));
          return false;
        }
      }
      return true;
    }
  }
}
