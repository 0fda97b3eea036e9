/** fetch_range in src/fetcher.rs: a byte range of a file is split into one piece per chunk, the
    pieces are fetched independently, and the answers are joined. */
module ReadPath {
  import opened Core

  const MAX_READ_BYTES: nat := 64 * 1024 * 1024

  // `len` bytes at `take` inside the chunk at offset `chunk`, which is chunkLen bytes long.
  datatype Piece = Piece(chunk: nat, take: nat, len: nat, chunkLen: nat)

  function Start(p: Piece): nat {
    p.chunk + p.take
  }

  function End(p: Piece): nat {
    p.chunk + p.take + p.len
  }

  // The chunk a piece lies in, as every part of the system cuts the file.
  ghost predicate InChunk(p: Piece, cs: nat, fileSize: nat) {
    && cs > 0 && p.chunk % cs == 0 && p.chunk < fileSize
    && p.chunkLen == Min(cs, fileSize - p.chunk)
    && p.len > 0 && p.take + p.len <= p.chunkLen
  }

  // The pieces lie end to end from `from` to `to`.
  ghost predicate Tiles(ps: seq<Piece>, from: nat, to: nat) {
    if ps == [] then from == to
    else Start(ps[0]) == from && Tiles(ps[1..], End(ps[0]), to)
  }

  lemma {:induction false} TilesSnoc(ps: seq<Piece>, from: nat, to: nat, p: Piece)
    requires Tiles(ps, from, to) && Start(p) == to
    ensures Tiles(ps + [p], from, End(p))
  {
    if ps != [] {
      assert (ps + [p])[1..] == ps[1..] + [p];
      TilesSnoc(ps[1..], End(ps[0]), to, p);
    } else {
      assert ([] + [p])[1..] == [];
    }
  }

  lemma {:induction false} TilesEnds(ps: seq<Piece>, from: nat, to: nat)
    requires Tiles(ps, from, to)
    ensures from <= to && forall i | 0 <= i < |ps| :: from <= Start(ps[i]) && End(ps[i]) <= to
  {
    if ps != [] {
      TilesEnds(ps[1..], End(ps[0]), to);
      assert forall i | 0 < i < |ps| :: ps[i] == ps[1..][i - 1];
    }
  }

  // x rounded down to a chunk boundary
  lemma Floor(x: nat, cs: nat)
    requires cs > 0
    ensures x / cs * cs <= x < x / cs * cs + cs && x / cs * cs % cs == 0
  {
    assert x == x / cs * cs + x % cs;
    DivUnique(x / cs * cs, x / cs, 0, cs);
  }

  function FloorTo(x: nat, cs: nat): (f: nat)
    requires cs > 0
    ensures f <= x < f + cs && f % cs == 0
  {
    Floor(x, cs);
    x / cs * cs
  }

  lemma NextBoundary(o: nat, cs: nat)
    requires cs > 0 && o % cs == 0
    ensures (o + cs) % cs == 0
  {
    var q := o / cs;
    assert o == q * cs + 0;
    assert (q + 1) * cs == q * cs + cs;
    DivUnique(o + cs, q + 1, 0, cs);
  }

  lemma BoundaryGap(a: nat, b: nat, cs: nat)
    requires cs > 0 && a % cs == 0 && b % cs == 0 && a > b
    ensures a >= b + cs
  {
    var p, q := a / cs, b / cs;
    assert a == p * cs + 0 && b == q * cs + 0;
    if p < q {
      Grow(p, q, cs);
    } else if q < p {
      Grow(q, p, cs);
    }
  }

  // One turn of the loop: what is taken from the chunk at o.
  function PieceAt(cs: nat, offset: nat, end: nat, fileSize: nat, o: nat): (p: Piece)
    requires cs > 0 && offset < end <= fileSize && o < end && offset < o + cs
    ensures Start(p) == Max(offset, o) && End(p) == Min(end, o + cs)
    ensures o % cs == 0 ==> InChunk(p, cs, fileSize)
  {
    var chunkLen := Min(cs, fileSize - o);
    var takeStart := Max(offset, o) - o;
    var takeEnd := Min(end, o + chunkLen) - o;
    Piece(o, takeStart, takeEnd - takeStart, chunkLen)
  }

  // The loop of fetch_range over the chunks of [offset, end).
  method Split(cs: nat, offset: u64, end: u64, fileSize: u64) returns (ps: seq<Piece>)
    requires cs > 0 && offset < end <= fileSize
    ensures Tiles(ps, offset, end)
    ensures forall i | 0 <= i < |ps| :: InChunk(ps[i], cs, fileSize)
  {
    hide FloorTo, PieceAt, InChunk;
    var first := FloorTo(offset, cs);
    var last := FloorTo(end - 1, cs);
    ps := [];
    var o := first;
    while o <= last
      invariant o % cs == 0 && offset < o + cs
      invariant Tiles(ps, offset, Max(offset, Min(o, end)))
      invariant forall i | 0 <= i < |ps| :: InChunk(ps[i], cs, fileSize)
      decreases last + cs - o
    {
      var p := PieceAt(cs, offset, end, fileSize, o);
      TilesSnoc(ps, offset, Max(offset, o), p);
      ps := ps + [p];
      if o + cs >= U64_LIMIT {
        return;
      }
      NextBoundary(o, cs);
      o := o + cs;
    }
    BoundaryGap(o, last, cs);
  }

  // ---- Joining the answers ----

  // The answers are what a file with these contents would give.
  ghost predicate Faithful(blob: Bytes, answer: Piece -> Result<Bytes>, ps: seq<Piece>) {
    forall p | p in ps && answer(p).Ok? :: End(p) <= |blob| && answer(p).value == blob[Start(p)..End(p)]
  }

  method Join(ps: seq<Piece>, answer: Piece -> Result<Bytes>, ghost blob: Bytes, from: nat, to: nat)
    returns (r: Result<Bytes>)
    requires Tiles(ps, from, to) && Faithful(blob, answer, ps)
    ensures r.Ok? <==> forall p | p in ps :: answer(p).Ok?
    ensures r.Ok? && ps != [] ==> from <= to <= |blob| && r.value == blob[from..to]
  {
    var out := [];
    ghost var at: nat := from;
    TilesEnds(ps, from, to);
    for i := 0 to |ps|
      invariant forall p | p in ps[..i] :: answer(p).Ok?
      invariant Tiles(ps[i..], at, to)
      invariant i > 0 ==> from <= at <= |blob| && out == blob[from..at]
      invariant i == 0 ==> at == from && out == []
    {
      assert ps[i..][0] == ps[i] && ps[i..][1..] == ps[i + 1..] && ps[..i + 1] == ps[..i] + [ps[i]];
      if answer(ps[i]).Err? {
        return Err;
      }
      out := out + answer(ps[i]).value;
      at := End(ps[i]);
    }
    assert ps[..|ps|] == ps;
    return Ok(out);
  }

  // Where a read of `length` bytes at `offset` ends: clipped to the file.
  function ReadEnd(offset: u64, length: u64, fileSize: u64): (end: u64)
    ensures offset + length <= fileSize ==> end == offset + length
    ensures offset + length > fileSize ==> end == fileSize
  {
    Min(Min(offset + length, U64_MAX), fileSize)
  }

  // For any file size the caller believes in: a read that succeeds returns exactly the bytes asked
  // for, clipped to that size, and they are all really there; it fails only if it is too long or
  // some chunk does.
  method FetchRange(cs: nat, offset: u64, length: u64, fileSize: u64, answer: Piece -> Result<Bytes>, ghost blob: Bytes)
    returns (r: Result<Bytes>, asked: seq<Piece>)
    requires cs > 0
    requires forall p :: InChunk(p, cs, fileSize) ==> Faithful(blob, answer, [p])
    ensures length > MAX_READ_BYTES ==> r == Err && asked == []
    ensures length <= MAX_READ_BYTES && (length == 0 || offset >= fileSize) ==> r == Ok([]) && asked == []
    ensures r.Ok? && 0 < length && offset < fileSize ==>
      var n := Min(length, fileSize - offset);
      offset + n <= |blob| && r.value == blob[offset..offset + n]
    ensures r == Ok([]) ==> length == 0 || offset >= fileSize
    ensures forall p | p in asked :: InChunk(p, cs, fileSize)
    ensures length <= MAX_READ_BYTES ==> (r.Err? <==> exists p :: p in asked && answer(p).Err?)
  {
    if length == 0 {
      return Ok([]), [];
    }
    if length > MAX_READ_BYTES {
      return Err, [];
    }
    var end := ReadEnd(offset, length, fileSize);
    if end <= offset {
      return Ok([]), [];
    }
    asked := Split(cs, offset, end, fileSize);
    assert Faithful(blob, answer, asked) by {
      forall p | p in asked && answer(p).Ok?
        ensures End(p) <= |blob| && answer(p).value == blob[Start(p)..End(p)]
      {
        assert Faithful(blob, answer, [p]);
        assert p in [p];
      }
    }
    r := Join(asked, answer, blob, offset, end);
  }
}
