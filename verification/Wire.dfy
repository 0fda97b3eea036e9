/** The peer wire protocol (src/transport_ucx.rs): length-prefixed requests with two optional
    trailing fields, and responses. Strings are their UTF-8 bytes. */
module Wire {
  import opened Core
  import opened Words

  const MAGIC: nat := 0xBC10_C001
  const STATUS_OK: nat := 0
  const STATUS_MISS: nat := 1
  const MAX_RESPONSE_BYTES: nat := 64 * 1024 * 1024
  const MAX_RID: nat := 128

  datatype Request = Request(
    mount: Bytes,
    blob: Bytes,
    offset: u64,
    length: u32,
    requester: Bytes,
    waitMs: u32,
    rid: Bytes)

  predicate Continuation(b: byte) {
    0x80 <= b <= 0xBF
  }

  // Well-formed UTF-8 (section 4 of RFC 3629).
  predicate Utf8(s: Bytes) {
    if s == [] then true
    else
      var b := s[0];
      if b <= 0x7F then Utf8(s[1..])
      else if |s| >= 2 && 0xC2 <= b <= 0xDF then Continuation(s[1]) && Utf8(s[2..])
      else if |s| >= 3 && 0xE0 <= b <= 0xEF then
        && Continuation(s[1]) && (b == 0xE0 ==> s[1] >= 0xA0) && (b == 0xED ==> s[1] <= 0x9F)
        && Continuation(s[2]) && Utf8(s[3..])
      else if |s| >= 4 && 0xF0 <= b <= 0xF4 then
        && Continuation(s[1]) && (b == 0xF0 ==> s[1] >= 0x90) && (b == 0xF4 ==> s[1] <= 0x8F)
        && Continuation(s[2]) && Continuation(s[3]) && Utf8(s[4..])
      else false
  }

  // ASCII letters, digits and the dash.
  predicate RidByte(b: byte) {
    0x30 <= b <= 0x39 || 0x41 <= b <= 0x5A || 0x61 <= b <= 0x7A || b == 0x2D
  }

  predicate RidChars(rid: Bytes) {
    forall i | 0 <= i < |rid| :: RidByte(rid[i])
  }

  lemma RidCharsIff(rid: Bytes)
    ensures RidChars(rid) <==> forall b | b in rid ::
      || '0' as int <= b <= '9' as int || 'A' as int <= b <= 'Z' as int || 'a' as int <= b <= 'z' as int
      || b == '-' as int
  {
    assert forall i | 0 <= i < |rid| :: rid[i] in rid;
  }

  lemma {:induction false} RidIsUtf8(rid: Bytes)
    requires RidChars(rid)
    ensures Utf8(rid)
  {
    if rid != [] {
      RidIsUtf8(rid[1..]);
    }
  }

  // ---- The format ----

  ghost predicate Limits(x: Request) {
    |x.mount| < 256 && |x.blob| < U16_LIMIT && |x.requester| < U16_LIMIT && |x.rid| <= MAX_RID
  }

  ghost predicate Strings(x: Request) {
    Utf8(x.mount) && Utf8(x.blob) && Utf8(x.requester)
  }

  // A frame: the mandatory fields, then a tail; FromX is the frame from field X on.
  function FromRequester(x: Request, tail: Bytes): Bytes {
    BeBytes(|x.requester|, 2) + (x.requester + tail)
  }

  function FromOffset(x: Request, tail: Bytes): Bytes {
    BeBytes(x.offset, 8) + (BeBytes(x.length, 4) + FromRequester(x, tail))
  }

  function FromBlob(x: Request, tail: Bytes): Bytes {
    BeBytes(|x.blob|, 2) + (x.blob + FromOffset(x, tail))
  }

  function FromMount(x: Request, tail: Bytes): Bytes
    requires |x.mount| < 256
  {
    [|x.mount|] + (x.mount + FromBlob(x, tail))
  }

  function Frame(x: Request, tail: Bytes): Bytes
    requires |x.mount| < 256
  {
    BeBytes(MAGIC, 4) + FromMount(x, tail)
  }

  function MandatoryLen(x: Request): nat {
    21 + |x.mount| + |x.blob| + |x.requester|
  }

  function FullTail(wait: nat, rid: Bytes): Bytes {
    BeBytes(wait, 4) + BeBytes(|rid|, 2) + rid
  }

  // Everything that may follow the mandatory fields, and what it means.
  ghost predicate IsTail(t: Bytes, wait: nat, rid: Bytes) {
    && wait < U32_LIMIT && RidChars(rid) && |rid| <= MAX_RID
    && (|| t == FullTail(wait, rid)
        || (t == BeBytes(wait, 4) && rid == [])
        || (t == [] && wait == 0 && rid == [])
        || (t == [0, 0] && wait == 0 && rid == [])
        || (t == [0, 1] + rid && wait == 0 && |rid| == 1))
  }

  ghost predicate IsFrame(data: Bytes, x: Request) {
    && Limits(x) && Strings(x)
    && exists t :: IsTail(t, x.waitMs, x.rid) && data == Frame(x, t)
  }

  // Where the fields of a frame lie.
  ghost predicate MountAt(d: Bytes, x: Request) {
    5 + |x.mount| <= |d| && d[0..4] == BeBytes(MAGIC, 4) && d[4] == |x.mount| && d[5..5 + |x.mount|] == x.mount
  }

  ghost predicate BlobAt(d: Bytes, b: nat, x: Request) {
    && b + 2 + |x.blob| <= |d| && d[b..b + 2] == BeBytes(|x.blob|, 2) && d[b + 2..b + 2 + |x.blob|] == x.blob
  }

  ghost predicate OffsetAt(d: Bytes, o: nat, x: Request) {
    o + 12 <= |d| && d[o..o + 8] == BeBytes(x.offset, 8) && d[o + 8..o + 12] == BeBytes(x.length, 4)
  }

  ghost predicate RequesterAt(d: Bytes, p: nat, x: Request, t: Bytes) {
    && p + 2 + |x.requester| <= |d| && d[p..p + 2] == BeBytes(|x.requester|, 2)
    && d[p + 2..p + 2 + |x.requester|] == x.requester && d[p + 2 + |x.requester|..] == t
  }

  ghost predicate Layout(d: Bytes, x: Request, t: Bytes) {
    var b := 5 + |x.mount|;
    var o := b + 2 + |x.blob|;
    MountAt(d, x) && BlobAt(d, b, x) && OffsetAt(d, o, x) && RequesterAt(d, o + 12, x, t)
  }

  // A two-part prefix of what follows position i.
  lemma Prefix(data: Bytes, i: nat, a: Bytes, b: Bytes, rest: Bytes)
    requires i <= |data| && data[i..] == a + (b + rest)
    ensures
      var j := i + |a|; var k := j + |b|;
      k <= |data| && data[i..j] == a && data[j..k] == b && data[k..] == rest
  {
    var d, j, k := data[i..], i + |a|, i + |a| + |b|;
    assert |d| == |a| + |b| + |rest|;
    assert d[..|a|] == a && d[|a|..|a| + |b|] == b && d[|a| + |b|..] == rest;
    assert data[i..j] == d[..|a|] && data[j..k] == d[|a|..|a| + |b|] && data[k..] == d[|a| + |b|..];
  }

  lemma Suffix(data: Bytes, i: nat, j: nat, k: nat)
    requires i <= j <= k <= |data|
    ensures data[i..] == data[i..j] + (data[j..k] + data[k..])
  {
  }

  lemma MountPart(d: Bytes, x: Request, t: Bytes)
    requires |x.mount| < 256 && d == Frame(x, t)
    ensures MountAt(d, x) && 5 + |x.mount| <= |d| && d[5 + |x.mount|..] == FromBlob(x, t)
  {
    hide BeBytes, FromBlob;
    assert d[0..] == d;
    Prefix(d, 0, BeBytes(MAGIC, 4), [|x.mount|], x.mount + FromBlob(x, t));
    assert d[4] == d[4..5][0];
    assert x.mount + FromBlob(x, t) == x.mount + (FromBlob(x, t) + []);
    Prefix(d, 5, x.mount, FromBlob(x, t), []);
    assert d[5 + |x.mount|..] == d[5 + |x.mount|..|d|];
  }

  lemma BlobPart(d: Bytes, b: nat, x: Request, t: Bytes)
    requires b <= |d| && d[b..] == FromBlob(x, t)
    ensures BlobAt(d, b, x) && b + 2 + |x.blob| <= |d| && d[b + 2 + |x.blob|..] == FromOffset(x, t)
  {
    hide BeBytes, FromOffset;
    Prefix(d, b, BeBytes(|x.blob|, 2), x.blob, FromOffset(x, t));
  }

  lemma OffsetPart(d: Bytes, o: nat, x: Request, t: Bytes)
    requires o <= |d| && d[o..] == FromOffset(x, t)
    ensures OffsetAt(d, o, x) && o + 12 <= |d| && d[o + 12..] == FromRequester(x, t)
  {
    hide BeBytes, FromRequester;
    Prefix(d, o, BeBytes(x.offset, 8), BeBytes(x.length, 4), FromRequester(x, t));
  }

  lemma RequesterPart(d: Bytes, p: nat, x: Request, t: Bytes)
    requires p <= |d| && d[p..] == FromRequester(x, t)
    ensures RequesterAt(d, p, x, t)
  {
    hide BeBytes;
    Prefix(d, p, BeBytes(|x.requester|, 2), x.requester, t);
  }

  lemma FrameLayout(x: Request, t: Bytes)
    requires |x.mount| < 256
    ensures Layout(Frame(x, t), x, t)
  {
    hide BeBytes, Frame, FromMount, FromBlob, FromOffset, FromRequester, MountAt, BlobAt, OffsetAt, RequesterAt;
    var d := Frame(x, t);
    var b := 5 + |x.mount|;
    MountPart(d, x, t);
    BlobPart(d, b, x, t);
    OffsetPart(d, b + 2 + |x.blob|, x, t);
    RequesterPart(d, b + 2 + |x.blob| + 12, x, t);
  }

  // The numbers of a request survive their encoding.
  lemma FieldValues(x: Request)
    requires Limits(x)
    ensures BeValue(BeBytes(MAGIC, 4)) == MAGIC
    ensures BeValue(BeBytes(|x.blob|, 2)) == |x.blob|
    ensures BeValue(BeBytes(|x.requester|, 2)) == |x.requester|
    ensures BeValue(BeBytes(x.offset, 8)) == x.offset
    ensures BeValue(BeBytes(x.length, 4)) == x.length
  {
    SpanValues();
    BeRoundTrip(MAGIC, 4);
    BeRoundTrip(|x.blob|, 2);
    BeRoundTrip(|x.requester|, 2);
    BeRoundTrip(x.offset, 8);
    BeRoundTrip(x.length, 4);
  }

  lemma LayoutFrame(d: Bytes, x: Request, t: Bytes)
    requires |x.mount| < 256 && Layout(d, x, t)
    ensures d == Frame(x, t)
  {
    hide BeBytes, MountAt, BlobAt, OffsetAt, RequesterAt;
    var b := 5 + |x.mount|;
    var o := b + 2 + |x.blob|;
    LayoutRequester(d, o + 12, x, t);
    LayoutOffset(d, o, x, t);
    LayoutBlob(d, b, x, t);
    LayoutMount(d, x, t);
  }

  lemma LayoutRequester(d: Bytes, p: nat, x: Request, t: Bytes)
    requires RequesterAt(d, p, x, t)
    ensures p <= |d| && d[p..] == FromRequester(x, t)
  {
    hide BeBytes;
    Suffix(d, p, p + 2, p + 2 + |x.requester|);
  }

  lemma LayoutOffset(d: Bytes, o: nat, x: Request, t: Bytes)
    requires OffsetAt(d, o, x) && d[o + 12..] == FromRequester(x, t)
    ensures o <= |d| && d[o..] == FromOffset(x, t)
  {
    hide BeBytes, FromRequester;
    Suffix(d, o, o + 8, o + 12);
  }

  lemma LayoutBlob(d: Bytes, b: nat, x: Request, t: Bytes)
    requires BlobAt(d, b, x) && b + 2 + |x.blob| <= |d| && d[b + 2 + |x.blob|..] == FromOffset(x, t)
    ensures b <= |d| && d[b..] == FromBlob(x, t)
  {
    hide BeBytes, FromOffset;
    Suffix(d, b, b + 2, b + 2 + |x.blob|);
  }

  lemma LayoutMount(d: Bytes, x: Request, t: Bytes)
    requires |x.mount| < 256 && MountAt(d, x) && 5 + |x.mount| <= |d| && d[5 + |x.mount|..] == FromBlob(x, t)
    ensures d == Frame(x, t)
  {
    hide BeBytes, FromBlob;
    Suffix(d, 4, 5, 5 + |x.mount|);
    assert d == d[0..4] + d[4..];
  }

  // ---- Tails ----

  lemma TwoBytes(n: nat)
    ensures n < 256 ==> BeBytes(n, 2) == [0, n]
  {
    if n < 256 {
      assert BeBytes(n / 256, 1) == BeBytes(0, 0) + [0];
    }
  }

  // The same set of tails, read off the length.
  ghost predicate TailByLength(t: Bytes, wait: nat, rid: Bytes) {
    && RidChars(rid) && |rid| <= MAX_RID
    && if |t| == 0 then wait == 0 && rid == []
       else if |t| == 2 || |t| == 3 then wait == 0 && BeValue(t[..2]) == |t| - 2 && rid == t[2..]
       else if |t| == 4 then wait == BeValue(t) && rid == []
       else |t| >= 6 && wait == BeValue(t[..4]) && BeValue(t[4..6]) == |t| - 6 && rid == t[6..]
  }

  lemma TailToLength(t: Bytes, wait: nat, rid: Bytes)
    requires IsTail(t, wait, rid)
    ensures TailByLength(t, wait, rid)
  {
    SpanValues();
    BeRoundTrip(wait, 4);
    BeRoundTrip(|rid|, 2);
    BeRoundTrip(0, 2);
    BeRoundTrip(1, 2);
    TwoBytes(0);
    TwoBytes(1);
    hide BeBytes, BeValue;
    if t == FullTail(wait, rid) {
      assert t[..4] == BeBytes(wait, 4) && t[4..6] == BeBytes(|rid|, 2) && t[6..] == rid;
    } else if |t| == 2 {
      assert t[..2] == [0, 0] && t[2..] == [];
    } else if |t| == 3 {
      assert t[..2] == [0, 1] && t[2..] == rid;
    }
  }

  lemma LengthToTail(t: Bytes, wait: nat, rid: Bytes)
    requires TailByLength(t, wait, rid)
    ensures IsTail(t, wait, rid)
  {
    SpanValues();
    TwoBytes(0);
    TwoBytes(1);
    if |t| == 2 || |t| == 3 {
      BeValueInverse(t[..2]);
      assert t == t[..2] + t[2..];
    } else if |t| == 4 {
      BeValueInverse(t);
    } else if |t| >= 6 {
      BeValueInverse(t[..4]);
      BeValueInverse(t[4..6]);
      assert t == t[..4] + t[4..6] + t[6..];
    }
  }

  lemma TailIff(t: Bytes, wait: nat, rid: Bytes)
    ensures IsTail(t, wait, rid) <==> TailByLength(t, wait, rid)
  {
    if IsTail(t, wait, rid) {
      TailToLength(t, wait, rid);
    }
    if TailByLength(t, wait, rid) {
      LengthToTail(t, wait, rid);
    }
  }

  // Where every field of an encoded request lies, byte by byte: magic, mount, blob, offset, length,
  // requester, wait_ms and request id, the numbers big-endian.
  lemma FramePositions(x: Request)
    requires Limits(x)
    ensures
      var d := Frame(x, FullTail(x.waitMs, x.rid));
      var b := 5 + |x.mount|;
      var o := b + 2 + |x.blob|;
      var p := o + 14;
      var t := p + |x.requester|;
      && |d| == t + 6 + |x.rid|
      && BeValue(d[0..4]) == 0xBC10_C001 && d[4] == |x.mount| && d[5..b] == x.mount
      && BeValue(d[b..b + 2]) == |x.blob| && d[b + 2..o] == x.blob
      && BeValue(d[o..o + 8]) == x.offset && BeValue(d[o + 8..o + 12]) == x.length
      && BeValue(d[o + 12..p]) == |x.requester| && d[p..t] == x.requester
      && BeValue(d[t..t + 4]) == x.waitMs && BeValue(d[t + 4..t + 6]) == |x.rid| && d[t + 6..] == x.rid
  {
    hide BeValue, BeBytes, Frame, FullTail, Span;
    SpanValues();
    BeRoundTrip(MAGIC, 4);
    BeRoundTrip(|x.blob|, 2);
    BeRoundTrip(x.offset, 8);
    BeRoundTrip(x.length, 4);
    BeRoundTrip(|x.requester|, 2);
    var tail := FullTail(x.waitMs, x.rid);
    FrameLayout(x, tail);
    FullTailParts(x.waitMs, x.rid);
    var d := Frame(x, tail);
    var t := 21 + |x.mount| + |x.blob| + |x.requester|;
    assert d[t..] == tail;
    SubSlices(d, t, tail);
  }

  lemma SubSlices(d: Bytes, t: nat, tail: Bytes)
    requires t <= |d| && d[t..] == tail && |tail| >= 6
    ensures |d| == t + |tail| && d[t..t + 4] == tail[..4] && d[t + 4..t + 6] == tail[4..6] && d[t + 6..] == tail[6..]
  {
  }

  // ---- Encoding and decoding ----

  method EncodeRequest(x: Request) returns (r: Result<Bytes>)
    ensures r.Ok? <==> |x.mount| <= 255 && |x.blob| <= 65535 && |x.requester| <= 65535 && |x.rid| <= 128
    ensures r.Ok? ==> Limits(x) && r.value == Frame(x, FullTail(x.waitMs, x.rid))
  {
    if |x.mount| > 255 {
      return Err;
    }
    if |x.blob| > 65535 {
      return Err;
    }
    if |x.requester| > 65535 {
      return Err;
    }
    if |x.rid| > MAX_RID {
      return Err;
    }
    hide BeBytes, Frame, FullTail;
    ghost var t := FullTail(x.waitMs, x.rid);
    var req := BeBytes(MAGIC, 4);
    FrameParts(x, t);
    req := req + [|x.mount|] + x.mount;
    Appended(BeBytes(MAGIC, 4), [|x.mount|], x.mount, FromBlob(x, t));
    ghost var done := req;
    req := req + BeBytes(|x.blob|, 2) + x.blob;
    Appended(done, BeBytes(|x.blob|, 2), x.blob, FromOffset(x, t));
    done := req;
    req := req + BeBytes(x.offset, 8) + BeBytes(x.length, 4);
    Appended(done, BeBytes(x.offset, 8), BeBytes(x.length, 4), FromRequester(x, t));
    done := req;
    req := req + BeBytes(|x.requester|, 2) + x.requester;
    Appended(done, BeBytes(|x.requester|, 2), x.requester, t);
    done := req;
    req := req + BeBytes(x.waitMs, 4) + BeBytes(|x.rid|, 2) + x.rid;
    AppendedTail(done, x.waitMs, x.rid);
    return Ok(req);
  }

  lemma FrameParts(x: Request, t: Bytes)
    requires |x.mount| < 256
    ensures Frame(x, t) == BeBytes(MAGIC, 4) + ([|x.mount|] + (x.mount + FromBlob(x, t)))
  {
  }

  lemma Appended(done: Bytes, a: Bytes, b: Bytes, rest: Bytes)
    ensures done + a + b + rest == done + (a + (b + rest))
  {
  }

  lemma AppendedTail(done: Bytes, wait: nat, rid: Bytes)
    ensures done + BeBytes(wait, 4) + BeBytes(|rid|, 2) + rid == done + FullTail(wait, rid)
  {
    hide BeBytes;
  }

  method ReadSlice(data: Bytes, idx: nat, len: nat) returns (r: Result<Bytes>, next: nat)
    requires idx <= |data|
    ensures r.Ok? <==> idx + len <= |data|
    ensures r.Ok? ==> r.value == data[idx..idx + len] && next == idx + len
  {
    if |data| - idx < len {
      return Err, idx;
    }
    return Ok(data[idx..idx + len]), idx + len;
  }

  method ReadUtf8(data: Bytes, idx: nat, len: nat) returns (r: Result<Bytes>, next: nat)
    requires idx <= |data|
    ensures r.Ok? <==> idx + len <= |data| && Utf8(data[idx..idx + len])
    ensures r.Ok? ==> r.value == data[idx..idx + len] && next == idx + len
  {
    r, next := ReadSlice(data, idx, len);
    if r.Ok? && !Utf8(r.value) {
      r := Err;
    }
  }

  method ReadBe(data: Bytes, idx: nat, width: nat) returns (r: Result<nat>, next: nat)
    requires idx <= |data|
    ensures r.Ok? <==> idx + width <= |data|
    ensures r.Ok? ==> r.value == BeValue(data[idx..idx + width]) && r.value < Span(width) && next == idx + width
  {
    next := idx;
    var bytes;
    bytes, next :- ReadSlice(data, idx, width);
    BeValueInverse(bytes);
    r := Ok(BeValue(bytes));
  }

  lemma SameRest(data: Bytes, start: nat, idx: nat)
    requires start <= idx <= |data|
    ensures data[idx..|data|] == data[start..][idx - start..]
  {
  }

  lemma TailsByLength(t: Bytes)
    ensures forall wait, rid :: IsTail(t, wait, rid) <==> TailByLength(t, wait, rid)
  {
    hide IsTail, TailByLength;
    forall wait, rid
      ensures IsTail(t, wait, rid) <==> TailByLength(t, wait, rid)
    {
      TailIff(t, wait, rid);
    }
  }

  // wait_ms and request_id, each present only if enough bytes are left.
  method DecodeTail(data: Bytes, start: nat) returns (r: Result<(u32, Bytes)>)
    requires start <= |data|
    ensures r.Ok? ==> IsTail(data[start..], r.value.0, r.value.1)
    ensures r.Err? ==> forall wait, rid :: !IsTail(data[start..], wait, rid)
  {
    hide BeValue, BeBytes, IsTail, Utf8;
    var t := data[start..];
    TailsByLength(t);
    SpanValues();
    assert |t| == 4 ==> t[..4] == t;
    var wait, idx := 0, start;
    if idx + 4 <= |data| {
      assert data[idx..idx + 4] == t[..4];
      var read, next := ReadBe(data, idx, 4);
      wait, idx := read.value, next;
    }
    var rid := [];
    if idx + 2 <= |data| {
      assert data[idx..idx + 2] == t[idx - start..idx - start + 2];
      var read, next := ReadBe(data, idx, 2);
      var n := read.value;
      idx := next;
      if n > MAX_RID {
        return Err;
      }
      if idx + n == |data| {
        SameRest(data, start, idx);
      }
      if idx + n == |data| && RidChars(t[idx - start..]) {
        RidIsUtf8(t[idx - start..]);
      }
      rid, idx :- ReadUtf8(data, idx, n);
      if !RidChars(rid) {
        return Err;
      }
    }
    if idx != |data| {
      return Err;
    }
    return Ok((wait, rid));
  }

  // The positions the decoder computes: end of the mount, of the blob and of the requester.
  ghost function MountEnd(d: Bytes): nat
    requires |d| >= 5
  {
    var n: nat := d[4];
    5 + n
  }

  ghost predicate MountOk(d: Bytes) {
    |d| >= 5 && BeValue(d[0..4]) == MAGIC && MountEnd(d) <= |d| && Utf8(d[5..MountEnd(d)])
  }

  ghost function BlobEnd(d: Bytes): nat
    requires MountOk(d) && MountEnd(d) + 2 <= |d|
  {
    MountEnd(d) + 2 + BeValue(d[MountEnd(d)..MountEnd(d) + 2])
  }

  ghost predicate BlobOk(d: Bytes) {
    && MountOk(d) && MountEnd(d) + 2 <= |d| && BlobEnd(d) <= |d| && Utf8(d[MountEnd(d) + 2..BlobEnd(d)])
  }

  ghost function RequesterEnd(d: Bytes): nat
    requires BlobOk(d) && BlobEnd(d) + 14 <= |d|
  {
    BlobEnd(d) + 14 + BeValue(d[BlobEnd(d) + 12..BlobEnd(d) + 14])
  }

  ghost predicate MandatoryOk(d: Bytes) {
    && BlobOk(d) && BlobEnd(d) + 14 <= |d|
    && RequesterEnd(d) <= |d| && Utf8(d[BlobEnd(d) + 14..RequesterEnd(d)])
  }

  ghost function RequestAt(d: Bytes, wait: u32, rid: Bytes): Request
    requires MandatoryOk(d)
  {
    var o := BlobEnd(d);
    Bounds(d, o);
    Request(d[5..MountEnd(d)], d[MountEnd(d) + 2..o], BeValue(d[o..o + 8]), BeValue(d[o + 8..o + 12]),
            d[o + 14..RequesterEnd(d)], wait, rid)
  }

  lemma Bounds(d: Bytes, o: nat)
    requires o + 14 <= |d|
    ensures BeValue(d[o..o + 8]) < U64_LIMIT && BeValue(d[o + 8..o + 12]) < U32_LIMIT
    ensures BeValue(d[o + 12..o + 14]) < U16_LIMIT
  {
    SpanValues();
    BeValueInverse(d[o..o + 8]);
    BeValueInverse(d[o + 8..o + 12]);
    BeValueInverse(d[o + 12..o + 14]);
  }

  lemma MountReads(d: Bytes, x: Request)
    requires Limits(x) && Utf8(x.mount) && MountAt(d, x)
    ensures MountOk(d) && MountEnd(d) == 5 + |x.mount| && x.mount == d[5..MountEnd(d)]
  {
    FieldValues(x);
    hide BeValue, BeBytes, Utf8;
  }

  lemma BlobReads(d: Bytes, x: Request)
    requires Limits(x) && Utf8(x.blob) && MountOk(d) && BlobAt(d, MountEnd(d), x)
    ensures BlobOk(d) && BlobEnd(d) == MountEnd(d) + 2 + |x.blob| && x.blob == d[MountEnd(d) + 2..BlobEnd(d)]
  {
    FieldValues(x);
    hide BeValue, BeBytes, Utf8, MountOk;
  }

  lemma RequesterReads(d: Bytes, x: Request, t: Bytes)
    requires Limits(x) && Utf8(x.requester) && BlobOk(d)
    requires OffsetAt(d, BlobEnd(d), x) && RequesterAt(d, BlobEnd(d) + 12, x, t)
    requires x.mount == d[5..MountEnd(d)] && x.blob == d[MountEnd(d) + 2..BlobEnd(d)]
    ensures MandatoryOk(d) && RequesterEnd(d) == BlobEnd(d) + 14 + |x.requester| && d[RequesterEnd(d)..] == t
    ensures x == RequestAt(d, x.waitMs, x.rid)
  {
    FieldValues(x);
    hide BeValue, BeBytes, Utf8, BlobOk;
  }

  // A frame determines its request and its tail.
  lemma FrameReads(d: Bytes, x: Request, t: Bytes)
    requires Limits(x) && Strings(x) && d == Frame(x, t)
    ensures MandatoryOk(d) && RequesterEnd(d) == MandatoryLen(x) && d[RequesterEnd(d)..] == t
    ensures x == RequestAt(d, x.waitMs, x.rid)
  {
    hide BeValue, BeBytes, Utf8, MountAt, BlobAt, OffsetAt, RequesterAt, MountOk, BlobOk, MandatoryOk;
    FrameLayout(x, t);
    hide Frame;
    MountReads(d, x);
    BlobReads(d, x);
    RequesterReads(d, x, t);
  }

  lemma ReadsHead(d: Bytes, x: Request)
    requires BlobOk(d) && x.mount == d[5..MountEnd(d)] && x.blob == d[MountEnd(d) + 2..BlobEnd(d)]
    ensures MountAt(d, x) && BlobAt(d, MountEnd(d), x)
  {
    BeValueInverse(d[0..4]);
    BeValueInverse(d[MountEnd(d)..MountEnd(d) + 2]);
    hide BeValue, BeBytes, Utf8;
  }

  lemma ReadsRest(d: Bytes, wait: u32, rid: Bytes)
    requires MandatoryOk(d)
    ensures OffsetAt(d, BlobEnd(d), RequestAt(d, wait, rid))
    ensures RequesterAt(d, BlobEnd(d) + 12, RequestAt(d, wait, rid), d[RequesterEnd(d)..])
  {
    hide BeValue, BeBytes, Utf8;
    var o := BlobEnd(d);
    ReadsOffset(d, wait, rid);
    BeValueInverse(d[o + 12..o + 14]);
  }

  lemma ReadsOffset(d: Bytes, wait: u32, rid: Bytes)
    requires MandatoryOk(d)
    ensures OffsetAt(d, BlobEnd(d), RequestAt(d, wait, rid))
  {
    hide BeValue, BeBytes, Utf8;
    var o := BlobEnd(d);
    BeValueInverse(d[o..o + 8]);
    BeValueInverse(d[o + 8..o + 12]);
  }

  lemma ReadsLimits(d: Bytes, wait: u32, rid: Bytes)
    requires MandatoryOk(d) && |rid| <= MAX_RID
    ensures Limits(RequestAt(d, wait, rid)) && Strings(RequestAt(d, wait, rid))
  {
    Bounds(d, BlobEnd(d));
    SpanValues();
    BeValueInverse(d[MountEnd(d)..MountEnd(d) + 2]);
    hide BeValue, BeBytes, Utf8;
  }

  lemma ReadsFrame(d: Bytes, wait: u32, rid: Bytes)
    requires MandatoryOk(d) && |rid| <= MAX_RID
    ensures
      var x := RequestAt(d, wait, rid);
      Limits(x) && Strings(x) && d == Frame(x, d[RequesterEnd(d)..])
  {
    hide BeValue, BeBytes, Frame, Utf8, MountAt, BlobAt, OffsetAt, RequesterAt;
    var x := RequestAt(d, wait, rid);
    ReadsLimits(d, wait, rid);
    ReadsHead(d, x);
    ReadsRest(d, wait, rid);
    assert BlobEnd(d) == 5 + |x.mount| + 2 + |x.blob|;
    LayoutFrame(d, x, d[RequesterEnd(d)..]);
  }

  // The grammar in terms of the decoder's positions; in particular it is unambiguous.
  lemma FrameIff(d: Bytes, x: Request)
    ensures IsFrame(d, x) <==>
      MandatoryOk(d) && IsTail(d[RequesterEnd(d)..], x.waitMs, x.rid) && x == RequestAt(d, x.waitMs, x.rid)
  {
    hide Frame, IsTail;
    if IsFrame(d, x) {
      var t :| IsTail(t, x.waitMs, x.rid) && d == Frame(x, t);
      FrameReads(d, x, t);
    }
    if MandatoryOk(d) && IsTail(d[RequesterEnd(d)..], x.waitMs, x.rid) && x == RequestAt(d, x.waitMs, x.rid) {
      TailIff(d[RequesterEnd(d)..], x.waitMs, x.rid);
      ReadsFrame(d, x.waitMs, x.rid);
    }
  }

  // A 16-bit length and that many bytes of UTF-8.
  method ReadString(data: Bytes, idx: nat) returns (r: Result<Bytes>, next: nat)
    requires idx <= |data|
    ensures r.Ok? <==>
      && idx + 2 <= |data|
      && var end := idx + 2 + BeValue(data[idx..idx + 2]); end <= |data| && Utf8(data[idx + 2..end])
    ensures r.Ok? ==> next == idx + 2 + BeValue(data[idx..idx + 2]) <= |data| && r.value == data[idx + 2..next]
  {
    next := idx;
    var len, i :- ReadBe(data, idx, 2);
    r, next := ReadUtf8(data, i, len);
  }

  // Magic, mount and blob.
  method DecodeNames(data: Bytes) returns (r: Result<(Bytes, Bytes)>, next: nat)
    ensures r.Ok? <==> BlobOk(data)
    ensures r.Ok? ==>
      && next == BlobEnd(data) <= |data|
      && r.value == (data[5..MountEnd(data)], data[MountEnd(data) + 2..next])
  {
    hide BeValue, Utf8;
    next := 0;
    var magic, i :- ReadBe(data, 0, 4);
    if magic != MAGIC {
      return Err, 0;
    }
    var lenByte, j :- ReadSlice(data, i, 1);
    var mount, k :- ReadUtf8(data, j, lenByte[0]);
    var blob;
    blob, next :- ReadString(data, k);
    r := Ok((mount, blob));
  }

  method DecodeMandatory(data: Bytes) returns (r: Result<Request>, next: nat)
    ensures r.Ok? <==> MandatoryOk(data)
    ensures r.Ok? ==> next == RequesterEnd(data) && r.value == RequestAt(data, 0, [])
  {
    hide BeValue, Utf8, BlobOk;
    SpanValues();
    next := 0;
    var names, i :- DecodeNames(data);
    var offset, j :- ReadBe(data, i, 8);
    var length, k :- ReadBe(data, j, 4);
    var requester;
    requester, next :- ReadString(data, k);
    r := Ok(Request(names.0, names.1, offset, length, requester, 0, []));
  }

  method DecodeRequest(data: Bytes) returns (r: Result<Request>)
    ensures r.Ok? ==> IsFrame(data, r.value)
    ensures r.Err? ==> forall x :: !IsFrame(data, x)
  {
    forall x
      ensures IsFrame(data, x) <==>
        MandatoryOk(data) && IsTail(data[RequesterEnd(data)..], x.waitMs, x.rid)
        && x == RequestAt(data, x.waitMs, x.rid)
    {
      FrameIff(data, x);
    }
    hide IsFrame, IsTail, MandatoryOk;
    var x, i :- DecodeMandatory(data);
    var tail :- DecodeTail(data, i);
    return Ok(x.(waitMs := tail.0, rid := tail.1));
  }

  // Two requests never share a frame.
  lemma Unambiguous(d: Bytes, x: Request, y: Request)
    requires IsFrame(d, x) && IsFrame(d, y)
    ensures x == y
  {
    FrameIff(d, x);
    FrameIff(d, y);
    TailIff(d[RequesterEnd(d)..], x.waitMs, x.rid);
    TailIff(d[RequesterEnd(d)..], y.waitMs, y.rid);
    hide IsFrame, IsTail, BeValue;
  }

  // ---- Round trip ----

  // Encoding is undone by decoding exactly when the request id keeps to its alphabet; the encoder
  // does not check that, the decoder does.
  method RoundTrip(x: Request) returns (back: Result<Request>)
    requires Limits(x) && Strings(x)
    ensures back == if RidChars(x.rid) then Ok(x) else Err
  {
    var frame := EncodeRequest(x);
    back := DecodeRequest(frame.value);
    var t := FullTail(x.waitMs, x.rid);
    FrameReads(frame.value, x, t);
    if back.Ok? {
      FrameIff(frame.value, back.value);
      TailToLength(t, back.value.waitMs, back.value.rid);
      assert t[6..] == x.rid;
    }
    if RidChars(x.rid) {
      assert IsTail(t, x.waitMs, x.rid);
      assert IsFrame(frame.value, x);
      if back.Ok? {
        Unambiguous(frame.value, x, back.value);
      }
    }
  }

  // ---- Truncated frames ----

  // What the first n bytes of a full tail mean, if anything.
  function TruncatedTail(wait: u32, rid: Bytes, n: nat): Option<(nat, Bytes)> {
    var c := wait / 256 % 256;
    if n == 0 then Some((0, []))
    else if n == 2 && wait < U16_LIMIT then Some((0, []))
    else if n == 3 && wait / U16_LIMIT == 1 && RidByte(c) then Some((0, [c]))
    else if n == 4 then Some((wait, []))
    else if n == 6 + |rid| && RidChars(rid) then Some((wait, rid))
    else None
  }

  lemma FourBytes(w: u32)
    ensures BeBytes(w, 4) == BeBytes(w / U16_LIMIT, 2) + [w / 256 % 256, w % 256]
  {
    assert w / 256 / 256 == w / U16_LIMIT;
    assert BeBytes(w, 4) == BeBytes(w / 256, 3) + [w % 256];
    assert BeBytes(w / 256, 3) == BeBytes(w / 256 / 256, 2) + [w / 256 % 256];
  }

  lemma FullTailParts(wait: u32, rid: Bytes)
    requires |rid| <= MAX_RID
    ensures
      var t := FullTail(wait, rid);
      |t| == 6 + |rid| && BeValue(t[..4]) == wait && BeValue(t[4..6]) == |rid| && t[6..] == rid
  {
    SpanValues();
    BeRoundTrip(wait, 4);
    BeRoundTrip(|rid|, 2);
    hide BeBytes, BeValue;
    var t := FullTail(wait, rid);
    assert t[..4] == BeBytes(wait, 4) && t[4..6] == BeBytes(|rid|, 2) && t[6..] == rid;
  }

  lemma TruncatedTailExact(wait: u32, rid: Bytes, n: nat, w: nat, r: Bytes)
    requires |rid| <= MAX_RID && n <= |FullTail(wait, rid)|
    ensures IsTail(FullTail(wait, rid)[..n], w, r) <==> TruncatedTail(wait, rid, n) == Some((w, r))
  {
    var full := FullTail(wait, rid);
    var t := full[..n];
    TailIff(t, w, r);
    FullTailParts(wait, rid);
    SpanValues();
    BeRoundTrip(wait, 4);
    FourBytes(wait);
    hide IsTail, BeValue, BeBytes;
    if 2 <= n <= 3 {
      var h := wait / U16_LIMIT;
      assert t[..2] == BeBytes(h, 2);
      BeRoundTrip(h, 2);
      assert n == 3 ==> t[2..] == [wait / 256 % 256];
      assert n == 2 ==> t[2..] == [];
    } else if n == 4 {
      assert t == BeBytes(wait, 4);
    } else if n >= 6 {
      assert t[..4] == full[..4] && t[4..6] == full[4..6];
      assert n == |full| ==> t == full;
    }
  }

  // A frame cut inside the mandatory fields is never accepted.
  lemma ShortFrame(x: Request, t: Bytes, cut: nat)
    requires Limits(x) && Strings(x) && cut < MandatoryLen(x)
    ensures cut <= |Frame(x, t)| && !MandatoryOk(Frame(x, t)[..cut])
  {
    var d := Frame(x, t);
    var p := d[..cut];
    FrameReads(d, x, t);
    if MandatoryOk(p) {
      SameStart(d, p);
      assert false;
    }
  }

  // The decoder computes the same positions from a prefix that is long enough for them.
  lemma SameStart(d: Bytes, p: Bytes)
    requires p <= d && MandatoryOk(p) && MandatoryOk(d)
    ensures RequesterEnd(p) == RequesterEnd(d)
  {
    hide BeValue, Utf8;
    var b := MountEnd(p);
    assert b == MountEnd(d);
    assert p[b..b + 2] == d[b..b + 2];
    var o := BlobEnd(p);
    assert o == BlobEnd(d);
    assert p[o + 12..o + 14] == d[o + 12..o + 14];
  }

  lemma CutFrame(x: Request, t: Bytes, n: nat)
    requires |x.mount| < 256 && n <= |t|
    ensures |Frame(x, t)| == MandatoryLen(x) + |t|
    ensures Frame(x, t)[..MandatoryLen(x) + n] == Frame(x, t[..n])
  {
    hide BeBytes, Frame, MountAt, BlobAt, OffsetAt, RequesterAt;
    FrameLayout(x, t);
    var d := Frame(x, t);
    var b := 5 + |x.mount|;
    var o := b + 2 + |x.blob|;
    CutRequester(d, o + 12, x, t, n);
    var p := d[..MandatoryLen(x) + n];
    CutHead(d, p, x);
    CutOffset(d, p, o, x);
    LayoutFrame(p, x, t[..n]);
  }

  lemma CutRequester(d: Bytes, p: nat, x: Request, t: Bytes, n: nat)
    requires RequesterAt(d, p, x, t) && n <= |t|
    ensures
      var end := p + 2 + |x.requester|;
      |d| == end + |t| && RequesterAt(d[..end + n], p, x, t[..n])
  {
    hide BeBytes;
    var end := p + 2 + |x.requester|;
    var c := d[..end + n];
    assert c[p..p + 2] == d[p..p + 2] && c[p + 2..end] == d[p + 2..end];
    assert c[end..] == d[end..][..n];
  }

  lemma CutHead(d: Bytes, p: Bytes, x: Request)
    requires p <= d && MountAt(d, x) && BlobAt(d, 5 + |x.mount|, x) && 7 + |x.mount| + |x.blob| <= |p|
    ensures MountAt(p, x) && BlobAt(p, 5 + |x.mount|, x)
  {
    hide BeBytes;
    var b := 5 + |x.mount|;
    var o := b + 2 + |x.blob|;
    assert p[0..4] == d[0..4] && p[5..b] == d[5..b];
    assert p[b..b + 2] == d[b..b + 2] && p[b + 2..o] == d[b + 2..o];
  }

  lemma CutOffset(d: Bytes, p: Bytes, o: nat, x: Request)
    requires p <= d && OffsetAt(d, o, x) && o + 12 <= |p|
    ensures OffsetAt(p, o, x)
  {
    hide BeBytes;
    assert p[o..o + 8] == d[o..o + 8] && p[o + 8..o + 12] == d[o + 8..o + 12];
  }

  // Exactly which truncations of an encoded request still decode, and to what: a cut inside the
  // mandatory fields never does; a cut right after them or after wait_ms always does, with the
  // missing fields at their defaults; two cuts inside wait_ms do for some values of wait_ms; and the whole
  // frame does if its request id keeps to the alphabet.
  lemma TruncationExact(x: Request, cut: nat, y: Request)
    requires Limits(x) && Strings(x)
    requires cut <= |Frame(x, FullTail(x.waitMs, x.rid))|
    ensures IsFrame(Frame(x, FullTail(x.waitMs, x.rid))[..cut], y) <==>
      && cut >= MandatoryLen(x)
      && var m := TruncatedTail(x.waitMs, x.rid, cut - MandatoryLen(x));
         m.Some? && y == x.(waitMs := m.value.0, rid := m.value.1)
  {
    hide IsFrame, IsTail, MandatoryOk, Frame, FullTail;
    var t := FullTail(x.waitMs, x.rid);
    FrameIff(Frame(x, t)[..cut], y);
    if cut < MandatoryLen(x) {
      ShortFrame(x, t, cut);
    } else {
      var n := cut - MandatoryLen(x);
      CutFrame(x, t, 0);
      CutFrame(x, t, n);
      FrameReads(Frame(x, t)[..cut], x, t[..n]);
      TruncatedTailExact(x.waitMs, x.rid, n, y.waitMs, y.rid);
    }
  }

  // ---- Responses ----

  function ResponseFrame(status: nat, payload: Bytes): Bytes {
    LeBytes(status, 4) + LeBytes(|payload|, 4) + payload
  }

  method EncodeResponse(status: u32, payload: Bytes) returns (r: Result<Bytes>)
    ensures r.Ok? <==> |payload| <= MAX_RESPONSE_BYTES
    ensures r.Ok? ==> r.value == ResponseFrame(status, payload)
  {
    if |payload| > MAX_RESPONSE_BYTES {
      return Err;
    }
    var resp := LeBytes(status, 4);
    resp := resp + LeBytes(|payload|, 4);
    resp := resp + payload;
    return Ok(resp);
  }

  datatype Response = Payload(bytes: Bytes) | Miss | Failure

  // A payload is accepted exactly when it is the framed, non-empty payload of an OK response that
  // fits what was asked for; a miss is reported exactly for a miss frame; all else is a failure.
  method DecodeResponse(data: Bytes, expected: u32) returns (r: Response)
    ensures forall b :: r == Payload(b) <==>
      Framed(data, STATUS_OK, b) && 0 < |b| <= MAX_RESPONSE_BYTES && |b| <= expected
    ensures r == Miss <==> exists b :: |b| < U32_LIMIT && Framed(data, STATUS_MISS, b)
  {
    hide LeBytes, LeValue, ResponseFrame, Framed;
    FramedIff(data);
    if |data| < 8 {
      return Failure;
    }
    var status, len, payload := LeValue(data[0..4]), LeValue(data[4..8]), data[8..];
    if len != |payload| {
      return Failure;
    }
    if status == STATUS_OK {
      if len == 0 || len > MAX_RESPONSE_BYTES {
        return Failure;
      }
      if len > expected {
        return Failure;
      }
      return Payload(payload);
    } else if status == STATUS_MISS {
      return Miss;
    }
    return Failure;
  }

  // The data is the frame of this status and payload.
  ghost predicate Framed(data: Bytes, status: nat, b: Bytes) {
    data == ResponseFrame(status, b)
  }

  lemma FramedIff(data: Bytes)
    ensures |data| < 8 ==> forall status: nat, b | status < U32_LIMIT && |b| < U32_LIMIT :: !Framed(data, status, b)
    ensures |data| >= 8 ==> LeValue(data[0..4]) < U32_LIMIT && LeValue(data[4..8]) < U32_LIMIT
    ensures |data| >= 8 ==> forall status: nat, b | status < U32_LIMIT && |b| < U32_LIMIT ::
      Framed(data, status, b) <==> LeValue(data[0..4]) == status && LeValue(data[4..8]) == |b| && data[8..] == b
  {
    hide LeBytes, LeValue, ResponseFrame;
    forall status: nat, b | status < U32_LIMIT && |b| < U32_LIMIT
      ensures Framed(data, status, b) <==>
        |data| >= 8 && LeValue(data[0..4]) == status && LeValue(data[4..8]) == |b| && data[8..] == b
    {
      ResponseParts(data, status, b);
    }
    if |data| >= 8 {
      SpanValues();
      LeValueInverse(data[0..4]);
      LeValueInverse(data[4..8]);
    }
  }

  lemma ResponseParts(data: Bytes, status: nat, b: Bytes)
    requires status < U32_LIMIT && |b| < U32_LIMIT
    ensures data == ResponseFrame(status, b) <==>
      |data| >= 8 && LeValue(data[0..4]) == status && LeValue(data[4..8]) == |b| && data[8..] == b
  {
    SpanValues();
    if data == ResponseFrame(status, b) {
      LeRoundTrip(status, 4);
      LeRoundTrip(|b|, 4);
      hide LeBytes, LeValue;
      assert data[0..4] == LeBytes(status, 4) && data[4..8] == LeBytes(|b|, 4) && data[8..] == b;
    }
    if |data| >= 8 && LeValue(data[0..4]) == status && LeValue(data[4..8]) == |b| && data[8..] == b {
      LeValueInverse(data[0..4]);
      LeValueInverse(data[4..8]);
      hide LeBytes, LeValue;
      assert data == data[0..4] + data[4..8] + data[8..];
    }
  }
}
