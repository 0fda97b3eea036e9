/** The local side of PeerIndex: what a node advertises, kept up to date by inserts that run
    concurrently with rebuilds. */
module Advertisement {
  import opened Core
  import opened BloomFilter

  // The fields behind the two locks: the overlay of recent inserts, and version and filter together.
  datatype Index = Index(pending: seq<Digest>, version: u64, bloom: Filter)

  ghost predicate Sound(ix: Index) {
    WellFormed(ix.bloom)
  }

  function NewIndex(bits: nat): (ix: Index)
    requires bits < U64_LIMIT
    ensures Sound(ix)
  {
    Index([], 1, Empty(bits))
  }

  function Overlaid(ix: Index, d: Digest): Index {
    ix.(pending := ix.pending + [d])
  }

  function Advertised(ix: Index, d: Digest): Index
    requires Sound(ix)
  {
    ix.(bloom := Inserted(ix.bloom, d), version := SaturatingInc(ix.version))
  }

  function Swapped(ix: Index, f: Filter): Index {
    ix.(bloom := f, version := SaturatingInc(ix.version))
  }

  // One insert of a chunk, from its entry in the cache to the insert into the filter.
  datatype InsertOp = Stored(key: ChunkKey) | Queued(key: ChunkKey)

  // One rebuild: a filter built from a snapshot of the live keys, then topped up from the overlay
  // while the write lock is held.
  datatype Rebuild = Built(filter: Filter) | Drained(filter: Filter)

  datatype Config = Config(digest: ChunkKey -> Digest, bits: nat, maxRebuilds: nat)

  ghost predicate ValidConfig(c: Config) {
    c.bits < U64_LIMIT
  }

  datatype State = State(
    live: set<ChunkKey>,
    index: Index,
    inserts: map<nat, InsertOp>,
    rebuilds: map<nat, Rebuild>,
    writer: Option<nat>)

  datatype Action =
    | CacheInsert(op: nat, key: ChunkKey, evicted: set<ChunkKey>)
    | CacheDrop(keys: set<ChunkKey>)
    | PushPending(op: nat)
    | BloomInsert(op: nat)
    | Snapshot(id: nat, listing: seq<ChunkKey>)
    | DrainPending(id: nat)
    | SwapIn(id: nat)

  function Init(c: Config): State
    requires ValidConfig(c)
  {
    State({}, NewIndex(c.bits), map[], map[], None)
  }

  function Digests(c: Config, keys: seq<ChunkKey>): (ds: seq<Digest>)
    ensures |ds| == |keys| && forall i | 0 <= i < |keys| :: ds[i] == c.digest(keys[i])
  {
    if keys == [] then [] else Digests(c, keys[..|keys| - 1]) + [c.digest(keys[|keys| - 1])]
  }

  predicate Enabled(c: Config, s: State, a: Action) {
    match a
    case CacheInsert(op, _, _) => op !in s.inserts
    case CacheDrop(_) => true
    case PushPending(op) => op in s.inserts && s.inserts[op].Stored?
    case BloomInsert(op) => op in s.inserts && s.inserts[op].Queued? && s.writer.None?
    case Snapshot(id, keys) =>
      id !in s.rebuilds && |s.rebuilds| < c.maxRebuilds && (set k | k in keys) == s.live
    case DrainPending(id) => id in s.rebuilds && s.rebuilds[id].Built? && s.writer.None?
    case SwapIn(id) => id in s.rebuilds && s.rebuilds[id].Drained? && s.writer == Some(id)
  }

  // One atomic step; an action that is not enabled changes nothing.
  ghost function Step(c: Config, s: State, a: Action): State
    requires ValidConfig(c) && TypeOk(s)
  {
    if !Enabled(c, s, a) then s
    else
      match a
      case CacheInsert(op, k, evicted) =>
        s.(live := s.live + {k} - evicted, inserts := s.inserts[op := Stored(k)])
      case CacheDrop(keys) => s.(live := s.live - keys)
      case PushPending(op) =>
        var k := s.inserts[op].key;
        s.(index := Overlaid(s.index, c.digest(k)), inserts := s.inserts[op := Queued(k)])
      case BloomInsert(op) =>
        s.(index := Advertised(s.index, c.digest(s.inserts[op].key)), inserts := s.inserts - {op})
      case Snapshot(id, keys) =>
        s.(rebuilds := s.rebuilds[id := Built(InsertedAll(Empty(c.bits), Digests(c, keys)))])
      case DrainPending(id) =>
        s.(rebuilds := s.rebuilds[id := Drained(InsertedAll(s.rebuilds[id].filter, s.index.pending))],
           index := s.index.(pending := []),
           writer := Some(id))
      case SwapIn(id) =>
        s.(index := Swapped(s.index, s.rebuilds[id].filter), rebuilds := s.rebuilds - {id}, writer := None)
  }

  ghost predicate TypeOk(s: State) {
    && Sound(s.index)
    && forall id | id in s.rebuilds :: WellFormed(s.rebuilds[id].filter)
  }

  lemma StepTypeOk(c: Config, s: State, a: Action)
    requires ValidConfig(c) && TypeOk(s)
    ensures TypeOk(Step(c, s, a))
  {
  }

  ghost function Run(c: Config, s: State, acts: seq<Action>): (s': State)
    requires ValidConfig(c) && TypeOk(s)
    ensures TypeOk(s')
    decreases |acts|
  {
    if acts == [] then s
    else
      StepTypeOk(c, s, acts[0]);
      Run(c, Step(c, s, acts[0]), acts[1..])
  }

  ghost predicate Inserting(s: State, k: ChunkKey) {
    exists op :: op in s.inserts && s.inserts[op].key == k
  }

  ghost predicate NotYetQueued(s: State, k: ChunkKey) {
    exists op :: op in s.inserts && s.inserts[op] == Stored(k)
  }

  // Every chunk in the cache tests positive in the advertised filter, unless an insert of that
  // chunk has not yet reached the filter.
  ghost predicate NoFalseNegatives(c: Config, s: State)
    requires TypeOk(s)
  {
    forall k | k in s.live :: Contains(s.index.bloom, c.digest(k)) || Inserting(s, k)
  }

  // What a rebuild in progress has not seen is still in the overlay or on its way there.
  ghost predicate RebuildCovers(c: Config, s: State, r: Rebuild)
    requires WellFormed(r.filter)
  {
    forall k | k in s.live ::
      || Contains(r.filter, c.digest(k))
      || (if r.Built? then c.digest(k) in s.index.pending || NotYetQueued(s, k) else Inserting(s, k))
  }

  ghost predicate Inv(c: Config, s: State) {
    && TypeOk(s)
    && NoFalseNegatives(c, s)
    && (forall i, j | i in s.rebuilds && j in s.rebuilds :: i == j)
    && (forall id | id in s.rebuilds :: s.rebuilds[id].Drained? <==> s.writer == Some(id))
    && (s.writer.Some? ==> s.writer.value in s.rebuilds)
    && (forall id | id in s.rebuilds :: RebuildCovers(c, s, s.rebuilds[id]))
  }

  lemma CacheSteps(c: Config, s: State, a: Action)
    requires ValidConfig(c) && Inv(c, s) && Enabled(c, s, a) && (a.CacheInsert? || a.CacheDrop?)
    ensures Inv(c, Step(c, s, a))
  {
    var s' := Step(c, s, a);
    assert a.CacheInsert? ==> s'.inserts[a.op] == Stored(a.key);
    forall op | op in s.inserts
      ensures op in s'.inserts && s'.inserts[op] == s.inserts[op]
    {
    }
    forall k | k in s'.live && k in s.live
      ensures Inserting(s, k) ==> Inserting(s', k)
      ensures NotYetQueued(s, k) ==> NotYetQueued(s', k)
    {
    }
  }

  lemma PushStep(c: Config, s: State, op: nat)
    requires ValidConfig(c) && Inv(c, s) && Enabled(c, s, PushPending(op))
    ensures Inv(c, Step(c, s, PushPending(op)))
  {
    var s' := Step(c, s, PushPending(op));
    var k0 := s.inserts[op].key;
    assert s'.inserts[op].key == k0 && c.digest(k0) in s'.index.pending;
    forall k | k in s.live
      ensures Inserting(s, k) ==> Inserting(s', k)
      ensures NotYetQueued(s, k) ==> NotYetQueued(s', k) || k == k0
    {
      if o :| o in s.inserts && s.inserts[o].key == k {
        assert s'.inserts[o].key == k;
      }
      if o :| o in s.inserts && s.inserts[o] == Stored(k) {
        assert o == op || s'.inserts[o] == Stored(k);
      }
    }
    assert forall d | d in s.index.pending :: d in s'.index.pending;
  }

  lemma BloomInsertStep(c: Config, s: State, op: nat)
    requires ValidConfig(c) && Inv(c, s) && Enabled(c, s, BloomInsert(op))
    ensures Inv(c, Step(c, s, BloomInsert(op)))
  {
    var s' := Step(c, s, BloomInsert(op));
    var k0 := s.inserts[op].key;
    forall k | k in s.live
      ensures Contains(s'.index.bloom, c.digest(k)) || Inserting(s', k)
      ensures NotYetQueued(s, k) ==> NotYetQueued(s', k)
    {
      InsertContains(s.index.bloom, c.digest(k0), c.digest(k));
      if o :| o in s.inserts && s.inserts[o].key == k {
        assert o == op || s'.inserts[o].key == k;
      }
      if o :| o in s.inserts && s.inserts[o] == Stored(k) {
        assert s'.inserts[o] == Stored(k);
      }
    }
  }

  lemma SnapshotStep(c: Config, s: State, id: nat, keys: seq<ChunkKey>)
    requires ValidConfig(c) && c.maxRebuilds <= 1
    requires Inv(c, s) && Enabled(c, s, Snapshot(id, keys))
    ensures Inv(c, Step(c, s, Snapshot(id, keys)))
  {
    var s' := Step(c, s, Snapshot(id, keys));
    assert s.rebuilds == map[];
    var ds := Digests(c, keys);
    forall k | k in s.live
      ensures Contains(s'.rebuilds[id].filter, c.digest(k))
    {
      assert k in (set x | x in keys);
      var i :| 0 <= i < |keys| && keys[i] == k;
      assert ds[i] == c.digest(k);
      InsertedAllContains(Empty(c.bits), ds, c.digest(k));
    }
    assert forall k :: Inserting(s, k) ==> Inserting(s', k);
  }

  lemma DrainStep(c: Config, s: State, id: nat)
    requires ValidConfig(c) && Inv(c, s) && Enabled(c, s, DrainPending(id))
    ensures Inv(c, Step(c, s, DrainPending(id)))
  {
    var s' := Step(c, s, DrainPending(id));
    forall k | k in s.live
      ensures Contains(s'.rebuilds[id].filter, c.digest(k)) || Inserting(s', k)
      ensures Inserting(s, k) ==> Inserting(s', k)
    {
      InsertedAllContains(s.rebuilds[id].filter, s.index.pending, c.digest(k));
      if o :| o in s.inserts && s.inserts[o] == Stored(k) {
        assert s'.inserts[o].key == k;
      }
      assert s'.inserts == s.inserts;
    }
  }

  lemma SwapStep(c: Config, s: State, id: nat)
    requires ValidConfig(c) && Inv(c, s) && Enabled(c, s, SwapIn(id))
    ensures Inv(c, Step(c, s, SwapIn(id)))
  {
    var s' := Step(c, s, SwapIn(id));
    assert s'.inserts == s.inserts;
    assert forall k :: Inserting(s, k) ==> Inserting(s', k);
    assert RebuildCovers(c, s, s.rebuilds[id]);
  }

  lemma StepInv(c: Config, s: State, a: Action)
    requires ValidConfig(c) && c.maxRebuilds <= 1 && Inv(c, s)
    ensures Inv(c, Step(c, s, a))
  {
    if Enabled(c, s, a) {
      match a
      case CacheInsert(_, _, _) => CacheSteps(c, s, a);
      case CacheDrop(_) => CacheSteps(c, s, a);
      case PushPending(op) => PushStep(c, s, op);
      case BloomInsert(op) => BloomInsertStep(c, s, op);
      case Snapshot(id, keys) => SnapshotStep(c, s, id, keys);
      case DrainPending(id) => DrainStep(c, s, id);
      case SwapIn(id) => SwapStep(c, s, id);
    }
  }

  lemma {:induction false} RunInv(c: Config, s: State, acts: seq<Action>)
    requires ValidConfig(c) && c.maxRebuilds <= 1 && Inv(c, s)
    ensures Inv(c, Run(c, s, acts))
    decreases |acts|
  {
    if acts != [] {
      StepInv(c, s, acts[0]);
      RunInv(c, Step(c, s, acts[0]), acts[1..]);
    }
  }

  // With one rebuild at a time no interleaving ever hides a cached chunk from the peers.
  lemma NeverHidden(c: Config, acts: seq<Action>)
    requires ValidConfig(c) && c.maxRebuilds <= 1
    ensures NoFalseNegatives(c, Run(c, Init(c), acts))
  {
    RunInv(c, Init(c), acts);
  }

  lemma {:induction false} RunConcat(c: Config, s: State, a: seq<Action>, b: seq<Action>)
    requires ValidConfig(c) && TypeOk(s)
    ensures Run(c, s, a + b) == Run(c, Run(c, s, a), b)
    decreases |a|
  {
    if a == [] {
      assert a + b == b;
    } else {
      StepTypeOk(c, s, a[0]);
      assert (a + b)[0] == a[0] && (a + b)[1..] == a[1..] + b;
      RunConcat(c, Step(c, s, a[0]), a[1..], b);
    }
  }

  lemma RunFirst(c: Config, s: State, acts: seq<Action>, s1: State)
    requires ValidConfig(c) && TypeOk(s) && acts != [] && Step(c, s, acts[0]) == s1
    ensures TypeOk(s1) && Run(c, s, acts) == Run(c, s1, acts[1..])
  {
    StepTypeOk(c, s, acts[0]);
  }

  lemma RunThree(c: Config, s: State, acts: seq<Action>, s1: State, s2: State, s3: State)
    requires ValidConfig(c) && TypeOk(s) && |acts| >= 3 && Step(c, s, acts[0]) == s1
    requires TypeOk(s1) && Step(c, s1, acts[1]) == s2
    requires TypeOk(s2) && Step(c, s2, acts[2]) == s3
    ensures TypeOk(s3) && Run(c, s, acts) == Run(c, s3, acts[3..])
  {
    RunFirst(c, s, acts, s1);
    RunFirst(c, s1, acts[1..], s2);
    RunFirst(c, s2, acts[2..], s3);
  }

  // A rebuild forgets: run through, it leaves a filter whose bits are exactly the probes of the chunks in
  // the cache and of the inserts in the overlay, and an empty overlay.
  lemma RebuildForgets(c: Config, s: State, id: nat, listing: seq<ChunkKey>, q: nat)
    requires ValidConfig(c) && TypeOk(s) && q < Empty(c.bits).mBits
    requires id !in s.rebuilds && |s.rebuilds| < c.maxRebuilds && s.writer.None? && (set k | k in listing) == s.live
    ensures
      var s' := Run(c, s, [Snapshot(id, listing), DrainPending(id), SwapIn(id)]);
      && s' == s.(index := s'.index) && s'.index.pending == [] && s'.index.bloom.mBits == Empty(c.bits).mBits
      && (Has(s'.index.bloom, q) <==>
            || (exists k, i: nat :: k in s.live && i < BLOOM_K && BitPos(c.digest(k), i, s'.index.bloom.mBits) == q)
            || (exists d, i: nat :: d in s.index.pending && i < BLOOM_K && BitPos(d, i, s'.index.bloom.mBits) == q))
  {
    hide Step, Run, Has, BitPos, InsertedAll, Empty;
    RebuildSteps(c, s, id, listing);
    RebuiltBits(c, s.live, listing, s.index.pending, q);
  }

  // The three steps of a rebuild that nothing interrupts.
  lemma RebuildSteps(c: Config, s: State, id: nat, listing: seq<ChunkKey>)
    requires ValidConfig(c) && TypeOk(s)
    requires id !in s.rebuilds && |s.rebuilds| < c.maxRebuilds && s.writer.None? && (set k | k in listing) == s.live
    ensures
      var g := InsertedAll(InsertedAll(Empty(c.bits), Digests(c, listing)), s.index.pending);
      Run(c, s, [Snapshot(id, listing), DrainPending(id), SwapIn(id)])
        == s.(index := Index([], SaturatingInc(s.index.version), g))
  {
    hide InsertedAll, Empty, Run, WellFormed;
    var acts := [Snapshot(id, listing), DrainPending(id), SwapIn(id)];
    var f := InsertedAll(Empty(c.bits), Digests(c, listing));
    var g := InsertedAll(f, s.index.pending);
    var s1 := s.(rebuilds := s.rebuilds[id := Built(f)]);
    var s2 := s1.(rebuilds := s.rebuilds[id := Drained(g)], index := s.index.(pending := []), writer := Some(id));
    var s3 := s.(index := Index([], SaturatingInc(s.index.version), g));
    assert s.rebuilds[id := Built(f)][id := Drained(g)] == s.rebuilds[id := Drained(g)];
    assert s.rebuilds[id := Drained(g)] - {id} == s.rebuilds;
    RunThree(c, s, acts, s1, s2, s3);
    hide Step;
    RunNone(c, s3, acts[3..]);
  }

  lemma RunNone(c: Config, s: State, acts: seq<Action>)
    requires ValidConfig(c) && TypeOk(s) && acts == []
    ensures Run(c, s, acts) == s
  {
  }

  lemma RebuiltBits(c: Config, live: set<ChunkKey>, listing: seq<ChunkKey>, pending: seq<Digest>, q: nat)
    requires ValidConfig(c) && q < Empty(c.bits).mBits && (set k | k in listing) == live
    ensures
      var m := Empty(c.bits).mBits;
      Has(InsertedAll(InsertedAll(Empty(c.bits), Digests(c, listing)), pending), q) <==>
        || (exists k, i: nat :: k in live && i < BLOOM_K && BitPos(c.digest(k), i, m) == q)
        || (exists d, i: nat :: d in pending && i < BLOOM_K && BitPos(d, i, m) == q)
  {
    hide Has, BitPos, InsertedAll, Empty;
    var m, ds := Empty(c.bits).mBits, Digests(c, listing);
    EmptyHasNoBits(c.bits, q);
    InsertedAllBits(Empty(c.bits), ds, q);
    InsertedAllBits(InsertedAll(Empty(c.bits), ds), pending, q);
    if k, i: nat :| k in live && i < BLOOM_K && BitPos(c.digest(k), i, m) == q {
      var j :| 0 <= j < |listing| && listing[j] == k;
      assert ds[j] == c.digest(k) && ds[j] in ds;
    }
    if d, i: nat :| d in ds && i < BLOOM_K && BitPos(d, i, m) == q {
      var j :| 0 <= j < |ds| && ds[j] == d;
      assert listing[j] in listing && d == c.digest(listing[j]);
    }
  }

  // A whole rebuild over an empty cache and an empty overlay.
  lemma EmptyRebuildSteps(c: Config, s: State)
    requires ValidConfig(c) && c.maxRebuilds >= 1 && TypeOk(s)
    requires s.live == {} && s.rebuilds == map[] && s.writer == None && s.index.pending == []
    ensures
      var e := Empty(c.bits);
      && Step(c, s, Snapshot(0, [])) == s.(rebuilds := map[0 := Built(e)])
      && Step(c, s.(rebuilds := map[0 := Built(e)]), DrainPending(0))
         == s.(rebuilds := map[0 := Drained(e)], writer := Some(0))
      && Step(c, s.(rebuilds := map[0 := Drained(e)], writer := Some(0)), SwapIn(0))
         == s.(index := Index([], SaturatingInc(s.index.version), e))
  {
  }

  // A whole insert while no rebuild holds the lock.
  lemma InsertSteps(c: Config, s: State, k: ChunkKey)
    requires ValidConfig(c) && TypeOk(s) && s.inserts == map[] && s.writer == None
    ensures
      var s1 := s.(live := s.live + {k}, inserts := map[0 := Stored(k)]);
      var s2 := s1.(index := Overlaid(s.index, c.digest(k)), inserts := map[0 := Queued(k)]);
      && Step(c, s, CacheInsert(0, k, {})) == s1
      && Step(c, s1, PushPending(0)) == s2
      && Step(c, s2, BloomInsert(0))
         == s1.(index := Advertised(Overlaid(s.index, c.digest(k)), c.digest(k)), inserts := map[])
  {
  }

  // Two overlapping rebuilds: the first takes its snapshot before the chunk arrives, the second
  // drains the overlay, and the first then swaps in a filter that never saw the chunk.
  function FirstSnapshotThenInsert(k: ChunkKey): seq<Action> {
    [Snapshot(0, []), CacheInsert(0, k, {}), PushPending(0), BloomInsert(0)]
  }

  function SecondRebuild(k: ChunkKey): seq<Action> {
    [Snapshot(1, [k]), DrainPending(1), SwapIn(1)]
  }

  function FirstSwap(): seq<Action> {
    [DrainPending(0), SwapIn(0)]
  }

  function Overlap(k: ChunkKey): seq<Action> {
    FirstSnapshotThenInsert(k) + SecondRebuild(k) + FirstSwap()
  }

  lemma AfterInsert(c: Config, k: ChunkKey)
    requires ValidConfig(c) && c.maxRebuilds >= 2
    ensures
      var d := c.digest(k);
      Run(c, Init(c), FirstSnapshotThenInsert(k)) ==
      State({k}, Index([d], 2, Inserted(Empty(c.bits), d)), map[], map[0 := Built(Empty(c.bits))], None)
  {
    var s1 := Init(c).(rebuilds := map[0 := Built(Empty(c.bits))]);
    var acts := FirstSnapshotThenInsert(k);
    EmptyRebuildSteps(c, Init(c));
    RunFirst(c, Init(c), acts, s1);
    InsertSteps(c, s1, k);
    var s2 := Step(c, s1, acts[1]);
    var s3 := Step(c, s2, acts[2]);
    RunThree(c, s1, acts[1..], s2, s3, Step(c, s3, acts[3]));
  }

  lemma SecondSteps(c: Config, s: State, k: ChunkKey)
    requires ValidConfig(c) && c.maxRebuilds >= 2 && TypeOk(s)
    requires s.live == {k} && s.inserts == map[] && s.rebuilds == map[0 := Built(Empty(c.bits))] && s.writer == None
    ensures
      var s1 := Step(c, s, Snapshot(1, [k]));
      && TypeOk(s1) && 1 in s1.rebuilds && s1 == s.(rebuilds := s.rebuilds[1 := s1.rebuilds[1]])
       && s1.rebuilds[1].Built?
  {
    assert (set x | x in [k]) == s.live;
    StepTypeOk(c, s, Snapshot(1, [k]));
  }

  lemma DrainAndSwap(c: Config, s: State)
    requires ValidConfig(c) && TypeOk(s) && 1 in s.rebuilds && s.rebuilds[1].Built? && s.writer == None
    ensures
      var s1 := Step(c, s, DrainPending(1));
      && TypeOk(s1)
      && (var s2 := Step(c, s1, SwapIn(1));
          s2 == s.(index := s2.index, rebuilds := s.rebuilds - {1}) && s2.index.pending == [])
  {
    StepTypeOk(c, s, DrainPending(1));
  }

  lemma AfterSecond(c: Config, s: State, k: ChunkKey)
    requires ValidConfig(c) && c.maxRebuilds >= 2 && TypeOk(s)
    requires s.live == {k} && s.inserts == map[] && s.rebuilds == map[0 := Built(Empty(c.bits))] && s.writer == None
    ensures
      var s' := Run(c, s, SecondRebuild(k));
      s'.live == {k} && s'.inserts == map[] && s'.rebuilds == s.rebuilds && s'.writer == None && s'.index.pending == []
  {
    hide Step, TypeOk;
    var acts := SecondRebuild(k);
    SecondSteps(c, s, k);
    var s1 := Step(c, s, acts[0]);
    DrainAndSwap(c, s1);
    var s2 := Step(c, s1, acts[1]);
    RunThree(c, s, acts, s1, s2, Step(c, s2, acts[2]));
  }

  lemma OverlappingRebuildsHide(c: Config, k: ChunkKey)
    requires ValidConfig(c) && c.maxRebuilds >= 2
    ensures
      var s := Run(c, Init(c), Overlap(k));
      k in s.live && !Contains(s.index.bloom, c.digest(k)) && !Inserting(s, k)
  {
    assert TypeOk(Init(c));
    hide Step, Run, Init;
    AfterInsert(c, k);
    var s := Run(c, Init(c), FirstSnapshotThenInsert(k));
    AfterSecond(c, s, k);
    RunConcat(c, Init(c), FirstSnapshotThenInsert(k), SecondRebuild(k));
    var t := Run(c, s, SecondRebuild(k));
    RunConcat(c, Init(c), FirstSnapshotThenInsert(k) + SecondRebuild(k), FirstSwap());
    LastSwap(c, t);
    EmptyContainsNothing(c.bits, c.digest(k));
  }

  lemma LastSwap(c: Config, t: State)
    requires ValidConfig(c) && TypeOk(t) && t.inserts == map[] && t.writer == None && t.index.pending == []
    requires t.rebuilds == map[0 := Built(Empty(c.bits))]
    ensures
      var t' := Run(c, t, FirstSwap());
      t'.index.bloom == Empty(c.bits) && t'.live == t.live && t'.inserts == t.inserts
  {
    var acts := FirstSwap();
    var t1 := Step(c, t, acts[0]);
    StepTypeOk(c, t, acts[0]);
    var t2 := Step(c, t1, acts[1]);
    assert t2.index.bloom == Empty(c.bits);
    assert Run(c, t1, acts[1..]) == t2;
  }

  // The exact condition: chunks stay visible in every run if and only if rebuilds do not overlap.
  lemma VisibleIffRebuildsAreSerial(digest: ChunkKey -> Digest, bits: nat, n: nat)
    requires bits < U64_LIMIT
    ensures
      var c := Config(digest, bits, n);
      (forall acts :: NoFalseNegatives(c, Run(c, Init(c), acts))) <==> n <= 1
  {
    var c := Config(digest, bits, n);
    if n <= 1 {
      forall acts
        ensures NoFalseNegatives(c, Run(c, Init(c), acts))
      {
        NeverHidden(c, acts);
      }
    } else {
      var k := ChunkKey("", "", 0);
      OverlappingRebuildsHide(c, k);
      assert !NoFalseNegatives(c, Run(c, Init(c), Overlap(k)));
    }
  }

  // ---- Publication: local_snapshot, and what a peer makes of it ----

  function Published(ix: Index): (u64, Bytes)
    requires Sound(ix)
  {
    (ix.version, Serialise(ix.bloom))
  }

  // The version never goes back, and while it stands still below its ceiling the filter does too.
  lemma {:induction false} VersionNamesFilter(c: Config, s: State, acts: seq<Action>)
    requires ValidConfig(c) && TypeOk(s)
    ensures
      var s' := Run(c, s, acts);
      && s'.index.version >= s.index.version
      && (s'.index.version == s.index.version < U64_MAX ==> s'.index.bloom == s.index.bloom)
    decreases |acts|
  {
    if acts != [] {
      StepTypeOk(c, s, acts[0]);
      VersionNamesFilter(c, Step(c, s, acts[0]), acts[1..]);
    }
  }

  // Two snapshots of the same version, however far apart in a run, carry the same bytes.
  ghost predicate SnapshotsAgree(c: Config, v: nat)
    requires ValidConfig(c)
  {
    forall a, b ::
      var s, s' := Run(c, Init(c), a), Run(c, Run(c, Init(c), a), b);
      s.index.version == s'.index.version == v ==> Published(s.index) == Published(s'.index)
  }

  function EmptyRebuilds(n: nat): seq<Action> {
    if n == 0 then [] else [Snapshot(0, []), DrainPending(0), SwapIn(0)] + EmptyRebuilds(n - 1)
  }

  // Nothing in the cache, at version v.
  function Idle(c: Config, v: u64): (s: State)
    requires ValidConfig(c)
    ensures TypeOk(s) && s.index.version == v && s.index.bloom == Empty(c.bits)
  {
    State({}, Index([], v, Empty(c.bits)), map[], map[], None)
  }

  lemma EmptyRebuild(c: Config, v: u64, rest: seq<Action>)
    requires ValidConfig(c) && c.maxRebuilds >= 1 && v < U64_MAX
    ensures Run(c, Idle(c, v), [Snapshot(0, []), DrainPending(0), SwapIn(0)] + rest) == Run(c, Idle(c, v + 1), rest)
  {
    hide Run, TypeOk;
    var acts := [Snapshot(0, []), DrainPending(0), SwapIn(0)] + rest;
    var s := Idle(c, v);
    EmptyRebuildSteps(c, s);
    StepTypeOk(c, s, acts[0]);
    hide Step;
    var s1 := Step(c, s, acts[0]);
    StepTypeOk(c, s1, acts[1]);
    var s2 := Step(c, s1, acts[1]);
    assert Step(c, s2, acts[2]) == Idle(c, v + 1);
    RunThree(c, s, acts, s1, s2, Idle(c, v + 1));
    assert acts[3..] == rest;
  }

  lemma {:induction false} EmptyRebuildsCount(c: Config, n: nat, v: u64)
    requires ValidConfig(c) && c.maxRebuilds >= 1 && v + n <= U64_MAX
    ensures Run(c, Idle(c, v), EmptyRebuilds(n)) == Idle(c, v + n)
    decreases n
  {
    hide Step, Idle;
    if n > 0 {
      EmptyRebuild(c, v, EmptyRebuilds(n - 1));
      EmptyRebuildsCount(c, n - 1, v + 1);
    }
  }

  lemma InsertChangesBytes(c: Config, s: State, k: ChunkKey, b: seq<Action>)
    requires ValidConfig(c) && b == [CacheInsert(0, k, {}), PushPending(0), BloomInsert(0)]
    requires s == Idle(c, s.index.version)
    ensures
      var s' := Run(c, s, b);
      && s'.index.version == SaturatingInc(s.index.version)
      && Serialise(s'.index.bloom) != Serialise(s.index.bloom)
  {
    InsertedOnce(c, s, k, b);
    hide Run, Step, Serialise, Parse, Contains;
    var e, d := Empty(c.bits), c.digest(k);
    EmptyContainsNothing(c.bits, d);
    InsertContains(e, d, d);
    ParseSerialise(e);
    ParseSerialise(Inserted(e, d));
  }

  lemma InsertedOnce(c: Config, s: State, k: ChunkKey, b: seq<Action>)
    requires ValidConfig(c) && b == [CacheInsert(0, k, {}), PushPending(0), BloomInsert(0)]
    requires s == Idle(c, s.index.version)
    ensures Run(c, s, b).index == Advertised(Overlaid(s.index, c.digest(k)), c.digest(k))
  {
    hide TypeOk;
    InsertSteps(c, s, k);
    StepTypeOk(c, s, b[0]);
    StepTypeOk(c, Step(c, s, b[0]), b[1]);
    hide Step;
    var s1 := Step(c, s, b[0]);
    var s2 := Step(c, s1, b[1]);
    RunThree(c, s, b, s1, s2, Step(c, s2, b[2]));
  }

  lemma SaturatedVersionIsAmbiguous(c: Config, k: ChunkKey)
    requires ValidConfig(c) && c.maxRebuilds >= 1
    ensures !SnapshotsAgree(c, U64_MAX)
  {
    var n: nat :| n == U64_MAX - 1;
    var a, b := EmptyRebuilds(n), [CacheInsert(0, k, {}), PushPending(0), BloomInsert(0)];
    EmptyRebuildsCount(c, n, 1);
    assert Init(c) == Idle(c, 1);
    hide Run, Step, Serialise;
    InsertChangesBytes(c, Run(c, Init(c), a), k, b);
  }

  // The exact condition: a version identifies the published bytes if and only if it has not saturated.
  lemma VersionsIdentifyBytes(c: Config, v: nat)
    requires ValidConfig(c) && c.maxRebuilds >= 1 && v <= U64_MAX
    ensures SnapshotsAgree(c, v) <==> v < U64_MAX
  {
    if v < U64_MAX {
      forall a, b
        ensures
          var s, s' := Run(c, Init(c), a), Run(c, Run(c, Init(c), a), b);
          s.index.version == s'.index.version == v ==> Published(s.index) == Published(s'.index)
      {
        VersionNamesFilter(c, Run(c, Init(c), a), b);
      }
    } else {
      SaturatedVersionIsAmbiguous(c, ChunkKey("", "", 0));
    }
  }

  // A peer that ingested the bytes of version v answers every lookup as the owner does whenever the
  // owner is at version v, before or after the pull.
  lemma RemoteAnswersAsOwner(c: Config, a: seq<Action>, b: seq<Action>, d: Digest)
    requires ValidConfig(c)
    requires
      var s, s' := Run(c, Init(c), a), Run(c, Run(c, Init(c), a), b);
      s.index.version == s'.index.version < U64_MAX
    ensures
      var s, s' := Run(c, Init(c), a), Run(c, Run(c, Init(c), a), b);
      var early, late := Parse(Published(s.index).1), Parse(Published(s'.index).1);
      && early.Some? && late.Some? && WellFormed(early.value) && WellFormed(late.value)
      && (Contains(early.value, d) <==> Contains(s'.index.bloom, d))
      && (Contains(late.value, d) <==> Contains(s.index.bloom, d))
  {
    var s := Run(c, Init(c), a);
    VersionNamesFilter(c, s, b);
    ParseSerialise(s.index.bloom);
  }
}
