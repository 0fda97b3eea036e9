/** The hydrate planner (src/hydrate.rs): run_coordinator lists blobs, cuts them into chunks and deals
    the chunks out to the nodes; in the broadcast phase every node then pulls the other nodes' chunks,
    interleaved over the sources, and the losses are accounted for. */
module Hydrate {
  import opened Core
  import opened ReadPath
  import Paths
  import Ring

  datatype ChunkSpec = ChunkSpec(blob: string, offset: nat, len: nat)

  datatype Listed = Listed(name: string, size: u64)

  // ---- Cutting blobs into chunks ----

  // The chunk at o as every part of the system cuts a blob of this size.
  predicate IsChunk(x: ChunkSpec, path: string, size: nat, cs: nat)
    requires cs > 0
  {
    x.blob == path && x.offset % cs == 0 && x.offset < size && x.len == Min(cs, size - x.offset)
  }

  // xs are exactly the chunks of the blob below `to`, each once, in order.
  ghost predicate Cut(xs: seq<ChunkSpec>, path: string, size: nat, cs: nat, to: nat)
    requires cs > 0
  {
    && (forall i | 0 <= i < |xs| :: IsChunk(xs[i], path, size, cs) && xs[i].offset < to)
    && (forall i, j | 0 <= i < j < |xs| :: xs[i].offset < xs[j].offset)
    && (forall x :: IsChunk(x, path, size, cs) && x.offset < to ==> x in xs)
  }

  // The chunks leave no gap and do not overlap.
  ghost predicate EndToEnd(xs: seq<ChunkSpec>, to: nat) {
    && (forall i | 0 <= i < |xs| :: xs[i].offset == if i == 0 then 0 else xs[i - 1].offset + xs[i - 1].len)
    && to == if xs == [] then 0 else xs[|xs| - 1].offset + xs[|xs| - 1].len
  }

  lemma EmptyCut(path: string, size: nat, cs: nat)
    requires cs > 0
    ensures Cut([], path, size, cs, 0)
  {
  }

  // The inner loop over one blob.
  method CutBlob(path: string, size: u64, cs: nat) returns (xs: seq<ChunkSpec>)
    requires cs > 0
    ensures Cut(xs, path, size, cs, size)
    ensures xs == [] <==> size == 0
    ensures EndToEnd(xs, size)
  {
    hide Cut, IsChunk;
    EmptyCut(path, size, cs);
    xs := [];
    var off := 0;
    while off < size
      invariant off <= size && (off < size ==> off % cs == 0)
      invariant Cut(xs, path, size, cs, off)
      invariant xs == [] <==> off == 0
      invariant EndToEnd(xs, off)
    {
      var len := Min(cs, size - off);
      var x := ChunkSpec(path, off, len);
      CutNext(xs, path, size, cs, off, x);
      xs := xs + [x];
      if off + cs < size {
        NextBoundary(off, cs);
      }
      off := off + len;
    }
  }

  lemma CutNext(xs: seq<ChunkSpec>, path: string, size: nat, cs: nat, off: nat, x: ChunkSpec)
    requires cs > 0 && off < size && off % cs == 0 && Cut(xs, path, size, cs, off)
    requires x == ChunkSpec(path, off, Min(cs, size - off))
    ensures Cut(xs + [x], path, size, cs, off + x.len)
  {
    forall y | IsChunk(y, path, size, cs) && y.offset < off + x.len
      ensures y in xs + [x]
    {
      if y.offset > off {
        BoundaryGap(y.offset, off, cs);
      }
    }
  }

  // x is a chunk of some listed blob.
  ghost predicate OfListing(x: ChunkSpec, prefix: string, listing: seq<Listed>, cs: nat)
    requires cs > 0
  {
    exists i | 0 <= i < |listing| :: IsChunk(x, Paths.HydratePath(prefix, listing[i].name), listing[i].size, cs)
  }

  ghost predicate NoRepeats<T>(xs: seq<T>) {
    forall i, j | 0 <= i < j < |xs| :: xs[i] != xs[j]
  }

  // No two listed blobs get the same key.
  ghost predicate KeysApart(prefix: string, listing: seq<Listed>) {
    forall i, j | 0 <= i < j < |listing| ::
      Paths.HydratePath(prefix, listing[i].name) != Paths.HydratePath(prefix, listing[j].name)
  }

  // Keys are apart in a listing if and only if no name is listed twice and no two names are ones that
  // hydrate cannot tell apart.
  lemma KeysApartIff(prefix: string, listing: seq<Listed>)
    ensures KeysApart(prefix, listing) <==>
      forall i, j | 0 <= i < j < |listing| ::
        && listing[i].name != listing[j].name
        && (prefix == "" || !Paths.Confused(prefix, listing[i].name, listing[j].name))
  {
    hide Paths.HydratePath, Paths.Confused;
    forall i, j | 0 <= i < j < |listing|
      ensures Paths.HydratePath(prefix, listing[i].name) == Paths.HydratePath(prefix, listing[j].name) <==>
        || listing[i].name == listing[j].name
        || (prefix != "" && Paths.Confused(prefix, listing[i].name, listing[j].name))
    {
      Paths.SameKeyIff(prefix, listing[i].name, listing[j].name);
    }
  }

  // What the store may answer to a request: blobs with the listing prefix, no name twice.
  ghost predicate ListedBy(prefix: string, path: string, listing: seq<Listed>) {
    && (forall i | 0 <= i < |listing| :: Paths.Lists(prefix, path, listing[i].name))
    && (forall i, j | 0 <= i < j < |listing| :: listing[i].name != listing[j].name)
  }

  // Whatever the store lists, the keys are apart, if and only if the mount has no prefix or the path of
  // the request names something.
  lemma RequestKeepsKeysApart(prefix: string, path: string)
    ensures (forall listing | ListedBy(prefix, path, listing) :: KeysApart(prefix, listing)) <==>
      prefix == "" || Paths.NamesSomething(path)
  {
    hide Paths.HydratePath, Paths.Lists, Paths.NamesSomething;
    Paths.RequestTellsApart(prefix, path);
    if prefix != "" && !Paths.NamesSomething(path) {
      var a, b := Paths.Collision(prefix, path);
      var listing := [Listed(a, 1), Listed(b, 1)];
      assert listing[0].name == a && listing[1].name == b;
      assert ListedBy(prefix, path, listing);
    }
  }

  // The outer loop over the listing: exactly the chunks of the listed blobs, each once.
  method Enumerate(prefix: string, listing: seq<Listed>, cs: nat) returns (all: seq<ChunkSpec>)
    requires cs > 0
    ensures forall x :: x in all <==> OfListing(x, prefix, listing, cs)
    ensures KeysApart(prefix, listing) ==> NoRepeats(all)
  {
    all := [];
    for i := 0 to |listing|
      invariant forall x :: x in all <==> OfListing(x, prefix, listing[..i], cs)
      invariant KeysApart(prefix, listing) ==> NoRepeats(all)
    {
      var path := Paths.HydratePath(prefix, listing[i].name);
      assert listing[..i + 1] == listing[..i] + [listing[i]];
      if listing[i].size == 0 {
        NoChunks(prefix, listing[..i], listing[i], cs);
        continue;
      }
      var xs := CutBlob(path, listing[i].size, cs);
      OneMore(prefix, listing[..i], listing[i], cs, all, xs);
      all := all + xs;
    }
    assert listing[..|listing|] == listing;
  }

  lemma NoChunks(prefix: string, before: seq<Listed>, l: Listed, cs: nat)
    requires cs > 0 && l.size == 0
    ensures forall x :: OfListing(x, prefix, before + [l], cs) <==> OfListing(x, prefix, before, cs)
  {
    forall x
      ensures OfListing(x, prefix, before + [l], cs) <==> OfListing(x, prefix, before, cs)
    {
      OfMore(x, prefix, before, l, cs);
    }
  }

  lemma OfMore(x: ChunkSpec, prefix: string, before: seq<Listed>, l: Listed, cs: nat)
    requires cs > 0
    ensures OfListing(x, prefix, before + [l], cs) <==>
      OfListing(x, prefix, before, cs) || IsChunk(x, Paths.HydratePath(prefix, l.name), l.size, cs)
  {
    hide IsChunk;
    var ls := before + [l];
    if OfListing(x, prefix, before, cs) {
      var i :| 0 <= i < |before| && IsChunk(x, Paths.HydratePath(prefix, before[i].name), before[i].size, cs);
      assert ls[i] == before[i];
    }
    if IsChunk(x, Paths.HydratePath(prefix, l.name), l.size, cs) {
      assert ls[|before|] == l;
    }
  }

  lemma OneMore(prefix: string, before: seq<Listed>, l: Listed, cs: nat, all: seq<ChunkSpec>, xs: seq<ChunkSpec>)
    requires cs > 0 && (forall x :: x in all <==> OfListing(x, prefix, before, cs))
    requires Cut(xs, Paths.HydratePath(prefix, l.name), l.size, cs, l.size)
    ensures forall x :: x in all + xs <==> OfListing(x, prefix, before + [l], cs)
    ensures KeysApart(prefix, before + [l]) && NoRepeats(all) ==> NoRepeats(all + xs)
  {
    var path := Paths.HydratePath(prefix, l.name);
    forall x
      ensures x in all + xs <==> OfListing(x, prefix, before + [l], cs)
    {
      OfMore(x, prefix, before, l, cs);
      assert x in xs <==> IsChunk(x, path, l.size, cs);
    }
    if KeysApart(prefix, before + [l]) && NoRepeats(all) {
      forall x | x in all
        ensures x !in xs
      {
        assert OfListing(x, prefix, before, cs);
        var i :| 0 <= i < |before| && IsChunk(x, Paths.HydratePath(prefix, before[i].name), before[i].size, cs);
        assert (before + [l])[i] == before[i] && (before + [l])[|before|] == l;
      }
    }
  }

  // ---- Dealing the chunks out ----

  // How many of the first i chunks go to bucket j.
  function Share(i: nat, n: nat, j: nat): nat
    requires j < n
  {
    if j < i % n then i / n + 1 else i / n
  }

  lemma ShareNext(i: nat, n: nat, j: nat)
    requires j < n
    ensures Share(i + 1, n, j) == Share(i, n, j) + if j == i % n then 1 else 0
  {
    var q, r := i / n, i % n;
    assert i == q * n + r;
    if r + 1 < n {
      DivUnique(i + 1, q, r + 1, n);
    } else {
      assert (q + 1) * n == q * n + n;
      DivUnique(i + 1, q + 1, 0, n);
    }
  }

  function Concat<T>(bs: seq<seq<T>>): seq<T> {
    if bs == [] then [] else bs[0] + Concat(bs[1..])
  }

  lemma {:induction false} ConcatPush<T>(bs: seq<seq<T>>, j: nat, x: T)
    requires j < |bs|
    ensures multiset(Concat(bs[j := bs[j] + [x]])) == multiset(Concat(bs)) + multiset{x}
  {
    var bs' := bs[j := bs[j] + [x]];
    if j > 0 {
      assert bs'[1..] == bs[1..][j - 1 := bs[1..][j - 1] + [x]];
      ConcatPush(bs[1..], j - 1, x);
    } else {
      assert bs'[1..] == bs[1..];
    }
  }

  lemma {:induction false} ConcatEmpty<T>(bs: seq<seq<T>>)
    requires forall j | 0 <= j < |bs| :: bs[j] == []
    ensures Concat(bs) == []
  {
    if bs != [] {
      ConcatEmpty(bs[1..]);
    }
  }

  // Of the first i chunks, number h is in bucket h % n at place h / n, and there is nothing else.
  ghost predicate Dealt<T>(xs: seq<T>, buckets: seq<seq<T>>, i: nat)
    requires i <= |xs|
  {
    var n := |buckets|;
    && (forall j | 0 <= j < n :: |buckets[j]| == Share(i, n, j))
    && (forall h | 0 <= h < i :: n > 0 && h / n < |buckets[h % n]| && buckets[h % n][h / n] == xs[h])
  }

  lemma DealtNext<T>(xs: seq<T>, buckets: seq<seq<T>>, i: nat)
    requires i < |xs| && |buckets| > 0 && Dealt(xs, buckets, i)
    ensures Dealt(xs, buckets[i % |buckets| := buckets[i % |buckets|] + [xs[i]]], i + 1)
  {
    var n := |buckets|;
    var b := i % n;
    var buckets' := buckets[b := buckets[b] + [xs[i]]];
    forall j | 0 <= j < n
      ensures |buckets'[j]| == Share(i + 1, n, j)
    {
      ShareNext(i, n, j);
    }
    forall h | 0 <= h < i + 1
      ensures h / n < |buckets'[h % n]| && buckets'[h % n][h / n] == xs[h]
    {
      if h < i {
        assert h / n < |buckets[h % n]| && buckets[h % n][h / n] == xs[h];
      } else {
        assert |buckets[b]| == Share(i, n, b) == i / n;
      }
    }
  }

  // The sharding loop: a partition into buckets whose sizes differ by at most one, earlier buckets
  // getting the extra chunks.
  method Deal<T>(xs: seq<T>, n: nat) returns (buckets: seq<seq<T>>)
    requires n > 0
    ensures |buckets| == n && Dealt(xs, buckets, |xs|)
    ensures multiset(Concat(buckets)) == multiset(xs)
    ensures forall j, k | 0 <= j < k < n :: |buckets[k]| <= |buckets[j]| <= |buckets[k]| + 1
  {
    buckets := seq(n, _ => []);
    ConcatEmpty(buckets);
    assert forall j | 0 <= j < n :: Share(0, n, j) == 0;
    assert Dealt(xs, buckets, 0);
    hide Dealt, Concat;
    for i := 0 to |xs|
      invariant |buckets| == n
      invariant multiset(Concat(buckets)) == multiset(xs[..i])
      invariant Dealt(xs, buckets, i)
    {
      assert xs[..i + 1] == xs[..i] + [xs[i]];
      ConcatPush(buckets, i % n, xs[i]);
      DealtNext(xs, buckets, i);
      buckets := buckets[i % n := buckets[i % n] + [xs[i]]];
    }
    assert xs[..|xs|] == xs;
    DealtEvenly(xs, buckets);
  }

  lemma DealtEvenly<T>(xs: seq<T>, buckets: seq<seq<T>>)
    requires Dealt(xs, buckets, |xs|)
    ensures forall j, k | 0 <= j < k < |buckets| :: |buckets[k]| <= |buckets[j]| <= |buckets[k]| + 1
  {
  }

  // ---- Who pulls what in the broadcast phase ----

  datatype Entry = Entry(node: string, chunks: seq<ChunkSpec>)

  // What a receiver pulls: the entries of the plan that name another node.
  function Sources(plan: seq<Entry>, receiver: string): seq<Entry> {
    if plan == [] then []
    else (if plan[0].node != receiver then [plan[0]] else []) + Sources(plan[1..], receiver)
  }

  function Chunks(plan: seq<Entry>): seq<ChunkSpec> {
    if plan == [] then [] else plan[0].chunks + Chunks(plan[1..])
  }

  ghost predicate NodesApart(plan: seq<Entry>) {
    forall i, j | 0 <= i < j < |plan| :: plan[i].node != plan[j].node
  }

  // Its own bucket and what it pulls are together every chunk, each as often as it was planned.
  lemma {:induction false} EveryReceiverGetsEverything(plan: seq<Entry>, r: nat)
    requires NodesApart(plan) && r < |plan|
    ensures multiset(plan[r].chunks) + multiset(Chunks(Sources(plan, plan[r].node))) == multiset(Chunks(plan))
  {
    var rest := plan[1..];
    assert forall i | 0 <= i < |rest| :: rest[i] == plan[i + 1];
    if r == 0 {
      SourcesOfStranger(rest, plan[0].node);
      assert Sources(plan, plan[0].node) == [] + Sources(rest, plan[0].node) == rest;
    } else {
      EveryReceiverGetsEverything(rest, r - 1);
      assert Sources(plan, plan[r].node) == [plan[0]] + Sources(rest, plan[r].node);
      assert ([plan[0]] + Sources(rest, plan[r].node))[1..] == Sources(rest, plan[r].node);
    }
  }

  lemma {:induction false} SourcesOfStranger(plan: seq<Entry>, node: string)
    requires forall i | 0 <= i < |plan| :: plan[i].node != node
    ensures Sources(plan, node) == plan
  {
    if plan != [] {
      SourcesOfStranger(plan[1..], node);
    }
  }

  datatype Member = Member(node: string, alive: bool)

  // The coordinator first, then everybody else who is alive.
  method Targets(me: string, members: seq<Member>) returns (ts: seq<string>)
    requires forall i, j | 0 <= i < j < |members| :: members[i].node != members[j].node
    ensures ts != [] && ts[0] == me && NoRepeats(ts)
    ensures forall t :: t in ts <==> t == me || exists i | 0 <= i < |members| :: members[i] == Member(t, true)
  {
    ts := [me];
    for i := 0 to |members|
      invariant ts != [] && ts[0] == me && NoRepeats(ts)
      invariant forall t | t in ts :: t == me || exists j | 0 <= j < i :: members[j] == Member(t, true)
      invariant forall j | 0 <= j < i && members[j].alive :: members[j].node in ts
    {
      if members[i].alive && members[i].node != me {
        assert members[i] == Member(members[i].node, true);
        ts := ts + [members[i].node];
      }
    }
  }

  // Everything run_coordinator plans, from the listing to the buckets.
  method PlanHydrate(prefix: string, listing: seq<Listed>, cs: nat, targets: seq<string>) returns (plan: seq<Entry>)
    requires cs > 0 && targets != [] && NoRepeats(targets)
    ensures |plan| == |targets| && (forall j | 0 <= j < |plan| :: plan[j].node == targets[j]) && NodesApart(plan)
    ensures forall x :: x in Chunks(plan) <==> OfListing(x, prefix, listing, cs)
    ensures KeysApart(prefix, listing) ==> forall x :: multiset(Chunks(plan))[x] <= 1
    ensures forall j, k | 0 <= j < k < |plan| :: |plan[k].chunks| <= |plan[j].chunks| <= |plan[k].chunks| + 1
  {
    hide Chunks, Concat, OfListing, Dealt, KeysApart;
    var all := Enumerate(prefix, listing, cs);
    var buckets := Deal(all, |targets|);
    plan := [];
    for j := 0 to |targets|
      invariant |plan| == j && forall i | 0 <= i < j :: plan[i] == Entry(targets[i], buckets[i])
    {
      plan := plan + [Entry(targets[j], buckets[j])];
    }
    PlanChunks(plan, buckets);
    Reordered(Chunks(plan), all);
  }

  lemma Reordered<T(!new)>(xs: seq<T>, ys: seq<T>)
    requires multiset(xs) == multiset(ys)
    ensures forall x :: x in xs <==> x in ys
    ensures NoRepeats(ys) ==> forall x :: multiset(xs)[x] <= 1
  {
    forall x
      ensures x in xs <==> x in ys
      ensures NoRepeats(ys) ==> multiset(xs)[x] <= 1
    {
      assert x in xs <==> x in multiset(xs);
      assert x in ys <==> x in multiset(ys);
      if NoRepeats(ys) {
        OnceEach(ys, x);
      }
    }
  }

  lemma {:induction false} PlanChunks(plan: seq<Entry>, buckets: seq<seq<ChunkSpec>>)
    requires |plan| == |buckets| && forall i | 0 <= i < |plan| :: plan[i].chunks == buckets[i]
    ensures Chunks(plan) == Concat(buckets)
  {
    if plan != [] {
      PlanChunks(plan[1..], buckets[1..]);
    }
  }

  lemma {:induction false} OnceEach<T>(xs: seq<T>, x: T)
    requires NoRepeats(xs)
    ensures multiset(xs)[x] <= 1
  {
    if xs != [] {
      OnceEach(xs[1..], x);
      assert xs == [xs[0]] + xs[1..];
      assert x == xs[0] ==> x !in xs[1..];
    }
  }

  // After a complete hydrate every node holds the chunk behind every later read of a listed blob: it
  // was dealt to the node itself, or it is among what the node pulls.
  lemma HydrateCovers(prefix: string, listing: seq<Listed>, cs: nat, plan: seq<Entry>, r: nat, i: nat, p: Piece)
    requires cs > 0 && NodesApart(plan) && r < |plan| && i < |listing| && InChunk(p, cs, listing[i].size)
    requires forall x :: x in Chunks(plan) <==> OfListing(x, prefix, listing, cs)
    ensures
      var x := ChunkSpec(Paths.HydratePath(prefix, listing[i].name), p.chunk, p.chunkLen);
      x in plan[r].chunks || x in Chunks(Sources(plan, plan[r].node))
  {
    var x := ChunkSpec(Paths.HydratePath(prefix, listing[i].name), p.chunk, p.chunkLen);
    assert IsChunk(x, Paths.HydratePath(prefix, listing[i].name), listing[i].size, cs);
    assert OfListing(x, prefix, listing, cs);
    EveryReceiverGetsEverything(plan, r);
    assert x in multiset(Chunks(plan));
    assert x in multiset(plan[r].chunks) + multiset(Chunks(Sources(plan, plan[r].node)));
  }

  // The same in terms of the key a mount uses: hydrate and the later read meet if prefix and name are
  // plain.
  lemma HydrateCoversMount(prefix: string, listing: seq<Listed>, cs: nat, plan: seq<Entry>, r: nat, i: nat, p: Piece)
    requires cs > 0 && NodesApart(plan) && r < |plan| && i < |listing| && InChunk(p, cs, listing[i].size)
    requires forall x :: x in Chunks(plan) <==> OfListing(x, prefix, listing, cs)
    requires Paths.FusePrefix(prefix) < listing[i].name && Paths.Plain(prefix, listing[i].name)
    ensures
      var x := ChunkSpec(Paths.FusePath(prefix, listing[i].name), p.chunk, p.chunkLen);
      x in plan[r].chunks || x in Chunks(Sources(plan, plan[r].node))
  {
    hide Paths.Plain, Paths.HydratePath, OfListing;
    Paths.HydrateWarmsTheMount(prefix, listing[i].name);
    HydrateCovers(prefix, listing, cs, plan, r, i, p);
  }

  // ---- The plan as a ring ----

  function Shard(mount: string, e: Entry): set<ChunkKey> {
    set x | x in e.chunks :: ChunkKey(mount, x.blob, x.offset)
  }

  function Shards(mount: string, plan: seq<Entry>): seq<set<ChunkKey>> {
    seq(|plan|, i requires 0 <= i < |plan| => Shard(mount, plan[i]))
  }

  lemma {:induction false} InChunks(plan: seq<Entry>, i: nat, x: ChunkSpec)
    requires i < |plan| && x in plan[i].chunks
    ensures x in Chunks(plan)
  {
    if i > 0 {
      InChunks(plan[1..], i - 1, x);
    }
  }

  lemma {:induction false} PlannedTwice(plan: seq<Entry>, i: nat, j: nat, x: ChunkSpec)
    requires i < j < |plan| && x in plan[i].chunks && x in plan[j].chunks
    ensures multiset(Chunks(plan))[x] >= 2
  {
    if i > 0 {
      PlannedTwice(plan[1..], i - 1, j - 1, x);
    } else {
      InChunks(plan[1..], j - 1, x);
      assert x in multiset(plan[0].chunks) && x in multiset(Chunks(plan[1..]));
    }
  }

  // With keys apart, a key belongs to one planned chunk.
  lemma OneChunkPerKey(prefix: string, listing: seq<Listed>, cs: nat, x: ChunkSpec, y: ChunkSpec)
    requires cs > 0 && KeysApart(prefix, listing) && x.blob == y.blob && x.offset == y.offset
    requires OfListing(x, prefix, listing, cs) && OfListing(y, prefix, listing, cs)
    ensures x == y
  {
    hide Paths.HydratePath;
    var i :| 0 <= i < |listing| && IsChunk(x, Paths.HydratePath(prefix, listing[i].name), listing[i].size, cs);
    var j :| 0 <= j < |listing| && IsChunk(y, Paths.HydratePath(prefix, listing[j].name), listing[j].size, cs);
    assert i == j;
  }

  // The plan, in whatever order of nodes, is a ring the all-gather theorems apply to, once every node
  // has its own bucket.
  lemma PlanIsRing(mount: string, prefix: string, listing: seq<Listed>, cs: nat, plan: seq<Entry>,
                   init: seq<set<ChunkKey>>, drain: bool)
    requires cs > 0 && plan != [] && KeysApart(prefix, listing)
    requires forall x :: x in Chunks(plan) <==> OfListing(x, prefix, listing, cs)
    requires forall x :: multiset(Chunks(plan))[x] <= 1
    requires |init| == |plan| && forall i | 0 <= i < |plan| :: Shard(mount, plan[i]) <= init[i]
    ensures Ring.WellFormed(Ring.Config(Shards(mount, plan), init, drain))
  {
    hide OfListing, KeysApart, Chunks;
    var shards := Shards(mount, plan);
    forall i, j | 0 <= i < j < |shards|
      ensures shards[i] !! shards[j]
    {
      forall k | k in shards[i]
        ensures k !in shards[j]
      {
        if k in shards[j] {
          var x :| x in plan[i].chunks && ChunkKey(mount, x.blob, x.offset) == k;
          var y :| y in plan[j].chunks && ChunkKey(mount, y.blob, y.offset) == k;
          InChunks(plan, i, x);
          InChunks(plan, j, y);
          OneChunkPerKey(prefix, listing, cs, x, y);
          PlannedTwice(plan, i, j, x);
          assert false;
        }
      }
    }
  }

  // ---- The order of the pulls ----

  datatype PullFrom<T> = PullFrom(source: nat, chunk: T)

  // The pulls from one source, in order.
  function From<T>(order: seq<PullFrom<T>>, i: nat): seq<T> {
    if order == [] then []
    else From(order[..|order| - 1], i) + (if order[|order| - 1].source == i then [order[|order| - 1].chunk] else [])
  }

  function Assigned<T>(sources: seq<seq<T>>): nat {
    if sources == [] then 0 else |sources[0]| + Assigned(sources[1..])
  }

  // No source with chunks left is more than one pull behind another such source.
  ghost predicate Fair<T>(order: seq<PullFrom<T>>, sources: seq<seq<T>>) {
    forall i, j | 0 <= i < |sources| && 0 <= j < |sources|
                  && |From(order, i)| < |sources[i]| && |From(order, j)| < |sources[j]| ::
      |From(order, i)| <= |From(order, j)| + 1
  }

  ghost predicate AlwaysFair<T>(order: seq<PullFrom<T>>, sources: seq<seq<T>>) {
    forall m | 0 <= m <= |order| :: Fair(order[..m], sources)
  }

  // In round r, with the sources before i served.
  ghost predicate InRound<T>(order: seq<PullFrom<T>>, sources: seq<seq<T>>, r: nat, i: nat) {
    forall j | 0 <= j < |sources| :: |From(order, j)| == Min(if j < i then r + 1 else r, |sources[j]|)
  }

  // What has been pulled and what is left make up every source.
  ghost predicate Remaining<T>(order: seq<PullFrom<T>>, sources: seq<seq<T>>, rest: seq<seq<T>>) {
    |rest| == |sources| && forall j | 0 <= j < |sources| :: From(order, j) + rest[j] == sources[j]
  }

  lemma FromSnoc<T>(order: seq<PullFrom<T>>, p: PullFrom<T>, i: nat)
    ensures From(order + [p], i) == From(order, i) + if p.source == i then [p.chunk] else []
  {
    assert (order + [p])[..|order|] == order;
  }

  lemma {:induction false} AssignedPop<T>(rest: seq<seq<T>>, i: nat)
    requires i < |rest| && rest[i] != []
    ensures Assigned(rest[i := rest[i][1..]]) == Assigned(rest) - 1
  {
    var rest' := rest[i := rest[i][1..]];
    if i == 0 {
      assert rest'[1..] == rest[1..];
    } else {
      assert rest'[1..] == rest[1..][i - 1 := rest[1..][i - 1][1..]];
      AssignedPop(rest[1..], i - 1);
    }
  }

  lemma {:induction false} AssignedNone<T>(rest: seq<seq<T>>)
    requires forall j | 0 <= j < |rest| :: rest[j] == []
    ensures Assigned(rest) == 0
  {
    if rest != [] {
      AssignedNone(rest[1..]);
    }
  }

  lemma RoundIsFair<T>(order: seq<PullFrom<T>>, sources: seq<seq<T>>, r: nat, i: nat)
    requires InRound(order, sources, r, i)
    ensures Fair(order, sources)
  {
  }

  lemma PullSplits<T>(order: seq<PullFrom<T>>, sources: seq<seq<T>>, rest: seq<seq<T>>, i: nat)
    requires Remaining(order, sources, rest) && i < |rest| && rest[i] != []
    ensures Remaining(order + [PullFrom(i, rest[i][0])], sources, rest[i := rest[i][1..]])
  {
    var p := PullFrom(i, rest[i][0]);
    forall j | 0 <= j < |sources|
      ensures From(order + [p], j) + rest[i := rest[i][1..]][j] == sources[j]
    {
      FromSnoc(order, p, j);
      assert From(order, j) + rest[j] == sources[j];
    }
  }

  lemma PullAdvances<T>(order: seq<PullFrom<T>>, sources: seq<seq<T>>, r: nat, i: nat, c: T)
    requires InRound(order, sources, r, i) && i < |sources| && r < |sources[i]|
    ensures InRound(order + [PullFrom(i, c)], sources, r, i + 1)
  {
    var p := PullFrom(i, c);
    forall j | 0 <= j < |sources|
      ensures |From(order + [p], j)| == Min(if j < i + 1 then r + 1 else r, |sources[j]|)
    {
      FromSnoc(order, p, j);
    }
  }

  lemma PullStaysFair<T>(order: seq<PullFrom<T>>, sources: seq<seq<T>>, p: PullFrom<T>)
    requires AlwaysFair(order, sources) && Fair(order + [p], sources)
    ensures AlwaysFair(order + [p], sources)
  {
    var order' := order + [p];
    forall m | 0 <= m <= |order'|
      ensures Fair(order'[..m], sources)
    {
      if m <= |order| {
        assert order'[..m] == order[..m];
      } else {
        assert order'[..m] == order';
      }
    }
  }

  // What one look at a source knows: it has chunks left exactly when it is longer than r.
  lemma LeftInRound<T>(order: seq<PullFrom<T>>, sources: seq<seq<T>>, rest: seq<seq<T>>, r: nat, i: nat)
    requires Remaining(order, sources, rest) && InRound(order, sources, r, i) && i < |sources|
    ensures rest[i] != [] <==> r < |sources[i]|
    ensures rest[i] == [] ==> InRound(order, sources, r, i + 1)
  {
    assert From(order, i) + rest[i] == sources[i];
  }

  lemma NewRound<T>(order: seq<PullFrom<T>>, sources: seq<seq<T>>, r: nat)
    requires InRound(order, sources, r, |sources|)
    ensures InRound(order, sources, r + 1, 0)
  {
  }

  lemma BeforeRounds<T>(sources: seq<seq<T>>)
    ensures InRound([], sources, 0, 0) && Remaining([], sources, sources) && AlwaysFair([], sources)
  {
  }

  // The round-robin loop: every chunk of every source exactly once, in its source's order, and fair
  // at every moment.
  method Interleave<T>(sources: seq<seq<T>>) returns (order: seq<PullFrom<T>>)
    ensures forall i | 0 <= i < |sources| :: From(order, i) == sources[i]
    ensures |order| == Assigned(sources)
    ensures AlwaysFair(order, sources)
  {
    hide Remaining, InRound, AlwaysFair, Fair, From, Assigned;
    order := [];
    var rest := sources;
    var anyLeft := true;
    ghost var r: nat := 0;
    BeforeRounds(sources);
    while anyLeft
      invariant Remaining(order, sources, rest) && InRound(order, sources, r, 0) && AlwaysFair(order, sources)
      invariant Assigned(rest) + |order| == Assigned(sources)
      invariant |rest| == |sources|
      invariant !anyLeft ==> forall j | 0 <= j < |rest| :: rest[j] == []
      decreases Assigned(rest), anyLeft
    {
      anyLeft := false;
      ghost var before := Assigned(rest);
      for i := 0 to |rest|
        invariant |rest| == |sources|
        invariant Remaining(order, sources, rest) && InRound(order, sources, r, i) && AlwaysFair(order, sources)
        invariant Assigned(rest) + |order| == Assigned(sources)
        invariant if anyLeft then Assigned(rest) < before else Assigned(rest) == before
        invariant !anyLeft ==> forall j | 0 <= j < i :: rest[j] == []
      {
        LeftInRound(order, sources, rest, r, i);
        if rest[i] != [] {
          anyLeft := true;
          var p := PullFrom(i, rest[i][0]);
          PullSplits(order, sources, rest, i);
          PullAdvances(order, sources, r, i, rest[i][0]);
          RoundIsFair(order + [p], sources, r, i + 1);
          PullStaysFair(order, sources, p);
          AssignedPop(rest, i);
          order, rest := order + [p], rest[i := rest[i][1..]];
        }
      }
      NewRound(order, sources, r);
      r := r + 1;
    }
    AssignedNone(rest);
    AllPulled(order, sources, rest);
  }

  lemma AllPulled<T>(order: seq<PullFrom<T>>, sources: seq<seq<T>>, rest: seq<seq<T>>)
    requires Remaining(order, sources, rest) && forall j | 0 <= j < |rest| :: rest[j] == []
    ensures forall i | 0 <= i < |sources| :: From(order, i) == sources[i]
  {
    forall i | 0 <= i < |sources|
      ensures From(order, i) == sources[i]
    {
      assert From(order, i) + rest[i] == sources[i];
    }
  }

  // ---- Accounting ----

  const ERROR_CAP: nat := 32

  datatype Report =
    | Failed(pull: nat)
    | SilentLoss(planned: nat, fetched: nat, reported: nat, lost: nat)
    | ProtocolSkew(mine: nat, theirs: nat)

  function Failures(results: seq<Result<nat>>): seq<nat> {
    if results == [] then []
    else Failures(results[..|results| - 1]) + if results[|results| - 1].Err? then [|results| - 1] else []
  }

  lemma {:induction false} FailuresAre(results: seq<Result<nat>>)
    ensures |Failures(results)| <= |results|
    ensures forall i :: i in Failures(results) <==> 0 <= i < |results| && results[i].Err?
    ensures forall i, j | 0 <= i < j < |Failures(results)| :: Failures(results)[i] < Failures(results)[j]
  {
    if results != [] {
      FailuresAre(results[..|results| - 1]);
      var before := Failures(results[..|results| - 1]);
      assert forall i | 0 <= i < |before| :: before[i] in before;
    }
  }

  function Reports(failures: seq<nat>): seq<Report> {
    seq(|failures|, i requires 0 <= i < |failures| => Failed(failures[i]))
  }

  lemma NoneFailed(results: seq<Result<nat>>)
    ensures Failures(results) == [] <==> forall i | 0 <= i < |results| :: results[i].Ok?
  {
    FailuresAre(results);
    var failed := Failures(results);
    if failed != [] {
      assert failed[0] in failed;
    } else {
      assert forall i | 0 <= i < |results| :: i !in failed;
    }
  }

  // Every assigned chunk is fetched, reported as one of the first 32 failures, or counted as lost.
  function Accounted(n: nat, failed: seq<nat>): (errors: seq<Report>)
    requires |failed| <= n
    ensures errors == [] <==> failed == []
  {
    if |failed| <= ERROR_CAP then Reports(failed)
    else Reports(failed[..ERROR_CAP]) + [SilentLoss(n, n - |failed|, ERROR_CAP, |failed| - ERROR_CAP)]
  }

  // The receiver's accounting loop and its silent-loss check.
  method Account(results: seq<Result<nat>>) returns (fetched: nat, errors: seq<Report>)
    requires |results| < U64_LIMIT
    ensures fetched + |Failures(results)| == |results| && errors == Accounted(|results|, Failures(results))
    ensures errors == [] <==> forall i | 0 <= i < |results| :: results[i].Ok?
    ensures errors == [] <==> fetched == |results|
    // the first 32 failed pulls by their number; beyond that, one entry with the number of the rest
    ensures
      var failed := Failures(results);
      && |errors| == Min(|failed|, 33)
      && (forall i | 0 <= i < |failed| && i < 32 :: errors[i] == Failed(failed[i]))
      && (|failed| > 32 ==> errors[32] == SilentLoss(|results|, fetched, 32, |failed| - 32))
  {
    fetched, errors := 0, [];
    for i := 0 to |results|
      invariant fetched + |Failures(results[..i])| == i
      invariant errors == Reports(Failures(results[..i])[..Min(|Failures(results[..i])|, ERROR_CAP)])
    {
      assert results[..i + 1][..i] == results[..i];
      match results[i]
      case Ok(_) => fetched := fetched + 1;
      case Err =>
        if |errors| < ERROR_CAP {
          errors := errors + [Failed(i)];
        }
    }
    assert results[..|results|] == results;
    NoneFailed(results);
    hide Failures;
    var accounted := fetched + |errors|;
    if accounted < |results| {
      var lost := |results| - accounted;
      errors := errors + [SilentLoss(|results|, fetched, |errors|, lost)];
    }
  }

  datatype Response = Response(fetched: u64, errors: seq<Report>, planned: u64)

  // The coordinator's cross-check of a receiver's answer.
  function Checked(planned: u64, s: Response): (errors: seq<Report>)
    // nothing to report exactly when the answer accounts for all of the chunks, whatever its sender says
    ensures errors == [] <==> s.errors == [] && (s.planned == 0 || s.planned == planned) && s.fetched >= planned
    // a disagreement about the number of chunks comes first, then all that the sender reported
    ensures
      var skew := s.planned != 0 && s.planned != planned;
      var n := if skew then 1 else 0;
      && n + |s.errors| <= |errors| && errors[n..n + |s.errors|] == s.errors
      && (skew ==> errors[0] == ProtocolSkew(planned, s.planned))
  {
    var errors := (if s.planned != 0 && s.planned != planned then [ProtocolSkew(planned, s.planned)] else [])
      + s.errors;
    var accounted := Min(s.fetched + |errors|, U64_MAX);
    if accounted < planned
    then errors + [SilentLoss(planned, s.fetched, |errors|, planned - accounted)]
    else errors
  }

  // An honest answer is reported clean exactly when everything was fetched; beyond 33 failures the
  // coordinator counts the receiver's own loss entry as one failure, and so one lost chunk less.
  lemma HonestAnswerChecked(n: u64, failed: seq<nat>)
    requires |failed| <= n
    ensures
      var f, errors := |failed|, Accounted(n, failed);
      var out := Checked(n, Response(n - f, errors, n));
      && (out == [] <==> failed == [])
      && out == if f <= ERROR_CAP + 1 then errors
                else errors + [SilentLoss(n, n - f, ERROR_CAP + 1, f - ERROR_CAP - 1)]
  {
    hide Accounted, Checked;
    AccountedLength(n, failed);
    CheckedIs(n, n - |failed|, Accounted(n, failed));
  }

  // The cross-check of an answer that agrees on the number of chunks.
  lemma CheckedIs(n: u64, fetched: u64, errors: seq<Report>)
    requires fetched <= n
    ensures Checked(n, Response(fetched, errors, n)) ==
      if fetched + |errors| < n then errors + [SilentLoss(n, fetched, |errors|, n - fetched - |errors|)] else errors
  {
    assert [] + errors == errors;
  }

  lemma AccountedLength(n: nat, failed: seq<nat>)
    requires |failed| <= n
    ensures |Accounted(n, failed)| == Min(|failed|, ERROR_CAP + 1)
  {
  }

  // A broadcast shard from its sources to its report.
  method BroadcastShard(sources: seq<seq<ChunkSpec>>, pull: (nat, ChunkSpec) -> Result<nat>)
    returns (order: seq<PullFrom<ChunkSpec>>, fetched: nat, errors: seq<Report>)
    requires Assigned(sources) < U64_LIMIT
    ensures forall i | 0 <= i < |sources| :: From(order, i) == sources[i]
    ensures |order| == Assigned(sources) && AlwaysFair(order, sources)
    ensures errors == [] <==> forall p | p in order :: pull(p.source, p.chunk).Ok?
    ensures errors == [] <==> fetched == Assigned(sources)
  {
    order := Interleave(sources);
    var results := seq(|order|, i requires 0 <= i < |order| => pull(order[i].source, order[i].chunk));
    fetched, errors := Account(results);
    assert forall i | 0 <= i < |order| :: results[i] == pull(order[i].source, order[i].chunk);
  }
}
