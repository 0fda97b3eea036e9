/** The ring phase of a hydrate (run_ring_phase and run_ring_step in src/hydrate.rs): an all-gather of
    the shards in world - 1 steps. In step k every node pulls from its predecessor the shard that
    started k places back; the pulls, the background writes and the answers of a step happen in any
    order, and the coordinator waits for all answers before it starts the next step. */
module Ring {
  import opened Core

  // What the coordinator sends to one receiver: whom to pull from, and whose shard.
  datatype Request = Request(prev: nat, source: nat)

  lemma Wrap(n: nat, w: nat)
    requires n < w + w
    ensures n % w == if n < w then n else n - w
  {
    var q := n / w;
    assert n == q * w + n % w;
    if q >= 2 {
      assert q * w == w + w + (q - 2) * w;
    }
  }

  function Prev(w: nat, i: nat): nat
    requires i < w
  {
    (i + w - 1) % w
  }

  function Source(w: nat, i: nat, k: nat): (r: nat)
    requires i < w && k <= w
    ensures r < w && r == if k <= i then i - k else i + w - k
  {
    Wrap(i + w - k, w);
    (i + w - k) % w
  }

  // The requests of one step, in rank order.
  method StepRequests(w: nat, k: nat) returns (rs: seq<Request>)
    requires 1 <= k < w
    ensures |rs| == w
    ensures forall i | 0 <= i < w :: rs[i] == Request(Prev(w, i), Source(w, i, k)) && rs[i].prev < w && rs[i].source < w
    // the predecessor is asked for the shard it itself pulled one step earlier, or owns
    ensures forall i | 0 <= i < w :: rs[i].source == Source(w, rs[i].prev, k - 1)
    // no two nodes pull from the same node, or the same shard, and nobody pulls its own
    ensures forall i, j | 0 <= i < j < w :: rs[i].prev != rs[j].prev && rs[i].source != rs[j].source
    ensures forall i | 0 <= i < w :: rs[i].source != i
  {
    rs := [];
    for i := 0 to w
      invariant |rs| == i
      invariant forall j | 0 <= j < i :: rs[j] == Request(Prev(w, j), Source(w, j, k))
    {
      rs := rs + [Request((i + w - 1) % w, (i + w - k) % w)];
    }
    forall i | 0 <= i < w
      ensures rs[i].prev < w && rs[i].source == Source(w, rs[i].prev, k - 1)
    {
      PassedOn(w, i, k);
    }
    forall i, j | 0 <= i < j < w
      ensures rs[i].prev != rs[j].prev && rs[i].source != rs[j].source
    {
      assert rs[i].prev == Source(w, i, 1) && rs[j].prev == Source(w, j, 1);
    }
  }

  // The shard a node needs in step k is the one its predecessor got in step k - 1.
  lemma PassedOn(w: nat, i: nat, k: nat)
    requires i < w && 1 <= k <= w
    ensures Prev(w, i) < w && Source(w, Prev(w, i), k - 1) == Source(w, i, k)
  {
    assert Prev(w, i) == Source(w, i, 1);
  }

  lemma SourcesDiffer(w: nat, i: nat, j: nat, k: nat)
    requires i < w && j < w && k < w && j != k
    ensures Source(w, i, j) != Source(w, i, k)
  {
  }

  // Every shard comes by within world - 1 steps.
  lemma SourceReaches(w: nat, i: nat, r: nat) returns (j: nat)
    requires i < w && r < w
    ensures j < w && Source(w, i, j) == r
  {
    j := if r <= i then i - r else i + w - r;
  }

  datatype Pod = Pod(
    disk: set<ChunkKey>,
    staging: set<ChunkKey>,
    todo: set<ChunkKey>,        // of the current request, still to be pulled
    answered: bool,             // the step's response has been sent
    pulled: multiset<ChunkKey>, // obtained from the predecessor
    fallbacks: set<ChunkKey>)   // the predecessor did not have it: fetched from the blob store

  datatype State = State(step: nat, pods: seq<Pod>)

  datatype Action = Pull(pod: nat, key: ChunkKey) | Store(pod: nat, key: ChunkKey) | Answer(pod: nat) | NextStep

  // `drain`: run_ring_step waits for its background writes before it answers.
  datatype Config = Config(shards: seq<set<ChunkKey>>, init: seq<set<ChunkKey>>, drain: bool)

  ghost predicate WellFormed(c: Config) {
    && |c.shards| >= 1 && |c.init| == |c.shards|
    && (forall i | 0 <= i < |c.init| :: c.shards[i] <= c.init[i])
    && (forall i, j | 0 <= i < j < |c.shards| :: c.shards[i] !! c.shards[j])
  }

  // The shard a pod is to pull in step k; none once the ring is complete.
  function Asked(c: Config, i: nat, k: nat): set<ChunkKey>
    requires i < |c.shards|
  {
    if k < |c.shards| then c.shards[Source(|c.shards|, i, k)] else {}
  }

  function Start(c: Config): State
    requires WellFormed(c)
  {
    State(1, seq(|c.shards|, i requires 0 <= i < |c.shards| =>
      Pod(c.init[i], {}, Asked(c, i, 1), false, multiset{}, {})))
  }

  // pull_chunk_from_peer_wait: a chunk already on disk is not pulled again.
  function Pulled(p: Pod, prev: Pod, k: ChunkKey): Pod {
    if k !in p.todo then p
    else if k in p.disk then p.(todo := p.todo - {k})
    else if k in prev.disk then p.(todo := p.todo - {k}, staging := p.staging + {k}, pulled := p.pulled + multiset{k})
    else p.(todo := p.todo - {k}, staging := p.staging + {k}, fallbacks := p.fallbacks + {k})
  }

  function Stored(p: Pod, k: ChunkKey): Pod {
    if k in p.staging then p.(staging := p.staging - {k}, disk := p.disk + {k}) else p
  }

  predicate MayAnswer(c: Config, p: Pod) {
    p.todo == {} && (c.drain ==> p.staging == {})
  }

  function Step(c: Config, s: State, a: Action): State
    requires |s.pods| == |c.shards|
  {
    match a
    case Pull(i, k) =>
      if i >= |s.pods| then s else s.(pods := s.pods[i := Pulled(s.pods[i], s.pods[Prev(|s.pods|, i)], k)])
    case Store(i, k) =>
      if i >= |s.pods| then s else s.(pods := s.pods[i := Stored(s.pods[i], k)])
    case Answer(i) =>
      if i >= |s.pods| || !MayAnswer(c, s.pods[i]) then s else s.(pods := s.pods[i := s.pods[i].(answered := true)])
    case NextStep =>
      // the barrier
      if s.step >= |s.pods| || exists i | 0 <= i < |s.pods| :: !s.pods[i].answered then s
      else State(s.step + 1, seq(|s.pods|, i requires 0 <= i < |s.pods| =>
        s.pods[i].(todo := Asked(c, i, s.step + 1), answered := false)))
  }

  function Run(c: Config, s: State, acts: seq<Action>): State
    requires |s.pods| == |c.shards|
    decreases |acts|
  {
    if acts == [] then s else Run(c, Step(c, s, acts[0]), acts[1..])
  }

  // ---- What every reachable state looks like ----

  // What pod i has gathered before step k: what it began with and the shards 0 .. k - 1 places back.
  ghost function Gathered(c: Config, i: nat, k: nat): set<ChunkKey>
    requires |c.init| == |c.shards| && i < |c.shards| && k <= |c.shards|
  {
    if k == 0 then c.init[i] else Gathered(c, i, k - 1) + c.shards[Source(|c.shards|, i, k - 1)]
  }

  ghost predicate HasGathered(c: Config, i: nat, k: nat, p: Pod)
    requires |c.init| == |c.shards| && i < |c.shards| && k <= |c.shards|
  {
    && Gathered(c, i, k) <= p.disk <= Gathered(c, i, k) + Asked(c, i, k)
    && p.staging <= Asked(c, i, k) && p.todo <= Asked(c, i, k)
    && Asked(c, i, k) <= p.disk + p.staging + p.todo
    && (p.answered ==> p.todo == {} && p.staging == {})
  }

  // Every chunk that was not there at the start is pulled once, when its turn comes.
  ghost predicate PulledOnce(c: Config, i: nat, k: nat, p: Pod)
    requires |c.init| == |c.shards| && i < |c.shards| && k <= |c.shards|
  {
    && p.todo * p.disk <= c.init[i] && p.todo * p.staging == {}
    && p.fallbacks == {}
    && (forall x :: p.pulled[x] ==
          if x in Gathered(c, i, k) + Asked(c, i, k) && x !in c.init[i] && x !in p.todo then 1 else 0)
  }

  ghost predicate Inv(c: Config, s: State) {
    && WellFormed(c) && |s.pods| == |c.shards| && 1 <= s.step <= |c.shards|
    && forall i | 0 <= i < |s.pods| :: HasGathered(c, i, s.step, s.pods[i]) && PulledOnce(c, i, s.step, s.pods[i])
  }

  lemma {:induction false} GatheredBy(c: Config, i: nat, k: nat)
    requires |c.init| == |c.shards| && i < |c.shards| && k <= |c.shards|
    ensures c.init[i] <= Gathered(c, i, k)
    ensures forall j | 0 <= j < k :: c.shards[Source(|c.shards|, i, j)] <= Gathered(c, i, k)
    ensures forall x | x in Gathered(c, i, k) && x !in c.init[i] ::
      exists j | 0 <= j < k :: x in c.shards[Source(|c.shards|, i, j)]
  {
    if k > 0 {
      GatheredBy(c, i, k - 1);
    }
  }

  // A shard whose turn has not come is not among what was gathered, except for what was there before.
  lemma TurnNotCome(c: Config, i: nat, k: nat)
    requires WellFormed(c) && i < |c.shards| && 1 <= k < |c.shards|
    ensures Asked(c, i, k) * Gathered(c, i, k) <= c.init[i]
  {
    GatheredBy(c, i, k);
    forall j | 0 <= j < k
      ensures c.shards[Source(|c.shards|, i, j)] !! c.shards[Source(|c.shards|, i, k)]
    {
      SourcesDiffer(|c.shards|, i, j, k);
    }
  }

  // The predecessor has on disk whatever it is asked for.
  lemma Servable(c: Config, s: State, i: nat)
    requires Inv(c, s) && i < |s.pods|
    ensures Asked(c, i, s.step) <= s.pods[Prev(|s.pods|, i)].disk
  {
    var w := |s.pods|;
    var k := s.step;
    if k < w {
      PassedOn(w, i, k);
      GatheredBy(c, Prev(w, i), k);
      assert Asked(c, i, k) == c.shards[Source(w, Prev(w, i), k - 1)];
      assert HasGathered(c, Prev(w, i), k, s.pods[Prev(w, i)]);
    }
  }

  lemma PullOk(c: Config, i: nat, k: nat, p: Pod, prev: Pod, x: ChunkKey)
    requires WellFormed(c) && i < |c.shards| && 1 <= k <= |c.shards|
    requires HasGathered(c, i, k, p) && PulledOnce(c, i, k, p) && Asked(c, i, k) <= prev.disk
    ensures HasGathered(c, i, k, Pulled(p, prev, x)) && PulledOnce(c, i, k, Pulled(p, prev, x))
  {
    hide Gathered, Asked;
    var p' := Pulled(p, prev, x);
    if x in p.todo {
      assert x in Asked(c, i, k) && x in prev.disk;
      assert p.pulled[x] == 0;
      if x in p.disk {
        assert x in c.init[i] && p'.pulled == p.pulled;
      } else {
        assert x !in c.init[i] by { GatheredBy(c, i, k); }
        assert p'.pulled == p.pulled + multiset{x};
      }
    }
  }

  lemma StoreOk(c: Config, i: nat, k: nat, p: Pod, x: ChunkKey)
    requires WellFormed(c) && i < |c.shards| && 1 <= k <= |c.shards|
    requires HasGathered(c, i, k, p) && PulledOnce(c, i, k, p)
    ensures HasGathered(c, i, k, Stored(p, x)) && PulledOnce(c, i, k, Stored(p, x))
  {
    hide Gathered, Asked;
  }

  lemma AdvanceOk(c: Config, i: nat, k: nat, p: Pod)
    requires WellFormed(c) && i < |c.shards| && 1 <= k < |c.shards|
    requires HasGathered(c, i, k, p) && PulledOnce(c, i, k, p) && p.answered
    ensures
      var p' := p.(todo := Asked(c, i, k + 1), answered := false);
      HasGathered(c, i, k + 1, p') && PulledOnce(c, i, k + 1, p')
  {
    assert Gathered(c, i, k + 1) == Gathered(c, i, k) + Asked(c, i, k) == p.disk;
    if k + 1 < |c.shards| {
      TurnNotCome(c, i, k + 1);
    }
    hide Gathered, Asked;
  }

  lemma StepInv(c: Config, s: State, a: Action)
    requires Inv(c, s) && c.drain
    ensures Inv(c, Step(c, s, a))
  {
    hide Gathered, Asked, Pulled, Stored;
    match a
    case Pull(i, x) =>
      if i < |s.pods| {
        Servable(c, s, i);
        PullOk(c, i, s.step, s.pods[i], s.pods[Prev(|s.pods|, i)], x);
        hide HasGathered, PulledOnce;
      }
    case Store(i, x) =>
      if i < |s.pods| {
        StoreOk(c, i, s.step, s.pods[i], x);
        hide HasGathered, PulledOnce;
      }
    case Answer(i) =>
    case NextStep =>
      if s.step < |s.pods| && forall i | 0 <= i < |s.pods| :: s.pods[i].answered {
        forall i | 0 <= i < |s.pods|
          ensures HasGathered(c, i, s.step + 1, Step(c, s, a).pods[i])
          ensures PulledOnce(c, i, s.step + 1, Step(c, s, a).pods[i])
        {
          AdvanceOk(c, i, s.step, s.pods[i]);
        }
      }
  }

  lemma {:induction false} RunInv(c: Config, s: State, acts: seq<Action>)
    requires Inv(c, s) && c.drain
    ensures Inv(c, Run(c, s, acts))
    decreases |acts|
  {
    hide Step;
    if acts != [] {
      StepInv(c, s, acts[0]);
      RunInv(c, Step(c, s, acts[0]), acts[1..]);
    }
  }

  lemma StartInv(c: Config)
    requires WellFormed(c)
    ensures Inv(c, Start(c))
  {
    forall i | 0 <= i < |c.shards|
      ensures HasGathered(c, i, 1, Start(c).pods[i]) && PulledOnce(c, i, 1, Start(c).pods[i])
    {
      assert Source(|c.shards|, i, 0) == i;
      assert Gathered(c, i, 0) == c.init[i];
      assert Gathered(c, i, 1) == c.init[i];
      if 1 < |c.shards| {
        TurnNotCome(c, i, 1);
      }
    }
  }

  ghost predicate InSomeShard(c: Config, x: ChunkKey) {
    exists r | 0 <= r < |c.shards| :: x in c.shards[r]
  }

  // After world - 1 steps every shard has come by.
  lemma GatheredAll(c: Config, i: nat)
    requires WellFormed(c) && i < |c.shards|
    ensures forall x :: x in Gathered(c, i, |c.shards|) <==> x in c.init[i] || InSomeShard(c, x)
  {
    var w := |c.shards|;
    GatheredBy(c, i, w);
    forall x | InSomeShard(c, x)
      ensures x in Gathered(c, i, w)
    {
      var r :| 0 <= r < w && x in c.shards[r];
      var j := SourceReaches(w, i, r);
    }
  }

  // What a node has on disk in step k; the predecessor can serve what it is asked for; once the last
  // step is over the node holds everything.
  ghost predicate OnTrack(c: Config, s: State, i: nat)
    requires WellFormed(c) && |s.pods| == |c.shards| && 1 <= s.step <= |c.shards| && i < |c.shards|
  {
    var p := s.pods[i];
    && Gathered(c, i, s.step) <= p.disk <= Gathered(c, i, s.step) + Asked(c, i, s.step)
    && (p.answered && s.step < |c.shards| ==> p.disk == Gathered(c, i, s.step + 1))
    && Asked(c, i, s.step) <= s.pods[Prev(|s.pods|, i)].disk && p.fallbacks == {}
    && (s.step == |c.shards| ==> forall x :: x in p.disk <==> x in c.init[i] || InSomeShard(c, x))
  }

  lemma InvOnTrack(c: Config, s: State, i: nat)
    requires Inv(c, s) && i < |s.pods|
    ensures OnTrack(c, s, i)
  {
    hide Gathered, PulledOnce, InSomeShard;
    Servable(c, s, i);
    GatheredAll(c, i);
    NoFallbacks(c, s, i);
    assert HasGathered(c, i, s.step, s.pods[i]);
    if s.step < |c.shards| {
      GatheredNext(c, i, s.step);
    }
  }

  lemma GatheredNext(c: Config, i: nat, k: nat)
    requires |c.init| == |c.shards| && i < |c.shards| && k < |c.shards|
    ensures Gathered(c, i, k + 1) == Gathered(c, i, k) + Asked(c, i, k)
  {
  }

  // Every run, at every moment, at every node.
  lemma RingGathers(c: Config, acts: seq<Action>, i: nat)
    requires WellFormed(c) && c.drain && i < |c.shards|
    ensures
      var s := Run(c, Start(c), acts);
      |s.pods| == |c.shards| && 1 <= s.step <= |c.shards| && OnTrack(c, s, i)
  {
    hide Run, Start, OnTrack;
    StartInv(c);
    RunInv(c, Start(c), acts);
    InvOnTrack(c, Run(c, Start(c), acts), i);
  }

  lemma NoFallbacks(c: Config, s: State, i: nat)
    requires Inv(c, s) && i < |s.pods|
    ensures s.pods[i].fallbacks == {}
  {
    assert PulledOnce(c, i, s.step, s.pods[i]);
  }

  // And each foreign chunk that was missing has been pulled exactly once, nothing else at all.
  lemma RingPullsOnce(c: Config, acts: seq<Action>, i: nat, x: ChunkKey)
    requires WellFormed(c) && c.drain && i < |c.shards|
    ensures
      var s := Run(c, Start(c), acts);
      && |s.pods| == |c.shards|
      && (s.step == |c.shards| ==> s.pods[i].pulled[x] == if InSomeShard(c, x) && x !in c.init[i] then 1 else 0)
  {
    StartInv(c);
    RunInv(c, Start(c), acts);
    var s := Run(c, Start(c), acts);
    hide Run, Start;
    GatheredAll(c, i);
    assert HasGathered(c, i, s.step, s.pods[i]) && PulledOnce(c, i, s.step, s.pods[i]);
  }

  lemma PodProgresses(c: Config, s: State, i: nat)
    requires |s.pods| == |c.shards| && i < |s.pods| && !s.pods[i].answered
    ensures exists a :: Step(c, s, a) != s
  {
    var p := s.pods[i];
    if x :| x in p.todo {
      assert x !in Step(c, s, Pull(i, x)).pods[i].todo;
    } else if x :| x in p.staging {
      assert x !in Step(c, s, Store(i, x)).pods[i].staging;
    } else {
      assert p.todo == {} && p.staging == {};
      assert Step(c, s, Answer(i)).pods[i].answered;
    }
  }

  // The ring never gets stuck before it is complete.
  lemma RingProgresses(c: Config, acts: seq<Action>)
    requires WellFormed(c)
    ensures
      var s := Run(c, Start(c), acts);
      |s.pods| == |c.shards| && (s.step < |c.shards| ==> exists a :: Step(c, s, a) != s)
  {
    RunSize(c, Start(c), acts);
    var s := Run(c, Start(c), acts);
    hide Run, Start;
    if s.step < |c.shards| {
      if i :| 0 <= i < |s.pods| && !s.pods[i].answered {
        PodProgresses(c, s, i);
      } else {
        assert Step(c, s, NextStep).step == s.step + 1;
      }
    }
  }

  // ---- And it completes ----

  // What a pod still does in its step at most: two actions for a chunk to pull, one for a staged one, and
  // the answer.
  function PodWork(p: Pod): nat {
    2 * |p.todo| + |p.staging| + if p.answered then 0 else 1
  }

  function Work(ps: seq<Pod>): nat {
    if ps == [] then 0 else PodWork(ps[0]) + Work(ps[1..])
  }

  function Sizes(shards: seq<set<ChunkKey>>): nat {
    if shards == [] then 0 else |shards[0]| + Sizes(shards[1..])
  }

  function Product(n: nat, m: nat): nat {
    n * m
  }

  // An upper bound for the actions of a whole ring: in each step two for every chunk, an answer from every
  // node, and the barrier.
  function Bound(c: Config): nat
    requires |c.shards| > 0
  {
    Product(|c.shards| - 1, 2 * Sizes(c.shards) + |c.shards| + 1)
  }

  // An upper bound for what is left to do before the ring is complete.
  function Left(c: Config, s: State): nat
    requires s.step < |c.shards|
  {
    var w := |c.shards|;
    Work(s.pods) + Product(w - 1 - s.step, 2 * Sizes(c.shards) + w) + (w - s.step)
  }

  lemma {:induction false} WorkUpdate(ps: seq<Pod>, i: nat, p: Pod)
    requires i < |ps|
    ensures Work(ps[i := p]) + PodWork(ps[i]) == Work(ps) + PodWork(p)
  {
    if i == 0 {
      assert ps[0 := p][1..] == ps[1..];
    } else {
      assert ps[i := p][1..] == ps[1..][i - 1 := p];
      WorkUpdate(ps[1..], i - 1, p);
    }
  }

  lemma {:induction false} SizesConcat(a: seq<set<ChunkKey>>, b: seq<set<ChunkKey>>)
    ensures Sizes(a + b) == Sizes(a) + Sizes(b)
  {
    if a == [] {
      assert a + b == b;
    } else {
      assert (a + b)[1..] == a[1..] + b;
      SizesConcat(a[1..], b);
    }
  }

  // In every step each shard is pulled by one node.
  lemma AskedSizes(c: Config, k: nat, asked: seq<set<ChunkKey>>)
    requires |asked| == |c.shards| && k < |c.shards| && forall i | 0 <= i < |asked| :: asked[i] == Asked(c, i, k)
    ensures Sizes(asked) == Sizes(c.shards)
  {
    var d := |c.shards| - k;
    var front, back := c.shards[..d], c.shards[d..];
    assert asked == back + front;
    assert c.shards == front + back;
    SizesConcat(back, front);
    SizesConcat(front, back);
  }

  // A new step begins with the pulls of that step, whatever is still staged, and the answers.
  lemma {:induction false} NewWork(qs: seq<Pod>, ps: seq<Pod>, asked: seq<set<ChunkKey>>)
    requires |qs| == |ps| == |asked|
    requires forall i | 0 <= i < |ps| :: ps[i] == qs[i].(todo := asked[i], answered := false)
    ensures Work(ps) <= Work(qs) + 2 * Sizes(asked) + |ps|
  {
    if ps != [] {
      NewWork(qs[1..], ps[1..], asked[1..]);
    }
  }

  lemma PodStepLeft(c: Config, s: State, a: Action)
    requires |s.pods| == |c.shards| && s.step < |c.shards| && Step(c, s, a) != s && !a.NextStep?
    ensures Step(c, s, a).step == s.step && Left(c, Step(c, s, a)) < Left(c, s)
  {
    hide Sizes, Work, Product;
    var i, s' := a.pod, Step(c, s, a);
    var p, p' := s.pods[i], s'.pods[i];
    assert s' == s.(pods := s.pods[i := p']);
    assert p' != p by {
      assert s.pods[i := p] == s.pods;
    }
    WorkUpdate(s.pods, i, p');
    LessWork(c, p, s.pods[Prev(|s.pods|, i)], a, p');
  }

  lemma LessWork(c: Config, p: Pod, prev: Pod, a: Action, p': Pod)
    requires p' != p
    requires
      || (a.Pull? && p' == Pulled(p, prev, a.key))
      || (a.Store? && p' == Stored(p, a.key))
      || (a.Answer? && p' == p.(answered := true))
    ensures PodWork(p') < PodWork(p)
  {
    if a.Pull? {
      Without(p.todo, a.key);
      With(p.staging, a.key);
    } else if a.Store? {
      Without(p.staging, a.key);
    }
  }

  lemma Without(s: set<ChunkKey>, k: ChunkKey)
    ensures k in s ==> |s - {k}| == |s| - 1
  {
  }

  lemma With(s: set<ChunkKey>, k: ChunkKey)
    ensures |s + {k}| <= |s| + 1
  {
    if k in s {
      assert s + {k} == s;
    }
  }

  lemma NextStepLeft(c: Config, s: State)
    requires |s.pods| == |c.shards| && s.step + 1 < |c.shards| && Step(c, s, NextStep) != s
    ensures Step(c, s, NextStep).step == s.step + 1 && Left(c, Step(c, s, NextStep)) < Left(c, s)
  {
    hide Sizes, Work, Product;
    var s' := Step(c, s, NextStep);
    var w := |c.shards|;
    var asked := seq(w, i requires 0 <= i < w => Asked(c, i, s.step + 1));
    AskedSizes(c, s.step + 1, asked);
    NewWork(s.pods, s'.pods, asked);
    Less(w - 1 - s.step, 2 * Sizes(c.shards) + w);
  }

  lemma Less(n: nat, m: nat)
    requires n > 0
    ensures Product(n, m) == Product(n - 1, m) + m
  {
  }

  lemma PlusOne(n: nat, m: nat)
    ensures Product(n, m + 1) == Product(n, m) + n
  {
  }

  // The number of actions of a run that change anything.
  function Effective(c: Config, s: State, acts: seq<Action>): nat
    requires |s.pods| == |c.shards|
    decreases |acts|
  {
    if acts == [] then 0
    else (if Step(c, s, acts[0]) == s then 0 else 1) + Effective(c, Step(c, s, acts[0]), acts[1..])
  }

  lemma {:induction false} StepsOnly(c: Config, s: State, acts: seq<Action>)
    requires |s.pods| == |c.shards| && s.step <= |c.shards|
    ensures |Run(c, s, acts).pods| == |c.shards| && s.step <= Run(c, s, acts).step <= |c.shards|
    decreases |acts|
  {
    if acts != [] {
      StepsOnly(c, Step(c, s, acts[0]), acts[1..]);
    }
  }

  lemma {:induction false} RunLeft(c: Config, s: State, acts: seq<Action>)
    requires |s.pods| == |c.shards| && Run(c, s, acts).step < |c.shards| && s.step < |c.shards|
    ensures Effective(c, s, acts) + Left(c, Run(c, s, acts)) <= Left(c, s)
    decreases |acts|
  {
    hide Left;
    if acts != [] {
      var s1 := Step(c, s, acts[0]);
      StepsOnly(c, s1, acts[1..]);
      if s1 != s {
        if acts[0].NextStep? {
          NextStepLeft(c, s);
        } else {
          PodStepLeft(c, s, acts[0]);
        }
      }
      RunLeft(c, s1, acts[1..]);
    }
  }

  // Every run completes the ring: at the latest after (world - 1) * (2 * chunks + world + 1) actions that
  // change anything, and until then there always is one (RingProgresses).
  lemma RingCompletes(c: Config, acts: seq<Action>)
    requires WellFormed(c)
    requires Effective(c, Start(c), acts) >= Bound(c)
    ensures Run(c, Start(c), acts).step == |c.shards|
  {
    hide Run, Effective, Bound, Work, Product, Sizes;
    var s := Start(c);
    StepsOnly(c, s, acts);
    if Run(c, s, acts).step < |c.shards| {
      RunLeft(c, s, acts);
      LeftAtStart(c);
    }
  }

  lemma LeftAtStart(c: Config)
    requires WellFormed(c) && |c.shards| > 1
    ensures Left(c, Start(c)) <= Bound(c)
  {
    hide Sizes, Work, Product;
    var w := |c.shards|;
    var ps := Start(c).pods;
    var asked := seq(w, i requires 0 <= i < w => Asked(c, i, 1));
    var none := seq(w, i requires 0 <= i < w => ps[i].(todo := {}, answered := true));
    AskedSizes(c, 1, asked);
    Idle(none);
    NewWork(none, ps, asked);
    Less(w - 1, 2 * Sizes(c.shards) + w);
    PlusOne(w - 1, 2 * Sizes(c.shards) + w);
  }

  lemma {:induction false} Idle(ps: seq<Pod>)
    requires forall i | 0 <= i < |ps| :: PodWork(ps[i]) == 0
    ensures Work(ps) == 0
  {
    if ps != [] {
      Idle(ps[1..]);
    }
  }

  lemma {:induction false} RunSize(c: Config, s: State, acts: seq<Action>)
    requires |s.pods| == |c.shards|
    ensures |Run(c, s, acts).pods| == |c.shards|
    decreases |acts|
  {
    if acts != [] {
      RunSize(c, Step(c, s, acts[0]), acts[1..]);
    }
  }

  // ---- The drain is what makes it work ----

  // Some chunk reaches a node by way of a predecessor that had to pull it itself.
  ghost predicate PassesOn(c: Config)
    requires WellFormed(c)
  {
    exists i: nat, k: nat, x :: i < |c.shards| && Relayed(c, i, k, x)
  }

  ghost predicate Relayed(c: Config, i: nat, k: nat, x: ChunkKey)
    requires WellFormed(c) && i < |c.shards|
  {
    2 <= k < |c.shards| && x in Asked(c, i, k) && x !in c.init[i] && x !in c.init[Prev(|c.shards|, i)]
  }

  ghost predicate NobodyFallsBack(c: Config, acts: seq<Action>)
    requires WellFormed(c)
  {
    forall i | 0 <= i < |Run(c, Start(c), acts).pods| :: Run(c, Start(c), acts).pods[i].fallbacks == {}
  }

  // What holds even without a drain.
  ghost predicate Mild(c: Config, s: State) {
    && WellFormed(c) && |s.pods| == |c.shards| && 1 <= s.step <= |c.shards|
    && forall i | 0 <= i < |s.pods| ::
         c.init[i] <= s.pods[i].disk && s.pods[i].todo <= Asked(c, i, s.step) && s.pods[i].fallbacks == {}
  }

  lemma OwnerServes(c: Config, i: nat)
    requires WellFormed(c) && i < |c.shards|
    ensures Asked(c, i, 1) <= c.init[Prev(|c.shards|, i)]
  {
    if 1 < |c.shards| {
      assert Source(|c.shards|, i, 1) == Prev(|c.shards|, i);
    }
  }

  lemma NotRelayed(c: Config, i: nat, k: nat, x: ChunkKey)
    requires WellFormed(c) && !PassesOn(c) && i < |c.shards| && k >= 1 && x in Asked(c, i, k)
    ensures Prev(|c.shards|, i) < |c.shards| && (x in c.init[i] || x in c.init[Prev(|c.shards|, i)])
  {
    assert Prev(|c.shards|, i) == Source(|c.shards|, i, 1);
    assert k < |c.shards|;
    if k == 1 {
      OwnerServes(c, i);
    } else {
      hide Asked;
      assert !Relayed(c, i, k, x);
    }
  }

  lemma MildServable(c: Config, s: State, i: nat, x: ChunkKey)
    requires Mild(c, s) && !PassesOn(c) && i < |s.pods| && x in s.pods[i].todo
    ensures Prev(|s.pods|, i) < |s.pods| && (x in s.pods[i].disk || x in s.pods[Prev(|s.pods|, i)].disk)
  {
    hide Asked, PassesOn, Prev, WellFormed;
    assert x in Asked(c, i, s.step);
    NotRelayed(c, i, s.step, x);
  }

  lemma StepMild(c: Config, s: State, a: Action)
    requires Mild(c, s) && !PassesOn(c)
    ensures Mild(c, Step(c, s, a))
  {
    hide Asked, PassesOn, Prev;
    match a
    case Pull(i, x) =>
      if i < |s.pods| && x in s.pods[i].todo {
        MildServable(c, s, i, x);
      }
    case Store(_, _) =>
    case Answer(_) =>
    case NextStep =>
  }

  lemma {:induction false} RunMild(c: Config, s: State, acts: seq<Action>)
    requires Mild(c, s) && !PassesOn(c)
    ensures Mild(c, Run(c, s, acts))
    decreases |acts|
  {
    hide Step, PassesOn;
    if acts != [] {
      StepMild(c, s, acts[0]);
      RunMild(c, Step(c, s, acts[0]), acts[1..]);
    }
  }

  // Nothing has been stored yet.
  ghost predicate Unstored(c: Config, s: State) {
    && WellFormed(c) && !c.drain && |s.pods| == |c.shards|
    && forall i | 0 <= i < |s.pods| :: s.pods[i].disk == c.init[i]
  }

  lemma RunFirst(c: Config, s: State, a: Action, rest: seq<Action>)
    requires |s.pods| == |c.shards|
    ensures Run(c, s, [a] + rest) == Run(c, Step(c, s, a), rest)
  {
    assert ([a] + rest)[1..] == rest;
  }

  lemma {:induction false} RunConcat(c: Config, s: State, a: seq<Action>, b: seq<Action>)
    requires |s.pods| == |c.shards|
    ensures |Run(c, s, a).pods| == |c.shards| && Run(c, s, a + b) == Run(c, Run(c, s, a), b)
    decreases |a|
  {
    RunSize(c, s, a);
    if a == [] {
      assert a + b == b;
    } else {
      RunConcat(c, Step(c, s, a[0]), a[1..], b);
      assert (a + b)[1..] == a[1..] + b;
    }
  }

  // A pod pulls what it is asked for and answers, all without storing.
  lemma {:induction false} ServePod(c: Config, s: State, i: nat) returns (acts: seq<Action>)
    requires Unstored(c, s) && i < |s.pods|
    ensures
      var s' := Run(c, s, acts);
      && Unstored(c, s') && s'.step == s.step && s'.pods[i].answered
      && forall j | 0 <= j < |s.pods| && j != i :: s'.pods[j] == s.pods[j]
    decreases |s.pods[i].todo|
  {
    if s.pods[i].todo == {} {
      acts := [Answer(i)] + [];
      RunFirst(c, s, Answer(i), []);
    } else {
      var x :| x in s.pods[i].todo;
      var s1 := Step(c, s, Pull(i, x));
      assert s1.pods[i].todo == s.pods[i].todo - {x};
      var rest := ServePod(c, s1, i);
      acts := [Pull(i, x)] + rest;
      RunFirst(c, s, Pull(i, x), rest);
    }
  }

  lemma {:induction false} ServePods(c: Config, s: State, n: nat) returns (acts: seq<Action>)
    requires Unstored(c, s) && n <= |s.pods|
    ensures
      var s' := Run(c, s, acts);
      Unstored(c, s') && s'.step == s.step && forall j | 0 <= j < n :: s'.pods[j].answered
  {
    if n == 0 {
      acts := [];
    } else {
      var first := ServePods(c, s, n - 1);
      var last := ServePod(c, Run(c, s, first), n - 1);
      acts := first + last;
      RunConcat(c, s, first, last);
    }
  }

  // Step k of a ring in which nobody has stored anything.
  ghost predicate LazyStep(c: Config, s: State, k: nat) {
    && Unstored(c, s) && s.step == k <= |c.shards|
    && forall i | 0 <= i < |s.pods| :: s.pods[i].todo == Asked(c, i, k)
  }

  lemma {:induction false} ReachLazily(c: Config, k: nat) returns (acts: seq<Action>)
    requires WellFormed(c) && !c.drain && 1 <= k <= |c.shards|
    ensures LazyStep(c, Run(c, Start(c), acts), k)
  {
    if k == 1 {
      acts := [];
    } else {
      hide Step, Start, LazyStep, Run;
      var before := ReachLazily(c, k - 1);
      RunSize(c, Start(c), before);
      var more := NextLazily(c, Run(c, Start(c), before), k - 1);
      acts := before + more;
      RunConcat(c, Start(c), before, more);
    }
  }

  lemma NextLazily(c: Config, s: State, k: nat) returns (acts: seq<Action>)
    requires |s.pods| == |c.shards| && LazyStep(c, s, k) && k < |c.shards|
    ensures LazyStep(c, Run(c, s, acts), k + 1)
  {
    hide Step, Run, Asked;
    var serve := ServePods(c, s, |s.pods|);
    var s' := Run(c, s, serve);
    NextLazyStep(c, s');
    hide LazyStep, Unstored;
    RunSize(c, s, serve);
    RunOne(c, s', NextStep);
    RunConcat(c, s, serve, [NextStep]);
    acts := serve + [NextStep];
  }

  lemma RunOne(c: Config, s: State, a: Action)
    requires |s.pods| == |c.shards|
    ensures Run(c, s, [a]) == Step(c, s, a)
  {
    assert [a][1..] == [];
    assert Run(c, Step(c, s, a), []) == Step(c, s, a);
  }

  lemma NextLazyStep(c: Config, s: State)
    requires Unstored(c, s) && s.step < |c.shards| && forall i | 0 <= i < |s.pods| :: s.pods[i].answered
    ensures LazyStep(c, Step(c, s, NextStep), s.step + 1)
  {
  }

  // Without the drain a relayed chunk can be asked of a predecessor that still has it in memory only.
  lemma UndrainedFallsBack(c: Config, i: nat, k: nat, x: ChunkKey) returns (acts: seq<Action>)
    requires WellFormed(c) && !c.drain && i < |c.shards| && Relayed(c, i, k, x)
    ensures !NobodyFallsBack(c, acts)
  {
    var before := ReachLazily(c, k);
    var s := Run(c, Start(c), before);
    acts := before + ([Pull(i, x)] + []);
    RunConcat(c, Start(c), before, [Pull(i, x)] + []);
    RunFirst(c, s, Pull(i, x), []);
    var s' := Step(c, s, Pull(i, x));
    hide Run, Start;
    assert x in s'.pods[i].fallbacks;
  }

  // For every ring: nobody falls back to the blob store in any run if and only if each step drains its
  // writes, or no chunk is passed on at all.
  lemma DrainIsNeeded(c: Config)
    requires WellFormed(c)
    ensures (forall acts :: NobodyFallsBack(c, acts)) <==> c.drain || !PassesOn(c)
  {
    if c.drain {
      forall acts
        ensures NobodyFallsBack(c, acts)
      {
        StartInv(c);
        RunInv(c, Start(c), acts);
        forall i | 0 <= i < |Run(c, Start(c), acts).pods|
          ensures Run(c, Start(c), acts).pods[i].fallbacks == {}
        {
          NoFallbacks(c, Run(c, Start(c), acts), i);
        }
      }
    } else if PassesOn(c) {
      var i: nat, k: nat, x :| i < |c.shards| && Relayed(c, i, k, x);
      var acts := UndrainedFallsBack(c, i, k, x);
    } else {
      forall acts
        ensures NobodyFallsBack(c, acts)
      {
        RunMild(c, Start(c), acts);
      }
    }
  }
}
