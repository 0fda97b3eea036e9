/** PeerIndex (src/peerindex.rs) and the peer part of a fetch (do_fetch in src/fetcher.rs): what a
    node knows of its peers' filters, whom it asks for a chunk, and whom the cluster elects. */
module Routing {
  import opened Core
  import opened Words
  import opened BloomFilter
  import opened Advertisement
  import opened Cluster

  // ---- Rendezvous hashing: hrw_top_id ----

  // The loop's result: the first of me, alive[0], alive[1], ... with the largest score.
  function Top(score: string -> nat, me: string, alive: seq<string>): string {
    if alive == [] then me
    else
      var best := Top(score, me, alive[..|alive| - 1]);
      var n := alive[|alive| - 1];
      if score(n) > score(best) then n else best
  }

  ghost function Electorate(me: string, alive: seq<string>): set<string> {
    {me} + set n | n in alive
  }

  lemma {:induction false} TopIsHighest(score: string -> nat, me: string, alive: seq<string>)
    ensures Top(score, me, alive) in Electorate(me, alive)
    ensures forall n | n in Electorate(me, alive) :: score(n) <= score(Top(score, me, alive))
  {
    if alive != [] {
      var init, last := alive[..|alive| - 1], alive[|alive| - 1];
      TopIsHighest(score, me, init);
      assert alive == init + [last];
      assert Electorate(me, alive) == Electorate(me, init) + {last};
    }
  }

  // A node that ties for the top elects itself.
  lemma {:induction false} TopPrefersSelf(score: string -> nat, me: string, alive: seq<string>)
    requires forall n | n in alive :: score(n) <= score(me)
    ensures Top(score, me, alive) == me
  {
    if alive != [] {
      TopPrefersSelf(score, me, alive[..|alive| - 1]);
    }
  }

  ghost predicate Leads(score: string -> nat, nodes: set<string>, leader: string) {
    leader in nodes && forall n | n in nodes && n != leader :: score(n) < score(leader)
  }

  // Every node of the set, whatever order it lists the others in, elects the same leader.
  ghost predicate Agreement(score: string -> nat, nodes: set<string>, leader: string) {
    forall me, alive | Electorate(me, alive) == nodes :: Top(score, me, alive) == leader
  }

  lemma {:induction false} ListOf(nodes: set<string>) returns (l: seq<string>)
    ensures forall n :: n in l <==> n in nodes
    decreases |nodes|
  {
    if nodes == {} {
      l := [];
    } else {
      var n :| n in nodes;
      var rest := ListOf(nodes - {n});
      l := rest + [n];
    }
  }

  // The exact condition for a common leader: the top score is held by one node only.
  lemma LeaderAgreement(score: string -> nat, nodes: set<string>, leader: string)
    requires nodes != {}
    ensures Agreement(score, nodes, leader) <==> Leads(score, nodes, leader)
  {
    if Leads(score, nodes, leader) {
      forall me, alive | Electorate(me, alive) == nodes
        ensures Top(score, me, alive) == leader
      {
        TopIsHighest(score, me, alive);
      }
    }
    if Agreement(score, nodes, leader) {
      var alive := ListOf(nodes);
      var me :| me in nodes;
      assert Electorate(me, alive) == nodes;
      TopIsHighest(score, me, alive);
      forall n | n in nodes && n != leader
        ensures score(n) < score(leader)
      {
        assert Electorate(n, alive) == nodes;
        if score(n) == score(leader) {
          TopPrefersSelf(score, n, alive);
        }
      }
    }
  }

  // Losing another node never moves a key; gaining one moves it only to the newcomer.
  lemma LeaderIsStable(score: string -> nat, nodes: set<string>, leader: string, n: string)
    requires Leads(score, nodes, leader)
    ensures n != leader ==> Leads(score, nodes - {n}, leader)
    ensures n !in nodes && score(n) != score(leader) ==>
      Leads(score, nodes + {n}, if score(n) > score(leader) then n else leader)
  {
  }

  lemma {:induction false} IdsOf(l: seq<NodeInfo>)
    ensures forall id :: id in Ids(l) <==> exists n :: n in l && n.id == id
  {
    if l != [] {
      var init, last := l[..|l| - 1], l[|l| - 1];
      IdsOf(init);
      assert l == init + [last];
      forall id
        ensures id in Ids(l) <==> exists n :: n in l && n.id == id
      {
        if n :| n in init && n.id == id {
          assert n in l;
        }
      }
    }
  }

  // What members_alive returns makes a node's electorate exactly the live ids of its table, itself
  // included; so nodes whose tables agree on who is alive elect the same leader.
  lemma LeaderOfTable(score: string -> nat, v: View, alive: seq<NodeInfo>, leader: string)
    requires ListsAlive(alive, v) && SelfAlive(v)
    ensures Electorate(v.me.id, Ids(alive)) == AliveIds(v)
    ensures Leads(score, AliveIds(v), leader) ==> Top(score, v.me.id, Ids(alive)) == leader
  {
    IdsOf(alive);
    var e := Electorate(v.me.id, Ids(alive));
    forall id
      ensures id in e <==> id in AliveIds(v)
    {
      if id in AliveIds(v) - {v.me.id} {
        assert v.members[id] in alive && v.members[id].id == id;
      }
    }
    TopIsHighest(score, v.me.id, Ids(alive));
  }

  // ---- Ranking: rank_candidates ----

  // Insertion into a list that is descending by score, after entries of equal score.
  function Ranked(score: string -> nat, l: seq<NodeInfo>, n: NodeInfo): seq<NodeInfo> {
    if l == [] || score(n.id) > score(l[0].id) then [n] + l else [l[0]] + Ranked(score, l[1..], n)
  }

  // The stable sort by descending score.
  function ByScore(score: string -> nat, l: seq<NodeInfo>): seq<NodeInfo> {
    if l == [] then [] else Ranked(score, ByScore(score, l[..|l| - 1]), l[|l| - 1])
  }

  ghost predicate Descending(score: string -> nat, l: seq<NodeInfo>) {
    forall i, j | 0 <= i < j < |l| :: score(l[i].id) >= score(l[j].id)
  }

  lemma {:induction false} RankedDescending(score: string -> nat, l: seq<NodeInfo>, n: NodeInfo)
    requires Descending(score, l)
    ensures
      var r := Ranked(score, l, n);
      Descending(score, r) && r != [] && (r[0] == n || (l != [] && r[0] == l[0]))
  {
    if l != [] && score(n.id) <= score(l[0].id) {
      RankedDescending(score, l[1..], n);
      var r := Ranked(score, l[1..], n);
      assert forall j | 0 <= j < |r| :: score(r[0].id) >= score(r[j].id);
    }
  }

  lemma {:induction false} RankedKeeps(score: string -> nat, l: seq<NodeInfo>, n: NodeInfo)
    ensures multiset(Ranked(score, l, n)) == multiset(l) + multiset{n}
  {
    if l != [] && score(n.id) <= score(l[0].id) {
      RankedKeeps(score, l[1..], n);
      assert l == [l[0]] + l[1..];
    }
  }

  lemma {:induction false} ByScoreSorts(score: string -> nat, l: seq<NodeInfo>)
    ensures Descending(score, ByScore(score, l))
    ensures multiset(ByScore(score, l)) == multiset(l)
  {
    if l != [] {
      hide Descending, Ranked;
      var init, last := l[..|l| - 1], l[|l| - 1];
      ByScoreSorts(score, init);
      RankedDescending(score, ByScore(score, init), last);
      RankedKeeps(score, ByScore(score, init), last);
      AllSnoc(l);
      hide ByScore;
    }
  }

  lemma AllSnoc(l: seq<NodeInfo>)
    requires l != []
    ensures multiset(l) == multiset(l[..|l| - 1]) + multiset{l[|l| - 1]}
  {
    assert l == l[..|l| - 1] + [l[|l| - 1]];
  }

  datatype RemoteBloom = RemoteBloom(version: nat, bloom: Filter)

  type Remotes = map<string, RemoteBloom>

  ghost predicate RemotesSound(r: Remotes) {
    forall id | id in r :: WellFormed(r[id].bloom)
  }

  datatype Kind = Yes | Maybe

  // Yes: the peer's filter claims the chunk. Maybe: no filter of the peer is known.
  predicate IsKind(r: Remotes, d: Digest, kind: Kind, n: NodeInfo)
    requires RemotesSound(r)
  {
    match kind
    case Yes => n.id in r && Contains(r[n.id].bloom, d)
    case Maybe => n.id !in r
  }

  function OfKind(r: Remotes, d: Digest, kind: Kind, l: seq<NodeInfo>): seq<NodeInfo>
    requires RemotesSound(r)
  {
    if l == [] then []
    else
      var n := l[|l| - 1];
      OfKind(r, d, kind, l[..|l| - 1]) + if IsKind(r, d, kind, n) then [n] else []
  }

  function First(n: nat, l: seq<NodeInfo>): seq<NodeInfo> {
    if |l| <= n then l else l[..n]
  }

  // The first `limit` peers of the kind, best score first.
  function Candidates(r: Remotes, d: Digest, kind: Kind, score: string -> nat,
                      alive: seq<NodeInfo>, limit: nat): seq<NodeInfo>
    requires RemotesSound(r)
  {
    First(limit, OfKind(r, d, kind, ByScore(score, alive)))
  }

  lemma {:induction false} OfKindMembers(r: Remotes, d: Digest, kind: Kind, l: seq<NodeInfo>)
    requires RemotesSound(r)
    ensures forall n :: n in OfKind(r, d, kind, l) <==> n in l && IsKind(r, d, kind, n)
  {
    if l != [] {
      OfKindMembers(r, d, kind, l[..|l| - 1]);
      assert l == l[..|l| - 1] + [l[|l| - 1]];
    }
  }

  // Each peer of the kind is taken as often as it is listed, and no other.
  lemma {:induction false} OfKindCounts(r: Remotes, d: Digest, kind: Kind, l: seq<NodeInfo>, n: NodeInfo)
    requires RemotesSound(r)
    ensures multiset(OfKind(r, d, kind, l))[n] == if IsKind(r, d, kind, n) then multiset(l)[n] else 0
  {
    if l == [] {
      assert OfKind(r, d, kind, l) == [];
    } else {
      hide RemotesSound, IsKind, OfKind;
      var init, last := l[..|l| - 1], l[|l| - 1];
      OfKindCounts(r, d, kind, init, n);
      assert l == init + [last];
      OfKindSnoc(r, d, kind, init, last);
      CountSnoc(init, last, n);
      CountSnoc(OfKind(r, d, kind, init), last, n);
    }
  }

  lemma OfKindSnoc(r: Remotes, d: Digest, kind: Kind, l: seq<NodeInfo>, n: NodeInfo)
    requires RemotesSound(r)
    ensures OfKind(r, d, kind, l + [n]) ==
      if IsKind(r, d, kind, n) then OfKind(r, d, kind, l) + [n] else OfKind(r, d, kind, l)
  {
    hide IsKind;
    assert (l + [n])[..|l|] == l;
  }

  lemma CountSnoc(l: seq<NodeInfo>, x: NodeInfo, n: NodeInfo)
    ensures multiset(l + [x])[n] == multiset(l)[n] + if x == n then 1 else 0
  {
  }

  lemma {:induction false} OfKindDescending(r: Remotes, d: Digest, kind: Kind, score: string -> nat, l: seq<NodeInfo>)
    requires RemotesSound(r) && Descending(score, l)
    ensures Descending(score, OfKind(r, d, kind, l))
  {
    if l != [] {
      var init, last := l[..|l| - 1], l[|l| - 1];
      OfKindDescending(r, d, kind, score, init);
      OfKindMembers(r, d, kind, init);
      var k := OfKind(r, d, kind, init);
      forall i | 0 <= i < |k|
        ensures score(k[i].id) >= score(last.id)
      {
        assert k[i] in init;
        var j :| 0 <= j < |init| && init[j] == k[i];
        assert l[j] == k[i];
      }
    }
  }

  // A list is within budget, drawn from the live peers of its kind, each as often as it is alive, best
  // score first; and a peer of the kind is passed over only when the budget is spent on other peers that
  // score at least as high. Yes: the peer's filter is known and claims the chunk. Maybe: none is known.
  lemma CandidatesAreBest(r: Remotes, d: Digest, score: string -> nat, alive: seq<NodeInfo>, limit: nat, kind: Kind)
    requires RemotesSound(r)
    ensures
      var c := Candidates(r, d, kind, score, alive, limit);
      && |c| <= limit && Descending(score, c) && multiset(c) <= multiset(alive)
      && (forall n | n in c :: if kind.Yes? then n.id in r && Contains(r[n.id].bloom, d) else n.id !in r)
      && (forall n | n in alive && (if kind.Yes? then n.id in r && Contains(r[n.id].bloom, d) else n.id !in r) ::
            || multiset(c)[n] == multiset(alive)[n]
            || (|c| == limit && forall m | m in c :: score(m.id) >= score(n.id)))
  {
    hide OfKind, ByScore, First, Descending, Contains, RemotesSound;
    var sorted := ByScore(score, alive);
    var all := OfKind(r, d, kind, sorted);
    ByScoreSorts(score, alive);
    OfKindDescending(r, d, kind, score, sorted);
    FirstIsBest(score, all, limit);
    var c := First(limit, all);
    forall n
      ensures multiset(all)[n] == if IsKind(r, d, kind, n) then multiset(alive)[n] else 0
    {
      OfKindCounts(r, d, kind, sorted, n);
    }
    forall n | n in c
      ensures IsKind(r, d, kind, n)
    {
      assert n in multiset(c) && n in multiset(all);
    }
  }

  lemma FirstIsBest(score: string -> nat, all: seq<NodeInfo>, limit: nat)
    requires Descending(score, all)
    ensures
      var c := First(limit, all);
      && |c| <= limit && Descending(score, c) && multiset(c) <= multiset(all)
      && forall n ::
           || multiset(c)[n] == multiset(all)[n]
           || (|c| == limit && forall m | m in c :: score(m.id) >= score(n.id))
  {
    hide Descending;
    var c := First(limit, all);
    var rest := all[|c|..];
    FirstDescends(score, all, |c|);
    assert all == c + rest;
    forall n | multiset(c)[n] != multiset(all)[n]
      ensures |c| == limit && forall m | m in c :: score(m.id) >= score(n.id)
    {
      assert n in multiset(rest);
      assert n in rest;
    }
  }

  lemma FirstDescends(score: string -> nat, all: seq<NodeInfo>, k: nat)
    requires Descending(score, all) && k <= |all|
    ensures Descending(score, all[..k])
    ensures forall m, n | m in all[..k] && n in all[k..] :: score(m.id) >= score(n.id)
  {
    forall m, n | m in all[..k] && n in all[k..]
      ensures score(m.id) >= score(n.id)
    {
      var i :| 0 <= i < k && all[..k][i] == m;
      var j :| 0 <= j < |all| - k && all[k..][j] == n;
      assert all[i] == m && all[k + j] == n;
    }
  }

  // ---- One fetch: do_fetch and try_peer_fetch ----

  datatype PeerReply = Data(bytes: Bytes) | NotFound | Failed

  predicate Good(r: PeerReply, expected: nat) {
    r.Data? && |r.bytes| == expected
  }

  /** PeerIndex: the local filter behind its locks, and the peers' filters. */
  class PeerIndex {
    const meId: string
    const bloomBits: nat
    var pending: seq<Digest>
    var version: u64
    var bloom: Bloom
    var remote: Remotes

    function Value(): Index
      reads this, bloom
    {
      Index(pending, version, bloom.Value())
    }

    ghost predicate Valid()
      reads this, bloom
    {
      bloomBits < U64_LIMIT && Sound(Value()) && RemotesSound(remote)
    }

    constructor (meId: string, bits: nat)
      requires bits < U64_LIMIT
      ensures Valid() && fresh(bloom) && remote == map[] && this.meId == meId && bloomBits == bits
      ensures Value() == Index([], 1, Empty(bits))
    {
      this.meId, bloomBits := meId, bits;
      pending, version, remote := [], 1, map[];
      bloom := new Bloom(bits);
    }

    // pending first, then the filter and the version under one lock
    method NoteLocalInsert(d: Digest)
      requires Valid()
      modifies this`pending, this`version, bloom
      ensures Valid() && bloom == old(bloom) && Value() == Advertised(Overlaid(old(Value()), d), d)
    {
      pending := pending + [d];
      bloom.Insert(d);
      version := SaturatingInc(version);
    }

    method RebuildLocalFromCache(keys: seq<Digest>)
      requires Valid()
      modifies this`pending, this`version, this`bloom
      ensures Valid() && fresh(bloom)
      ensures Value() == Swapped(old(Value()).(pending := []),
                                 InsertedAll(InsertedAll(Empty(bloomBits), keys), old(pending)))
    {
      hide InsertedTo;
      var next := new Bloom(bloomBits);
      for i := 0 to |keys|
        invariant next.Value() == InsertedAll(Empty(bloomBits), keys[..i])
        modifies next
      {
        assert keys[..i + 1][..i] == keys[..i];
        next.Insert(keys[i]);
      }
      assert keys[..|keys|] == keys;
      ghost var built := next.Value();
      var drained := pending;
      pending := [];
      for i := 0 to |drained|
        invariant next.Value() == InsertedAll(built, drained[..i])
        modifies next
      {
        assert drained[..i + 1][..i] == drained[..i];
        next.Insert(drained[i]);
      }
      assert drained[..|drained|] == drained;
      bloom := next;
      version := SaturatingInc(version);
    }

    method LocalSnapshot() returns (v: u64, bytes: Bytes)
      requires Valid()
      ensures v == version && bytes == Serialise(bloom.Value()) && (v, bytes) == Published(Value())
    {
      v := version;
      bytes := bloom.ToBytes();
    }

    method IngestRemote(peer: string, v: nat, bytes: Bytes) returns (accepted: bool)
      requires Valid()
      modifies this`remote
      ensures Valid()
      ensures accepted <==>
        |bytes| >= 8 && LeValue(bytes[..8]) >= 64 && |bytes| == 8 + (LeValue(bytes[..8]) + 63) / 64 * 8
      ensures accepted ==> Parse(bytes).Some?
      ensures remote == if accepted then old(remote)[peer := RemoteBloom(v, Parse(bytes).value)] else old(remote)
    {
      var parsed := Bloom.FromBytes(bytes);
      if parsed.None? {
        return false;
      }
      remote := remote[peer := RemoteBloom(v, parsed.value.Value())];
      return true;
    }

    // `score` is hrw_score(_, digest of the key)
    method HrwTopId(score: string -> nat, alive: seq<NodeInfo>) returns (best: string)
      ensures best == Top(score, meId, Ids(alive))
    {
      best := meId;
      var bestScore := score(meId);
      for i := 0 to |alive|
        invariant best == Top(score, meId, Ids(alive[..i])) && bestScore == score(best)
      {
        assert alive[..i + 1][..i] == alive[..i];
        var s := score(alive[i].id);
        if s > bestScore {
          bestScore := s;
          best := alive[i].id;
        }
      }
      assert alive[..|alive|] == alive;
    }

    method RankCandidates(d: Digest, score: string -> nat, alive: seq<NodeInfo>, maxYes: nat, maxMaybe: nat)
      returns (yes: seq<NodeInfo>, maybe: seq<NodeInfo>)
      requires RemotesSound(remote)
      ensures yes == Candidates(remote, d, Yes, score, alive, maxYes)
      ensures maybe == Candidates(remote, d, Maybe, score, alive, maxMaybe)
    {
      var scored := ByScore(score, alive);
      yes, maybe := [], [];
      for i := 0 to |scored|
        invariant yes == First(maxYes, OfKind(remote, d, Yes, scored[..i]))
        invariant maybe == First(maxMaybe, OfKind(remote, d, Maybe, scored[..i]))
      {
        assert scored[..i + 1][..i] == scored[..i];
        var n := scored[i];
        if n.id in remote {
          if Contains(remote[n.id].bloom, d) && |yes| < maxYes {
            yes := yes + [n];
          }
        } else if |maybe| < maxMaybe {
          maybe := maybe + [n];
        }
      }
      assert scored[..|scored|] == scored;
    }

    // The loop over yes and maybe candidates: stop at the first good reply; forget the filter of a
    // yes candidate that does not have the chunk. reply(i) is what the i-th request comes back with.
    method AskCandidates(yes: seq<NodeInfo>, maybe: seq<NodeInfo>, expected: nat, reply: nat -> PeerReply)
      returns (found: Option<Bytes>, asked: seq<string>)
      modifies this`remote
      ensures FirstGood(reply, expected, |yes| + |maybe|, found, |asked|)
      ensures forall i | 0 <= i < |asked| :: asked[i] == (yes + maybe)[i].id
      ensures remote == old(remote) - Misled(yes, reply, |asked|)
    {
      asked := [];
      var ordered := yes + maybe;
      while |asked| < |ordered|
        invariant |asked| <= |ordered|
        invariant forall i: nat | i < |asked| :: !Good(reply(i), expected)
        invariant forall i | 0 <= i < |asked| :: asked[i] == ordered[i].id
        invariant remote == old(remote) - Misled(yes, reply, |asked|)
      {
        var n, answer := ordered[|asked|], reply(|asked|);
        if answer == NotFound && |asked| < |yes| {
          remote := remote - {n.id};
        }
        asked := asked + [n.id];
        if Good(answer, expected) {
          return Some(answer.bytes), asked;
        }
      }
      found := None;
    }

    // Candidates first; if no filter claims the chunk, also the cluster-wide leader.
    method AskPeers(d: Digest, score: string -> nat, alive: seq<NodeInfo>, maxYes: nat, maxMaybe: nat, stampede: bool,
                    expected: nat, reply: nat -> PeerReply)
      returns (found: Option<Bytes>, asked: seq<string>)
      requires RemotesSound(remote)
      modifies this`remote
      ensures FirstGood(reply, expected,
                        Budget(old(remote), d, score, meId, alive, maxYes, maxMaybe, stampede),
                        found, |asked|)
      ensures AsksInOrder(old(remote), d, score, meId, alive, maxYes, maxMaybe, asked)
      ensures remote == old(remote) - Misled(Candidates(old(remote), d, Yes, score, alive, maxYes), reply, |asked|)
      // the leader is asked exactly when no candidate had the chunk, no live peer's filter claims it (or none
      // may be asked for that), stampede protection is on and some other node scores higher than this one
      ensures
        var n := |Candidates(old(remote), d, Yes, score, alive, maxYes)|
                 + |Candidates(old(remote), d, Maybe, score, alive, maxMaybe)|;
        |asked| > n <==>
          && (forall i: nat | i < n :: !(reply(i).Data? && |reply(i).bytes| == expected))
          && (maxYes == 0 || forall p | p in alive :: !(p.id in old(remote) && Contains(old(remote)[p.id].bloom, d)))
          && stampede && exists p :: p in alive && score(p.id) > score(meId)
    {
      hide Candidates, Top, Ids, Contains, RemotesSound, Misled;
      LeaderAskedIff(remote, d, score, meId, alive, maxYes);
      MisledBound(Candidates(remote, d, Yes, score, alive, maxYes), reply);
      var yes, maybe := RankCandidates(d, score, alive, maxYes, maxMaybe);
      found, asked := AskCandidates(yes, maybe, expected, reply);
      if found.None? && yes == [] && stampede && alive != [] {
        var top := HrwTopId(score, alive);
        if top != meId {
          var answer := reply(|asked|);
          asked := asked + [top];
          if Good(answer, expected) {
            found := Some(answer.bytes);
          }
        }
      }
    }

    // `origin` is what the blob store would return.
    method DoFetch(d: Digest, score: string -> nat, alive: seq<NodeInfo>, maxYes: nat, maxMaybe: nat, stampede: bool,
                   bypassPeers: bool, expected: nat, reply: nat -> PeerReply, origin: Result<Bytes>)
      returns (r: Result<Bytes>, asked: seq<string>)
      requires RemotesSound(remote)
      modifies this`remote
      ensures r.Ok? ==> |r.value| == expected
      ensures |asked| <= maxYes + maxMaybe + 1 && (bypassPeers ==> asked == [] && remote == old(remote))
      ensures AsksInOrder(old(remote), d, score, meId, alive, maxYes, maxMaybe, asked)
      ensures
        var limit := if bypassPeers then 0 else Budget(old(remote), d, score, meId, alive, maxYes, maxMaybe, stampede);
        || (r.Ok? && FirstGood(reply, expected, limit, Some(r.value), |asked|))
        || (&& FirstGood(reply, expected, limit, None, |asked|)
            && r == if origin.Ok? && |origin.value| == expected then origin else Err)
      ensures origin.Ok? && |origin.value| == expected ==> r.Ok?
    {
      hide Candidates, Budget;
      if !bypassPeers {
        BudgetBound(remote, d, score, meId, alive, maxYes, maxMaybe, stampede);
        var found;
        found, asked := AskPeers(d, score, alive, maxYes, maxMaybe, stampede, expected, reply);
        if found.Some? {
          return Ok(found.value), asked;
        }
      } else {
        asked := [];
      }
      if origin.Ok? && |origin.value| != expected {
        return Err, asked;
      }
      r := origin;
    }
  }

  // How many peers one fetch may ask.
  ghost function Budget(r: Remotes, d: Digest, score: string -> nat, me: string, alive: seq<NodeInfo>,
                        maxYes: nat, maxMaybe: nat, stampede: bool): nat
    requires RemotesSound(r)
  {
    var yes := Candidates(r, d, Yes, score, alive, maxYes);
    var maybe := Candidates(r, d, Maybe, score, alive, maxMaybe);
    var cold := yes == [] && stampede && alive != [] && Top(score, me, Ids(alive)) != me;
    |yes| + |maybe| + if cold then 1 else 0
  }

  lemma BudgetBound(r: Remotes, d: Digest, score: string -> nat, me: string, alive: seq<NodeInfo>,
                    maxYes: nat, maxMaybe: nat, stampede: bool)
    requires RemotesSound(r)
    ensures Budget(r, d, score, me, alive, maxYes, maxMaybe, stampede) <= maxYes + maxMaybe + 1
  {
  }

  // The peers asked are the candidates in their order, and after them the leader.
  ghost predicate AsksInOrder(r: Remotes, d: Digest, score: string -> nat, me: string, alive: seq<NodeInfo>,
                              maxYes: nat, maxMaybe: nat, asked: seq<string>)
    requires RemotesSound(r)
  {
    var all := Candidates(r, d, Yes, score, alive, maxYes) + Candidates(r, d, Maybe, score, alive, maxMaybe);
    forall i | 0 <= i < |asked| :: asked[i] == if i < |all| then all[i].id else Top(score, me, Ids(alive))
  }

  // No claim on the list means that no live peer's filter claims the chunk; another node leads if and only
  // if one scores higher than this one.
  lemma LeaderAskedIff(r: Remotes, d: Digest, score: string -> nat, me: string, alive: seq<NodeInfo>, maxYes: nat)
    requires RemotesSound(r)
    ensures Candidates(r, d, Yes, score, alive, maxYes) == [] <==>
      maxYes == 0 || forall p | p in alive :: !(p.id in r && Contains(r[p.id].bloom, d))
    ensures Top(score, me, Ids(alive)) != me <==> exists p :: p in alive && score(p.id) > score(me)
  {
    hide Candidates, Contains;
    CandidatesAreBest(r, d, score, alive, maxYes, Yes);
    var c := Candidates(r, d, Yes, score, alive, maxYes);
    if c != [] {
      assert c[0] in multiset(c);
      assert c[0] in alive by {
        assert c[0] in multiset(alive);
      }
    }
    if p :| p in alive && p.id in r && Contains(r[p.id].bloom, d) {
      assert p in multiset(alive);
    }
    LeaderElsewhere(score, me, alive);
  }

  lemma {:induction false} LeaderElsewhere(score: string -> nat, me: string, alive: seq<NodeInfo>)
    ensures score(Top(score, me, Ids(alive))) >= score(me)
    ensures forall p | p in alive :: score(Top(score, me, Ids(alive))) >= score(p.id)
    ensures Top(score, me, Ids(alive)) == me || score(Top(score, me, Ids(alive))) > score(me)
    ensures Top(score, me, Ids(alive)) == me || exists p :: p in alive && p.id == Top(score, me, Ids(alive))
  {
    if alive != [] {
      var init, last := alive[..|alive| - 1], alive[|alive| - 1];
      LeaderElsewhere(score, me, init);
      assert Ids(alive)[..|Ids(alive)| - 1] == Ids(init) && alive == init + [last];
    }
  }

  // Of the first `limit` replies the first that is data of the expected length is used, and asking stops
  // there; with none, all are asked.
  ghost predicate FirstGood(reply: nat -> PeerReply, expected: nat, limit: nat, found: Option<Bytes>, asked: nat) {
    && asked <= limit
    && (forall i: nat | i + 1 < asked :: !(reply(i).Data? && |reply(i).bytes| == expected))
    && match found
       case Some(b) => asked > 0 && reply(asked - 1) == Data(b) && |b| == expected
       case None => asked == limit && forall i: nat | i < asked :: !(reply(i).Data? && |reply(i).bytes| == expected)
  }

  // The peers whose filter claimed the chunk, but who said that they do not have it.
  ghost function Misled(yes: seq<NodeInfo>, reply: nat -> PeerReply, asked: nat): set<string> {
    set i: nat | i < asked && i < |yes| && reply(i) == NotFound :: yes[i].id
  }

  // Only candidates that claimed the chunk can have misled.
  lemma MisledBound(yes: seq<NodeInfo>, reply: nat -> PeerReply)
    ensures forall asked: nat | asked >= |yes| :: Misled(yes, reply, asked) == Misled(yes, reply, |yes|)
  {
  }

  function Ids(l: seq<NodeInfo>): seq<string> {
    if l == [] then [] else Ids(l[..|l| - 1]) + [l[|l| - 1].id]
  }
}
