/** Cluster membership (src/cluster.rs): the table a node keeps, the merge of gossiped records,
    self-refutation, and the push-pull exchange of two nodes. */
module Cluster {
  import opened Core

  const HEARTBEAT_TIMEOUT_SECS: nat := 30

  datatype NodeState = Alive | Suspect | Dead {
    function Rank(): nat {
      match this
      case Alive => 0
      case Suspect => 1
      case Dead => 2
    }
  }

  datatype NodeInfo = NodeInfo(
    id: string,
    transportUrl: string,
    gossipUrl: string,
    clusterHash: string,
    workerAddr: Option<string>,
    lastSeen: u64,
    state: NodeState,
    incarnation: u64,
    bloomVersion: u64)

  // What one node knows: its own template and incarnation, and a record per member.
  datatype View = View(me: NodeInfo, incarnation: u64, bloomVersion: u64, members: map<string, NodeInfo>)

  // Precedence of records of one member: incarnation, then last_seen, then severity of the state.
  predicate Newer(a: NodeInfo, b: NodeInfo) {
    || a.incarnation > b.incarnation
    || (a.incarnation == b.incarnation && a.lastSeen > b.lastSeen)
    || (a.incarnation == b.incarnation && a.lastSeen == b.lastSeen && a.state.Rank() > b.state.Rank())
  }

  // Precedence spelt out in the fields: r gives way to q, or they tie.
  ghost predicate GivesWay(r: NodeInfo, q: NodeInfo) {
    && r.incarnation <= q.incarnation
    && (r.incarnation == q.incarnation ==> r.lastSeen <= q.lastSeen)
    && (r.incarnation == q.incarnation && r.lastSeen == q.lastSeen ==>
          q.state == Dead || r.state == Alive || (r.state == Suspect && q.state == Suspect))
  }

  lemma GivesWayIff(r: NodeInfo, q: NodeInfo)
    ensures GivesWay(r, q) <==> !Newer(r, q)
  {
  }

  predicate Tied(a: NodeInfo, b: NodeInfo) {
    a.incarnation == b.incarnation && a.lastSeen == b.lastSeen && a.state == b.state
  }

  // The incarnation after a record about this node: `max + 1` in wrapping arithmetic.
  function Refuted(inc: u64, n: NodeInfo): u64 {
    if n.incarnation > inc || (n.incarnation == inc && n.state != Alive)
    then (Max(n.incarnation, inc) + 1) % U64_LIMIT
    else inc
  }

  function Absorb(v: View, n: NodeInfo, now: u64): View {
    if n.id == v.me.id then
      var inc := Refuted(v.incarnation, n);
      v.(incarnation := inc,
         members := v.members[v.me.id := v.me.(incarnation := inc, lastSeen := now, state := Alive)])
    else if n.clusterHash != v.me.clusterHash then v
    else if n.id in v.members && !Newer(n, v.members[n.id]) then v
    else v.(members := v.members[n.id := n])
  }

  function Merged(v: View, ns: seq<NodeInfo>, now: u64): View {
    if ns == [] then v else Absorb(Merged(v, ns[..|ns| - 1], now), ns[|ns| - 1], now)
  }

  function Touched(v: View, id: string, now: u64): View {
    if id in v.members
    then v.(members := v.members[id := v.members[id].(lastSeen := now, state := Alive)])
    else v
  }

  function StateByAge(n: NodeInfo, now: u64): NodeState {
    var age := if now >= n.lastSeen then now - n.lastSeen else 0;
    if age > HEARTBEAT_TIMEOUT_SECS * 2 then Dead
    else if age > HEARTBEAT_TIMEOUT_SECS then Suspect
    else Alive
  }

  function SweptRecord(v: View, id: string, now: u64): NodeInfo
    requires id in v.members
  {
    if id == v.me.id then v.members[id] else v.members[id].(state := StateByAge(v.members[id], now))
  }

  function Swept(v: View, now: u64): View {
    v.(members := map id | id in v.members :: SweptRecord(v, id, now))
  }

  function Snapshot(v: View, now: u64): NodeInfo {
    v.me.(incarnation := v.incarnation, bloomVersion := v.bloomVersion, lastSeen := now, state := Alive)
  }

  /** Membership: the object behind the lock. */
  class Membership {
    const me: NodeInfo
    var incarnation: u64
    var bloomVersion: u64
    var members: map<string, NodeInfo>

    function Value(): View
      reads this
    {
      View(me, incarnation, bloomVersion, members)
    }

    constructor (me: NodeInfo)
      ensures this.me == me && incarnation == (if me.incarnation == 0 then 1 else me.incarnation)
      ensures bloomVersion == me.bloomVersion && members == map[me.id := me]
    {
      this.me := me;
      incarnation := Max(me.incarnation, 1);
      bloomVersion := me.bloomVersion;
      members := map[me.id := me];
    }

    method Merge(incoming: seq<NodeInfo>, now: u64)
      modifies this
      ensures Value() == Merged(old(Value()), incoming, now)
    {
      ghost var before := Value();
      for i := 0 to |incoming|
        invariant Value() == Merged(before, incoming[..i], now)
      {
        assert incoming[..i + 1][..i] == incoming[..i];
        var n := incoming[i];
        if n.id == me.id {
          if n.incarnation > incarnation || (n.incarnation == incarnation && n.state != Alive) {
            incarnation := (Max(n.incarnation, incarnation) + 1) % U64_LIMIT;
          }
          members := members[me.id := me.(incarnation := incarnation, lastSeen := now, state := Alive)];
          continue;
        }
        if n.clusterHash != me.clusterHash {
          continue;
        }
        if n.id in members {
          if Newer(n, members[n.id]) {
            members := members[n.id := n];
          }
        } else {
          members := members[n.id := n];
        }
      }
      assert incoming[..|incoming|] == incoming;
    }

    method TouchPeer(id: string, now: u64)
      modifies this`members
      ensures Value() == Touched(old(Value()), id, now)
    {
      if id in members {
        members := members[id := members[id].(lastSeen := now)];
        if members[id].state != Alive {
          members := members[id := members[id].(state := Alive)];
        }
      }
    }

    // Also returns the members for which on_peer_dead fires: those that just became Dead.
    method Sweep(now: u64) returns (newlyDead: set<string>)
      modifies this`members
      ensures Value() == Swept(old(Value()), now)
      ensures newlyDead == set id | id in members && members[id].state == Dead && old(members)[id].state != Dead
    {
      hide StateByAge;
      newlyDead := {};
      var todo := members.Keys;
      while todo != {}
        invariant todo <= members.Keys == old(members).Keys
        invariant forall id | id in todo :: members[id] == old(members)[id]
        invariant forall id | id in members && id !in todo :: members[id] == SweptRecord(old(Value()), id, now)
        invariant newlyDead == set id | id in members && id !in todo
                                        && members[id].state == Dead && old(members)[id].state != Dead
        decreases todo
      {
        var id :| id in todo;
        todo := todo - {id};
        if id != me.id {
          var state := StateByAge(members[id], now);
          if state != members[id].state {
            if state == Dead {
              newlyDead := newlyDead + {id};
            }
            members := members[id := members[id].(state := state)];
          }
        }
      }
    }

    // In a table that holds its members' own records, the list names exactly the other live members,
    // each once, with the table's record.
    method MembersAlive() returns (alive: seq<NodeInfo>)
      ensures Pure(Value()) ==> ListsAlive(alive, Value())
    {
      alive := [];
      var todo := members.Keys;
      ghost var v := Value();
      NothingListed(v);
      hide ListsExcept, Pure;
      while todo != {}
        invariant todo <= members.Keys && (Pure(v) ==> ListsExcept(alive, v, todo))
        decreases |todo|
      {
        var id :| id in todo;
        var n := members[id];
        if Pure(v) {
          OneMoreListed(alive, v, todo, id);
        }
        todo := todo - {id};
        if n.state == Alive && n.id != me.id && n.clusterHash == me.clusterHash {
          alive := alive + [n];
        }
      }
      AllListed(alive, v);
    }
  }

  // The list is complete but for the ids still to come.
  ghost predicate ListsExcept(alive: seq<NodeInfo>, v: View, todo: set<string>) {
    && (forall n | n in alive :: n.id in AliveIds(v) - {v.me.id} - todo && v.members[n.id] == n)
    && (forall id | id in AliveIds(v) - {v.me.id} - todo :: v.members[id] in alive && v.members[id].id == id)
    && (forall i, j | 0 <= i < j < |alive| :: alive[i].id != alive[j].id)
  }

  lemma NothingListed(v: View)
    ensures ListsExcept([], v, v.members.Keys)
  {
  }

  lemma AllListed(alive: seq<NodeInfo>, v: View)
    ensures ListsExcept(alive, v, {}) ==> ListsAlive(alive, v)
  {
    assert AliveIds(v) - {v.me.id} - {} == AliveIds(v) - {v.me.id};
  }

  lemma OneMoreListed(alive: seq<NodeInfo>, v: View, todo: set<string>, id: string)
    requires Pure(v) && id in todo && id in v.members && ListsExcept(alive, v, todo)
    ensures
      var n := v.members[id];
      var listed := n.state == Alive && n.id != v.me.id && n.clusterHash == v.me.clusterHash;
      ListsExcept(if listed then alive + [n] else alive, v, todo - {id})
  {
    assert v.members[id].id == id;
    assert forall i | 0 <= i < |alive| :: alive[i] in alive;
  }

  ghost function AliveIds(v: View): set<string> {
    set id | id in v.members && v.members[id].state == Alive
  }

  ghost predicate ListsAlive(alive: seq<NodeInfo>, v: View) {
    && (forall n | n in alive :: n.id in AliveIds(v) - {v.me.id} && v.members[n.id] == n)
    && (forall id | id in AliveIds(v) - {v.me.id} :: v.members[id] in alive && v.members[id].id == id)
    && (forall i, j | 0 <= i < j < |alive| :: alive[i].id != alive[j].id)
  }

  // ---- The merge is a join ----

  // Records that may replace the entry of another member.
  predicate Relevant(v: View, n: NodeInfo, id: string) {
    n.id == id && id != v.me.id && n.clusterHash == v.me.clusterHash
  }

  ghost predicate Candidate(v: View, ns: seq<NodeInfo>, id: string, r: NodeInfo) {
    (r in ns && Relevant(v, r, id)) || (id in v.members && r == v.members[id])
  }

  // For every other member the merged table holds one of the records on offer, to which all of them give
  // way: first by incarnation, then by last_seen, then by severity of the state.
  lemma {:induction false} MergeKeepsNewest(v: View, ns: seq<NodeInfo>, now: u64, id: string)
    requires id != v.me.id
    ensures Merged(v, ns, now).me == v.me
    ensures
      var t := Merged(v, ns, now).members;
      && (id in t <==> exists r :: Candidate(v, ns, id, r))
      && (id in t ==> Candidate(v, ns, id, t[id]) && forall r | Candidate(v, ns, id, r) :: GivesWay(r, t[id]))
  {
    hide GivesWay, Newer;
    MergeKeepsBest(v, ns, now, id);
    var t := Merged(v, ns, now).members;
    forall r | id in t && Candidate(v, ns, id, r)
      ensures GivesWay(r, t[id])
    {
      GivesWayIff(r, t[id]);
    }
  }

  lemma {:induction false} MergeKeepsBest(v: View, ns: seq<NodeInfo>, now: u64, id: string)
    requires id != v.me.id
    ensures Merged(v, ns, now).me == v.me
    ensures
      var t := Merged(v, ns, now).members;
      && (id in t <==> exists r :: Candidate(v, ns, id, r))
      && (id in t ==> Candidate(v, ns, id, t[id]) && forall r | Candidate(v, ns, id, r) :: !Newer(r, t[id]))
  {
    if ns == [] {
      assert id in v.members ==> Candidate(v, ns, id, v.members[id]);
    } else {
      var init, n := ns[..|ns| - 1], ns[|ns| - 1];
      MergeKeepsBest(v, init, now, id);
      var u := Merged(v, init, now);
      var t := Merged(v, ns, now).members;
      forall r
        ensures Candidate(v, ns, id, r) <==> Candidate(v, init, id, r) || (r == n && Relevant(v, n, id))
      {
        assert ns == init + [n];
      }
      if Relevant(v, n, id) {
        assert Candidate(v, ns, id, n);
      } else {
        assert id in t <==> id in u.members;
        assert id in t ==> t[id] == u.members[id];
      }
    }
  }

  // Order, batching and repetition of the incoming records do not matter to what wins.
  lemma MergeOrderIrrelevant(v: View, ns: seq<NodeInfo>, ms: seq<NodeInfo>, now: u64, now': u64, id: string)
    requires id != v.me.id
    requires forall r | Relevant(v, r, id) :: r in ns <==> r in ms
    ensures
      var t, t' := Merged(v, ns, now).members, Merged(v, ms, now').members;
      (id in t <==> id in t') && (id in t ==> Tied(t[id], t'[id]))
  {
    MergeKeepsNewest(v, ns, now, id);
    MergeKeepsNewest(v, ms, now', id);
    assert forall r :: Candidate(v, ns, id, r) <==> Candidate(v, ms, id, r);
  }

  lemma {:induction false} MergeInBatches(v: View, ns: seq<NodeInfo>, ms: seq<NodeInfo>, now: u64)
    ensures Merged(v, ns + ms, now) == Merged(Merged(v, ns, now), ms, now)
  {
    if ms == [] {
      assert ns + ms == ns;
    } else {
      assert (ns + ms)[..|ns + ms| - 1] == ns + ms[..|ms| - 1];
      MergeInBatches(v, ns, ms[..|ms| - 1], now);
    }
  }

  function Kept(v: View, ns: seq<NodeInfo>, now: u64, id: string): Option<NodeInfo> {
    var t := Merged(v, ns, now).members;
    if id in t then Some(t[id]) else None
  }

  ghost predicate Newest(v: View, ns: seq<NodeInfo>, id: string, r: NodeInfo) {
    Candidate(v, ns, id, r) && forall q | Candidate(v, ns, id, q) :: !Newer(q, r)
  }

  // A record already in the table survives everything that is not newer.
  lemma {:induction false} IncumbentStays(v: View, ns: seq<NodeInfo>, now: u64, id: string)
    requires id != v.me.id && id in v.members
    requires forall n | n in ns && Relevant(v, n, id) :: !Newer(n, v.members[id])
    ensures Kept(v, ns, now, id) == Some(v.members[id])
  {
    if ns != [] {
      var init, n := ns[..|ns| - 1], ns[|ns| - 1];
      assert ns == init + [n];
      IncumbentStays(v, init, now, id);
      MergeMe(v, init, now);
      assert n in ns;
    }
  }

  // A newest record that comes first is kept, unless the table's own entry is as new.
  lemma FirstNewestStays(v: View, r: NodeInfo, rest: seq<NodeInfo>, now: u64, id: string)
    requires id != v.me.id && Relevant(v, r, id) && Newest(v, [r] + rest, id, r)
    requires id in v.members ==> !Newest(v, [r] + rest, id, v.members[id])
    ensures Kept(v, [r] + rest, now, id) == Some(r)
  {
    assert id in v.members ==> Candidate(v, [r] + rest, id, v.members[id]);
    var u := Absorb(v, r, now);
    assert id in u.members && u.members[id] == r;
    MergeOne(v, r, now);
    MergeInBatches(v, [r], rest, now);
    forall n | n in rest && Relevant(u, n, id)
      ensures !Newer(n, r)
    {
      assert Candidate(v, [r] + rest, id, n);
    }
    IncumbentStays(u, rest, now, id);
  }

  lemma SameCandidates(v: View, ns: seq<NodeInfo>, ms: seq<NodeInfo>, id: string)
    requires multiset(ms) == multiset(ns)
    ensures forall r :: Candidate(v, ms, id, r) <==> Candidate(v, ns, id, r)
    ensures forall r :: Newest(v, ms, id, r) <==> Newest(v, ns, id, r)
  {
    forall r
      ensures r in ms <==> r in ns
    {
      assert r in ms <==> r in multiset(ms);
      assert r in ns <==> r in multiset(ns);
    }
    assert forall r :: Candidate(v, ms, id, r) <==> Candidate(v, ns, id, r);
  }

  // A reordering of ns that starts with r.
  lemma BroughtToFront(ns: seq<NodeInfo>, r: NodeInfo) returns (rest: seq<NodeInfo>)
    requires r in ns
    ensures multiset([r] + rest) == multiset(ns)
  {
    var i :| 0 <= i < |ns| && ns[i] == r;
    rest := ns[..i] + ns[i + 1..];
    assert ns == ns[..i] + [r] + ns[i + 1..];
  }

  ghost predicate OrderIrrelevant(v: View, ns: seq<NodeInfo>, now: u64, id: string) {
    forall ms | multiset(ms) == multiset(ns) :: Kept(v, ms, now, id) == Kept(v, ns, now, id)
  }

  // The exact condition under which the record kept, and not only its precedence, does not depend on
  // the order of the batch: the newest records on offer are one and the same, or the table's own entry
  // is among them.
  lemma OrderMattersOnTies(v: View, ns: seq<NodeInfo>, now: u64, id: string)
    requires id != v.me.id
    ensures OrderIrrelevant(v, ns, now, id) <==>
      || (id in v.members && Newest(v, ns, id, v.members[id]))
      || (forall r, q | Newest(v, ns, id, r) && Newest(v, ns, id, q) :: r == q)
  {
    if id in v.members && Newest(v, ns, id, v.members[id]) {
      forall ms | multiset(ms) == multiset(ns)
        ensures Kept(v, ms, now, id) == Some(v.members[id])
      {
        SameCandidates(v, ns, ms, id);
        assert forall n | n in ms && Relevant(v, n, id) :: Candidate(v, ms, id, n);
        IncumbentStays(v, ms, now, id);
      }
    } else if r, q :| Newest(v, ns, id, r) && Newest(v, ns, id, q) && r != q {
      TiesDiffer(v, ns, now, id, r, q);
    } else {
      forall ms | multiset(ms) == multiset(ns)
        ensures Kept(v, ms, now, id) == Kept(v, ns, now, id)
      {
        SameCandidates(v, ns, ms, id);
        MergeKeepsNewest(v, ns, now, id);
        MergeKeepsNewest(v, ms, now, id);
        var t, t' := Merged(v, ns, now).members, Merged(v, ms, now).members;
        assert id in t <==> id in t';
        if id in t {
          assert Newest(v, ns, id, t[id]) && Newest(v, ms, id, t'[id]);
        }
      }
    }
  }

  lemma TiesDiffer(v: View, ns: seq<NodeInfo>, now: u64, id: string, r: NodeInfo, q: NodeInfo)
    requires id != v.me.id && (id in v.members ==> !Newest(v, ns, id, v.members[id]))
    requires Newest(v, ns, id, r) && Newest(v, ns, id, q) && r != q
    ensures !OrderIrrelevant(v, ns, now, id)
  {
    var a := BroughtToFront(ns, r);
    SameCandidates(v, ns, [r] + a, id);
    FirstNewestStays(v, r, a, now, id);
    var b := BroughtToFront(ns, q);
    SameCandidates(v, ns, [q] + b, id);
    FirstNewestStays(v, q, b, now, id);
  }

  lemma MergeOne(v: View, n: NodeInfo, now: u64)
    ensures Merged(v, [n], now) == Absorb(v, n, now)
  {
    assert [n][..0] == [];
  }

  // ---- Push-pull: /cluster/sync and gossip_with ----

  ghost predicate Lists(ns: seq<NodeInfo>, v: View) {
    forall n :: n in ns <==> n in v.members.Values
  }

  // Every record in the table is filed under its own id and carries this cluster's hash.
  ghost predicate Pure(v: View) {
    forall id | id in v.members :: v.members[id].id == id && v.members[id].clusterHash == v.me.clusterHash
  }

  // One side of the exchange (the server on the request, the caller on the reply): refuse a foreign
  // cluster, otherwise merge the table and the sender's own record, and mark the sender as heard from.
  function Receive(v: View, from: NodeInfo, listing: seq<NodeInfo>, now: u64): Option<View> {
    if from.clusterHash != v.me.clusterHash then None
    else Some(Touched(Merged(v, listing + [from], now), from.id, now))
  }

  // `id`'s record in the view beats or equals the given one.
  ghost predicate Covers(v: View, id: string, r: NodeInfo) {
    id in v.members && GivesWay(r, v.members[id])
  }

  // Receiving a whole table leaves, for each third member, the newer of the two records.
  lemma ReceiveTable(v: View, from: NodeInfo, w: View, listing: seq<NodeInfo>, now: u64, id: string)
    requires Pure(v) && Pure(w) && v.me.clusterHash == w.me.clusterHash == from.clusterHash
    requires Lists(listing, w) && id != v.me.id && id != from.id
    ensures
      var v' := Receive(v, from, listing, now).value;
      && (id in v'.members <==> id in v.members || id in w.members)
      && (id in v.members ==> Covers(v', id, v.members[id]))
      && (id in w.members ==> Covers(v', id, w.members[id]))
      && (id in v'.members ==>
            || (id in v.members && v'.members[id] == v.members[id])
            || (id in w.members && v'.members[id] == w.members[id]))
  {
    var ns := listing + [from];
    MergeKeepsNewest(v, ns, now, id);
    var t := Merged(v, ns, now).members;
    assert id in v.members ==> Candidate(v, ns, id, v.members[id]);
    if id in w.members {
      assert w.members[id] in listing;
      assert Candidate(v, ns, id, w.members[id]);
    }
    forall r | Candidate(v, ns, id, r)
      ensures (id in v.members && r == v.members[id]) || (id in w.members && r == w.members[id])
    {
    }
  }

  // One exchange: the server ends up with the newer record of every third member; so does the caller,
  // against whatever its own table has become meanwhile, and the two agree on it unless the caller
  // has learnt something newer in between.
  lemma ExchangeAgrees(a: View, later: View, b: View, toB: seq<NodeInfo>, toA: seq<NodeInfo>,
                       nowB: u64, nowA: u64, sentAt: u64, repliedAt: u64, id: string)
    requires Pure(a) && Pure(b) && Pure(later) && a.me.clusterHash == b.me.clusterHash && later.me == a.me
    requires id != a.me.id && id != b.me.id
    requires Lists(toB, a) && Receive(b, Snapshot(a, sentAt), toB, nowB).Some?
    requires Lists(toA, Receive(b, Snapshot(a, sentAt), toB, nowB).value)
    ensures
      var b' := Receive(b, Snapshot(a, sentAt), toB, nowB).value;
      var reply := Receive(later, Snapshot(b', repliedAt), toA, nowA);
      reply.Some? &&
      var a' := reply.value;
      && (id in b'.members <==> id in a.members || id in b.members)
      && (id in b'.members ==> Covers(a', id, b'.members[id]))
      && (id in later.members && id in b'.members ==>
            (Tied(a'.members[id], b'.members[id]) <==> GivesWay(later.members[id], b'.members[id])))
      && (later == a ==>
            && (id in a'.members <==> id in b'.members)
            && (id in a'.members ==> Tied(a'.members[id], b'.members[id])))
  {
    ReceiveTable(b, Snapshot(a, sentAt), a, toB, nowB, id);
    ReceivePure(b, Snapshot(a, sentAt), toB, nowB);
    var b' := Receive(b, Snapshot(a, sentAt), toB, nowB).value;
    MergeMe(b, toB + [Snapshot(a, sentAt)], nowB);
    ReceiveTable(later, Snapshot(b', repliedAt), b', toA, nowA, id);
  }

  lemma {:induction false} MergeMe(v: View, ns: seq<NodeInfo>, now: u64)
    ensures Merged(v, ns, now).me == v.me
  {
    if ns != [] {
      MergeMe(v, ns[..|ns| - 1], now);
    }
  }

  lemma ReceivePure(v: View, from: NodeInfo, listing: seq<NodeInfo>, now: u64)
    requires Pure(v) && Receive(v, from, listing, now).Some?
    ensures Pure(Receive(v, from, listing, now).value)
  {
    MergePure(v, listing + [from], now);
    MergeMe(v, listing + [from], now);
  }

  // ---- Runs of one node ----

  datatype Action =
    | Merge(records: seq<NodeInfo>, now: u64)
    | Touch(id: string, now: u64)
    | Sweep(now: u64)
    | SetBloomVersion(version: u64)

  function Step(v: View, a: Action): View {
    match a
    case Merge(ns, now) => Merged(v, ns, now)
    case Touch(id, now) => Touched(v, id, now)
    case Sweep(now) => Swept(v, now)
    case SetBloomVersion(b) => v.(bloomVersion := b)
  }

  function Run(v: View, acts: seq<Action>): View
    decreases |acts|
  {
    if acts == [] then v else Run(Step(v, acts[0]), acts[1..])
  }

  // No record of another cluster ever enters a table.
  lemma {:induction false} MergePure(v: View, ns: seq<NodeInfo>, now: u64)
    requires Pure(v)
    ensures Pure(Merged(v, ns, now))
  {
    if ns != [] {
      MergePure(v, ns[..|ns| - 1], now);
      MergeMe(v, ns[..|ns| - 1], now);
    }
  }

  lemma {:induction false} TableStaysPure(v: View, acts: seq<Action>)
    requires Pure(v)
    ensures Pure(Run(v, acts))
    decreases |acts|
  {
    if acts != [] {
      match acts[0] {
        case Merge(ns, now) => MergePure(v, ns, now);
        case Touch(_, _) =>
        case Sweep(_) =>
        case SetBloomVersion(_) =>
      }
      TableStaysPure(Step(v, acts[0]), acts[1..]);
    }
  }

  // Incarnation `inc` answers the claim n makes about the node that holds it.
  predicate Answers(inc: u64, n: NodeInfo) {
    inc >= n.incarnation && (n.state != Alive ==> inc > n.incarnation)
  }

  ghost predicate SelfAlive(v: View) {
    v.me.id in v.members && v.members[v.me.id].state == Alive
  }

  // The claim forces the increment past the largest incarnation.
  predicate Wraps(inc: u64, n: NodeInfo) {
    n.incarnation == U64_MAX && (inc < U64_MAX || n.state != Alive)
  }

  // The exact condition for one record: it is refuted, without lowering the incarnation, unless it
  // forces a wrap-around.
  // It then is the incarnation right above the claim, or still the old one if that answers it.
  lemma RefutationIsExact(inc: u64, n: NodeInfo)
    ensures (Refuted(inc, n) >= inc && Answers(Refuted(inc, n), n)) <==> !Wraps(inc, n)
    ensures !Wraps(inc, n) ==> Refuted(inc, n) == if Answers(inc, n) then inc else n.incarnation + 1
  {
    assert U64_LIMIT % U64_LIMIT == 0;
    var m := Max(n.incarnation, inc) + 1;
    assert m < U64_LIMIT ==> m % U64_LIMIT == m;
  }

  // ---- The claims of a whole run ----

  // The records about `id` in a batch, and in a run.
  function About(id: string, ns: seq<NodeInfo>): seq<NodeInfo> {
    if ns == [] then []
    else About(id, ns[..|ns| - 1]) + if ns[|ns| - 1].id == id then [ns[|ns| - 1]] else []
  }

  function Claims(id: string, acts: seq<Action>): seq<NodeInfo> {
    if acts == [] then []
    else (if acts[0].Merge? then About(id, acts[0].records) else []) + Claims(id, acts[1..])
  }

  function IncarnationAfter(inc: u64, cs: seq<NodeInfo>): u64 {
    if cs == [] then inc else Refuted(IncarnationAfter(inc, cs[..|cs| - 1]), cs[|cs| - 1])
  }

  // At every moment the incarnation has not fallen and answers every claim received so far.
  ghost predicate Steady(inc: u64, cs: seq<NodeInfo>) {
    cs == [] ||
    (var init := cs[..|cs| - 1];
     && Steady(inc, init) && IncarnationAfter(inc, init) <= IncarnationAfter(inc, cs)
     && forall n | n in cs :: Answers(IncarnationAfter(inc, cs), n))
  }

  ghost predicate NeverWraps(inc: u64, cs: seq<NodeInfo>) {
    cs == [] ||
    (var init := cs[..|cs| - 1];
     NeverWraps(inc, init) && !Wraps(IncarnationAfter(inc, init), cs[|cs| - 1]))
  }

  lemma {:induction false} AfterConcat(inc: u64, a: seq<NodeInfo>, b: seq<NodeInfo>)
    ensures IncarnationAfter(inc, a + b) == IncarnationAfter(IncarnationAfter(inc, a), b)
  {
    if b == [] {
      assert a + b == a;
    } else {
      assert (a + b)[..|a + b| - 1] == a + b[..|b| - 1];
      AfterConcat(inc, a, b[..|b| - 1]);
    }
  }

  lemma {:induction false} SteadyIffNeverWraps(inc: u64, cs: seq<NodeInfo>)
    ensures Steady(inc, cs) <==> NeverWraps(inc, cs)
  {
    if cs != [] {
      var init, last := cs[..|cs| - 1], cs[|cs| - 1];
      SteadyIffNeverWraps(inc, init);
      RefutationIsExact(IncarnationAfter(inc, init), last);
      assert cs == init + [last];
      if Steady(inc, init) {
        AnswersSoFar(inc, init);
      }
    }
  }

  lemma AnswersSoFar(inc: u64, cs: seq<NodeInfo>)
    requires Steady(inc, cs)
    ensures forall n | n in cs :: Answers(IncarnationAfter(inc, cs), n)
  {
  }

  lemma {:induction false} MergeRefutes(v: View, ns: seq<NodeInfo>, now: u64)
    requires SelfAlive(v)
    ensures
      var v' := Merged(v, ns, now);
      && v'.me == v.me && SelfAlive(v')
      && v'.incarnation == IncarnationAfter(v.incarnation, About(v.me.id, ns))
      && v'.members[v.me.id] ==
         if About(v.me.id, ns) == [] then v.members[v.me.id]
         else v.me.(incarnation := v'.incarnation, lastSeen := now, state := Alive)
  {
    if ns != [] {
      var init, last := ns[..|ns| - 1], ns[|ns| - 1];
      MergeRefutes(v, init, now);
      var cs := About(v.me.id, init);
      assert (cs + [last])[..|cs|] == cs;
      assert cs + [] == cs;
    }
  }

  lemma {:induction false} RunRefutes(v: View, acts: seq<Action>)
    requires SelfAlive(v)
    ensures
      var v' := Run(v, acts);
      && v'.me == v.me && SelfAlive(v')
      && v'.incarnation == IncarnationAfter(v.incarnation, Claims(v.me.id, acts))
    decreases |acts|
  {
    if acts != [] {
      var first := if acts[0].Merge? then About(v.me.id, acts[0].records) else [];
      match acts[0] {
        case Merge(ns, now) => MergeRefutes(v, ns, now);
        case Touch(_, _) =>
        case Sweep(_) =>
        case SetBloomVersion(_) =>
      }
      RunRefutes(Step(v, acts[0]), acts[1..]);
      AfterConcat(v.incarnation, first, Claims(v.me.id, acts[1..]));
    }
  }

  // Over every run the node's own entry stays Alive; and the incarnation never falls and always
  // answers every claim received, if and only if no claim forces a wrap-around.
  lemma SelfRefutation(v: View, acts: seq<Action>)
    requires SelfAlive(v)
    ensures
      var v', cs := Run(v, acts), Claims(v.me.id, acts);
      && v'.me == v.me && SelfAlive(v') && v'.incarnation == IncarnationAfter(v.incarnation, cs)
      && (Steady(v.incarnation, cs) <==> NeverWraps(v.incarnation, cs))
  {
    RunRefutes(v, acts);
    SteadyIffNeverWraps(v.incarnation, Claims(v.me.id, acts));
  }

  // A sweep judges every other member by the seconds since it was last seen: up to 30 it is alive, up to 60
  // suspect, after that dead; a time in the future counts as now. Nothing else changes.
  lemma SweepStates(v: View, now: u64, id: string)
    requires id in v.members
    ensures
      var n, n' := v.members[id], Swept(v, now).members[id];
      && n' == n.(state := n'.state) && (id == v.me.id ==> n' == n)
      && (id != v.me.id ==>
            && (n'.state == Alive <==> now <= n.lastSeen + 30)
            && (n'.state == Suspect <==> n.lastSeen + 30 < now <= n.lastSeen + 60)
            && (n'.state == Dead <==> n.lastSeen + 60 < now))
    ensures Swept(v, now) == v.(members := Swept(v, now).members) && Swept(v, now).members.Keys == v.members.Keys
  {
  }

  // A member heard from is listed by every sweep of the next 30 seconds, as last seen at that time.
  lemma TouchedIsListed(v: View, id: string, now: u64, later: u64, alive: seq<NodeInfo>)
    requires Pure(v) && id in v.members && id != v.me.id && later <= now + 30
    requires ListsAlive(alive, Swept(Touched(v, id, now), later))
    ensures v.members[id].(lastSeen := now, state := Alive) in alive
  {
    var w := Swept(Touched(v, id, now), later);
    assert id in AliveIds(w) - {w.me.id};
  }

  // Whoever takes part in an exchange is known to the other side from then on: alive, seen now, and with an
  // incarnation no older than its own.
  lemma ReceiveHearsSender(v: View, sender: View, listing: seq<NodeInfo>, now: u64, sentAt: u64)
    requires sender.me.clusterHash == v.me.clusterHash && sender.me.id != v.me.id
    ensures
      var from := Snapshot(sender, sentAt);
      Receive(v, from, listing, now).Some? &&
      var v' := Receive(v, from, listing, now).value;
      && from.id == sender.me.id && from.id in v'.members
      && v'.members[from.id].state == Alive && v'.members[from.id].lastSeen == now
      && v'.members[from.id].incarnation >= sender.incarnation
  {
    var from := Snapshot(sender, sentAt);
    var ns := listing + [from];
    MergeKeepsNewest(v, ns, now, from.id);
    assert Candidate(v, ns, from.id, from);
  }

  // After any run and a sweep, the peers listed as alive belong to this cluster, are not this node and
  // were heard from within the timeout; and everybody else who was is listed.
  lemma AliveAfterSweep(v: View, acts: seq<Action>, now: u64, alive: seq<NodeInfo>)
    requires Pure(v) && ListsAlive(alive, Swept(Run(v, acts), now))
    ensures
      var t := Run(v, acts);
      forall id :: (exists n :: n in alive && n.id == id) <==>
        && id in t.members && id != t.me.id && t.members[id].clusterHash == t.me.clusterHash
        && now <= t.members[id].lastSeen + HEARTBEAT_TIMEOUT_SECS
  {
    TableStaysPure(v, acts);
    var t := Run(v, acts);
    hide Run;
    var w := Swept(t, now);
    forall id
      ensures (exists n :: n in alive && n.id == id) <==>
        && id in t.members && id != t.me.id && t.members[id].clusterHash == t.me.clusterHash
        && now <= t.members[id].lastSeen + HEARTBEAT_TIMEOUT_SECS
    {
      if id in AliveIds(w) - {w.me.id} {
        assert w.members[id] in alive;
      }
    }
  }
}
