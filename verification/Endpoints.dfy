/** The endpoint table of the RDMA transport (RuntimeState in src/transport_ucx.rs): one reference
    counted endpoint per peer, with a broken flag that is never taken back. Requests check an endpoint
    out and release it; address updates, asynchronous errors and a periodic reaper come in between. */
module Endpoints {
  import opened Core

  datatype Slot = Slot(ep: nat, broken: bool, addr: Bytes, inFlight: nat)

  datatype Handle = Handle(peer: string, ep: nat)

  // Endpoints are named by the order of their creation.
  datatype Table = Table(eps: map<string, Slot>, addrs: map<string, Bytes>, created: nat)

  // ---- One call ----

  // The address update finds an idle endpoint for another address.
  predicate Replaces(t: Table, peer: string, addr: Bytes) {
    peer in t.eps && t.eps[peer].addr != addr && t.eps[peer].inFlight == 0
  }

  function Updated(t: Table, peer: string, addr: Bytes): Table {
    var eps :=
      if Replaces(t, peer, addr) then t.eps - {peer}
      else if peer in t.eps && t.eps[peer].addr != addr then t.eps[peer := t.eps[peer].(broken := true)]
      else t.eps;
    t.(eps := eps, addrs := t.addrs[peer := addr])
  }

  predicate MayCheckOut(t: Table, peer: string, addr: Bytes, createOk: bool) {
    if peer in t.eps then !t.eps[peer].broken && t.eps[peer].addr == addr else createOk
  }

  function CheckedOut(t: Table, peer: string, addr: Bytes): Table {
    if peer in t.eps
    then t.(eps := t.eps[peer := t.eps[peer].(inFlight := t.eps[peer].inFlight + 1)])
    else t.(eps := t.eps[peer := Slot(t.created, false, addr, 1)], created := t.created + 1)
  }

  // The release is the last one of a broken endpoint.
  predicate Retires(t: Table, peer: string) {
    peer in t.eps && t.eps[peer].inFlight <= 1 && t.eps[peer].broken
  }

  function Released(t: Table, peer: string): Table {
    if peer !in t.eps then t
    else if Retires(t, peer) then t.(eps := t.eps - {peer})
    else t.(eps := t.eps[peer := t.eps[peer].(inFlight := Max(t.eps[peer].inFlight - 1, 0))])
  }

  function Marked(t: Table, peer: string): Table {
    if peer in t.eps then t.(eps := t.eps[peer := t.eps[peer].(broken := true)]) else t
  }

  predicate Reapable(s: Slot) {
    s.inFlight == 0 && s.broken
  }

  function Reaped(t: Table): Table {
    t.(eps := map p | p in t.eps && !Reapable(t.eps[p]) :: t.eps[p])
  }

  class RuntimeState {
    var peerEps: map<string, Slot>
    var peerAddrBlobs: map<string, Bytes>
    var created: nat

    ghost function Value(): Table
      reads this
    {
      Table(peerEps, peerAddrBlobs, created)
    }

    constructor ()
      ensures Value() == Table(map[], map[], 0)
    {
      peerEps, peerAddrBlobs, created := map[], map[], 0;
    }

    method UpdatePeerAddrBlob(peer: string, addr: Bytes) returns (removed: Option<nat>)
      modifies this
      ensures Value() == Updated(old(Value()), peer, addr)
      ensures removed == if Replaces(old(Value()), peer, addr) then Some(old(peerEps)[peer].ep) else None
      // the address is remembered, and an endpoint of another address serves no further request
      ensures peerAddrBlobs == old(peerAddrBlobs)[peer := addr]
      ensures peer in peerEps && !peerEps[peer].broken ==> peerEps[peer].addr == addr
      // it leaves if it is idle, and nothing else does
      ensures forall p :: p in old(peerEps) && p !in peerEps <==>
        p == peer && p in old(peerEps) && old(peerEps)[p].addr != addr && old(peerEps)[p].inFlight == 0
    {
      peerAddrBlobs := peerAddrBlobs[peer := addr];
      if peer in peerEps {
        var slot := peerEps[peer];
        if slot.addr != addr && slot.inFlight == 0 {
          peerEps := peerEps - {peer};
          return Some(slot.ep);
        }
        if slot.addr != addr {
          peerEps := peerEps[peer := slot.(broken := true)];
        }
      }
      return None;
    }

    // `createOk`: whether the library can make an endpoint for this address.
    method CheckoutEndpoint(peer: string, addr: Bytes, createOk: bool) returns (h: Result<Handle>)
      modifies this
      ensures h.Ok? <==>
        if peer in old(peerEps) then !old(peerEps)[peer].broken && old(peerEps)[peer].addr == addr else createOk
      ensures Value() == if h.Ok? then CheckedOut(old(Value()), peer, addr) else old(Value())
      ensures h.Ok? ==> peer in peerEps && h.value == Handle(peer, peerEps[peer].ep)
                        && !peerEps[peer].broken && peerEps[peer].addr == addr
    {
      if peer in peerEps {
        if peerEps[peer].broken {
          return Err;
        }
        if peerEps[peer].addr != addr {
          return Err;
        }
      } else {
        if !createOk {
          return Err;
        }
        peerEps := peerEps[peer := Slot(created, false, addr, 0)];
        created := created + 1;
      }
      peerEps := peerEps[peer := peerEps[peer].(inFlight := peerEps[peer].inFlight + 1)];
      return Ok(Handle(peer, peerEps[peer].ep));
    }

    method ReleaseEndpoint(h: Handle) returns (removed: Option<nat>)
      modifies this
      ensures Value() == Released(old(Value()), h.peer)
      ensures removed == if Retires(old(Value()), h.peer) then Some(old(peerEps)[h.peer].ep) else None
    {
      if h.peer !in peerEps {
        return None;
      }
      if peerEps[h.peer].inFlight > 0 {
        peerEps := peerEps[h.peer := peerEps[h.peer].(inFlight := peerEps[h.peer].inFlight - 1)];
      }
      var slot := peerEps[h.peer];
      if slot.inFlight == 0 && slot.broken {
        peerEps := peerEps - {h.peer};
        assert Value().eps == old(Value()).eps - {h.peer};
        return Some(slot.ep);
      }
      return None;
    }

    method MarkPeerEpBroken(peer: string)
      modifies this
      ensures Value() == Marked(old(Value()), peer)
    {
      if peer in peerEps {
        peerEps := peerEps[peer := peerEps[peer].(broken := true)];
      }
    }

    method TakeBrokenPeerEps() returns (removed: seq<nat>)
      requires Fresh(Value())
      modifies this
      ensures Value() == Reaped(old(Value())) && Fresh(Value())
      ensures multiset(removed) == multiset(ReapedEps(old(Value())))
    {
      hide EpsOf, ReapedEps, Fresh, Reaped;
      ghost var before := Value();
      EpsOfReapable(before);
      var ids := BrokenIds(peerEps);
      var todo := ids;
      removed := [];
      while todo != {}
        invariant todo <= ids
        invariant Value() == before.(eps := before.eps - (ids - todo))
        invariant multiset(removed) == multiset(EpsOf(before.eps, ids - todo))
        decreases |todo|
      {
        var p :| p in todo;
        ghost var done := ids - todo;
        assert ids - (todo - {p}) == done + {p};
        OneMoreOut(before, done, p);
        removed := removed + [peerEps[p].ep];
        peerEps := peerEps - {p};
        todo := todo - {p};
      }
      assert ids - todo == ids;
      ReapLoses(before);
      LosesFresh(before, Reaped(before), multiset(ReapedEps(before)));
    }
  }

  function BrokenIds(eps: map<string, Slot>): set<string> {
    set p | p in eps && Reapable(eps[p])
  }

  lemma EpsOfReapable(t: Table)
    ensures EpsOf(t.eps, BrokenIds(t.eps)) == ReapedEps(t) && t.(eps := t.eps - BrokenIds(t.eps)) == Reaped(t)
    ensures forall peers: set<string> | peers == {} :: EpsOf(t.eps, peers) == {} && t.eps - peers == t.eps
  {
  }

  lemma OneMoreOut(t: Table, done: set<string>, p: string)
    requires Fresh(t) && p in t.eps && p !in done
    ensures multiset(EpsOf(t.eps, done + {p})) == multiset(EpsOf(t.eps, done)) + multiset{t.eps[p].ep}
    ensures (t.eps - done) - {p} == t.eps - (done + {p}) && p in t.eps - done && (t.eps - done)[p] == t.eps[p]
  {
    assert EpsOf(t.eps, done + {p}) == EpsOf(t.eps, done) + {t.eps[p].ep};
  }

  ghost function EpsOf(m: map<string, Slot>, peers: set<string>): set<nat> {
    set p | p in peers && p in m :: m[p].ep
  }

  // What a reap takes out.
  function ReapedEps(t: Table): set<nat> {
    set p | p in t.eps && Reapable(t.eps[p]) :: t.eps[p].ep
  }

  // Peers have different endpoints, and all were created.
  ghost predicate Fresh(t: Table) {
    && (forall p | p in t.eps :: t.eps[p].ep < t.created)
    && (forall p, q | p in t.eps && q in t.eps && p != q :: t.eps[p].ep != t.eps[q].ep)
  }

  // ---- Runs ----

  // The handles of the requests under way, and the endpoints taken out of the table and closed so far.
  datatype State = State(table: Table, handles: map<nat, Handle>, removed: multiset<nat>, closed: multiset<nat>)

  datatype Action =
    | Update(peer: string, addr: Bytes)
    | Begin(task: nat, peer: string, addr: Bytes, createOk: bool)
    | Release(task: nat)
    | Mark(peer: string)
    | AsyncError(ep: nat)
    | Reap

  const Init := State(Table(map[], map[], 0), map[], multiset{}, multiset{})

  // The error callback sets the flag of its endpoint, wherever that is.
  function Errored(t: Table, ep: nat): Table {
    t.(eps := map p | p in t.eps :: if t.eps[p].ep == ep then t.eps[p].(broken := true) else t.eps[p])
  }

  function Replaced(t: Table, peer: string, addr: Bytes): multiset<nat> {
    if Replaces(t, peer, addr) then multiset{t.eps[peer].ep} else multiset{}
  }

  // A request: update and checkout in one go. The endpoint the update took out is closed only after a
  // successful checkout.
  function Begun(s: State, task: nat, peer: string, addr: Bytes, createOk: bool): State {
    var t := Updated(s.table, peer, addr);
    var out := Replaced(s.table, peer, addr);
    if !MayCheckOut(t, peer, addr, createOk) then s.(table := t, removed := s.removed + out)
    else
      var t' := CheckedOut(t, peer, addr);
      State(t', s.handles[task := Handle(peer, t'.eps[peer].ep)], s.removed + out, s.closed + out)
  }

  function TakenOut(s: State, t: Table, out: multiset<nat>): State {
    s.(table := t, removed := s.removed + out, closed := s.closed + out)
  }

  function Step(s: State, a: Action): State {
    match a
    case Update(p, addr) => TakenOut(s, Updated(s.table, p, addr), Replaced(s.table, p, addr))
    case Begin(task, p, addr, createOk) => if task in s.handles then s else Begun(s, task, p, addr, createOk)
    case Release(task) =>
      if task !in s.handles then s
      else
        var p := s.handles[task].peer;
        var out := if Retires(s.table, p) then multiset{s.table.eps[p].ep} else multiset{};
        TakenOut(s.(handles := s.handles - {task}), Released(s.table, p), out)
    case Mark(p) => s.(table := Marked(s.table, p))
    case AsyncError(ep) => s.(table := Errored(s.table, ep))
    case Reap => TakenOut(s, Reaped(s.table), multiset(ReapedEps(s.table)))
  }

  function Run(s: State, acts: seq<Action>): State
    decreases |acts|
  {
    if acts == [] then s else Run(Step(s, acts[0]), acts[1..])
  }

  ghost function Holders(handles: map<nat, Handle>, peer: string): set<nat> {
    set t | t in handles && handles[t].peer == peer
  }

  // The reference count of every endpoint is the number of its handles.
  ghost predicate Counted(s: State) {
    forall p | p in s.table.eps :: s.table.eps[p].inFlight == |Holders(s.handles, p)|
  }

  // Whoever has a handle finds its endpoint in the table.
  ghost predicate Present(s: State) {
    forall t | t in s.handles
      :: s.handles[t].peer in s.table.eps && s.table.eps[s.handles[t].peer].ep == s.handles[t].ep
  }

  // An endpoint is taken out once at most, and is not in the table after that.
  ghost predicate OutOnce(s: State) {
    && (forall e :: s.removed[e] <= 1 && (s.removed[e] > 0 ==> e < s.table.created))
    && (forall p | p in s.table.eps :: s.removed[s.table.eps[p].ep] == 0)
  }

  ghost predicate Inv(s: State) {
    Fresh(s.table) && Counted(s) && Present(s) && OutOnce(s)
  }

  // The endpoints of t' are those of t without `out`.
  ghost predicate Loses(t: Table, t': Table, out: multiset<nat>) {
    && t'.created == t.created
    && (forall p | p in t'.eps :: p in t.eps && t'.eps[p].ep == t.eps[p].ep && out[t.eps[p].ep] == 0)
    && (forall e | out[e] > 0 :: out[e] == 1 && exists p :: p in t.eps && t.eps[p].ep == e)
  }

  lemma UpdateLoses(t: Table, peer: string, addr: Bytes)
    requires Fresh(t)
    ensures Loses(t, Updated(t, peer, addr), Replaced(t, peer, addr))
  {
  }

  lemma ReleaseLoses(t: Table, peer: string)
    requires Fresh(t)
    ensures Loses(t, Released(t, peer), if Retires(t, peer) then multiset{t.eps[peer].ep} else multiset{})
  {
  }

  lemma ReapLoses(t: Table)
    requires Fresh(t)
    ensures Loses(t, Reaped(t), multiset(ReapedEps(t)))
  {
    forall p | p in Reaped(t).eps
      ensures t.eps[p].ep !in ReapedEps(t)
    {
    }
  }

  lemma FlagLoses(t: Table, peer: string, ep: nat)
    ensures Loses(t, Marked(t, peer), multiset{}) && Loses(t, Errored(t, ep), multiset{})
  {
  }

  lemma LosesFresh(t: Table, t': Table, out: multiset<nat>)
    requires Fresh(t) && Loses(t, t', out)
    ensures Fresh(t')
  {
  }

  lemma CheckoutFresh(t: Table, peer: string, addr: Bytes)
    requires Fresh(t)
    ensures Fresh(CheckedOut(t, peer, addr))
  {
  }

  lemma HoldersChange(handles: map<nat, Handle>, handles': map<nat, Handle>, task: nat, p: string)
    requires forall t | t != task :: (t in handles <==> t in handles') && (t in handles ==> handles[t] == handles'[t])
    ensures |Holders(handles', p)| == |Holders(handles, p)|
      - (if task in handles && handles[task].peer == p then 1 else 0)
      + (if task in handles' && handles'[task].peer == p then 1 else 0)
  {
    var a, b := Holders(handles, p), Holders(handles', p);
    assert a - {task} == b - {task};
    assert |a - {task}| == |a| - if task in a then 1 else 0;
    assert |b - {task}| == |b| - if task in b then 1 else 0;
  }

  // Steps that leave the handles alone leave the reference counts alone.
  ghost predicate SameCounts(t: Table, t': Table) {
    forall p | p in t'.eps :: p in t.eps && t'.eps[p].inFlight == t.eps[p].inFlight
  }

  lemma FlagsKeepCounts(t: Table, peer: string, addr: Bytes, ep: nat)
    ensures SameCounts(t, Updated(t, peer, addr)) && SameCounts(t, Marked(t, peer))
    ensures SameCounts(t, Errored(t, ep)) && SameCounts(t, Reaped(t))
  {
  }

  // An endpoint in use stays where it is.
  ghost predicate KeepsUsed(t: Table, t': Table) {
    forall p | p in t.eps && t.eps[p].inFlight > 0 :: p in t'.eps && t'.eps[p].ep == t.eps[p].ep
  }

  lemma FlagsKeepUsed(t: Table, peer: string, addr: Bytes, ep: nat)
    ensures KeepsUsed(t, Updated(t, peer, addr)) && KeepsUsed(t, Marked(t, peer))
    ensures KeepsUsed(t, Errored(t, ep)) && KeepsUsed(t, Reaped(t))
  {
  }

  // A change of the table alone that keeps counts and what is in use.
  lemma Steady(s: State, s': State)
    requires Counted(s) && Present(s) && SameCounts(s.table, s'.table) && KeepsUsed(s.table, s'.table)
    requires s'.handles == s.handles
    ensures Counted(s') && Present(s')
  {
    forall t | t in s'.handles
      ensures s'.handles[t].peer in s'.table.eps && s'.table.eps[s'.handles[t].peer].ep == s'.handles[t].ep
    {
      InUse(s, t);
    }
  }

  lemma CheckoutCounted(s: State, task: nat, peer: string, addr: Bytes)
    requires Counted(s) && Present(s) && task !in s.handles
    ensures
      var t := CheckedOut(s.table, peer, addr);
      var s' := s.(table := t, handles := s.handles[task := Handle(peer, t.eps[peer].ep)]);
      Counted(s') && Present(s')
  {
    var t := CheckedOut(s.table, peer, addr);
    var s' := s.(table := t, handles := s.handles[task := Handle(peer, t.eps[peer].ep)]);
    forall p | p in s'.table.eps
      ensures s'.table.eps[p].inFlight == |Holders(s'.handles, p)|
    {
      HoldersChange(s.handles, s'.handles, task, p);
      NobodyHolds(s, p);
    }
  }

  // Counts and presence speak of the table and the handles.
  lemma SameHandles(s: State, s': State)
    requires Counted(s) && Present(s) && s'.table == s.table && s'.handles == s.handles
    ensures Counted(s') && Present(s')
  {
  }

  lemma CountedBegin(s: State, task: nat, peer: string, addr: Bytes, createOk: bool)
    requires Counted(s) && Present(s) && task !in s.handles
    ensures Counted(Begun(s, task, peer, addr, createOk)) && Present(Begun(s, task, peer, addr, createOk))
  {
    hide Counted, Present, Updated, CheckedOut, MayCheckOut, SameCounts, KeepsUsed, Replaced;
    var u := s.(table := Updated(s.table, peer, addr));
    FlagsKeepCounts(s.table, peer, addr, 0);
    FlagsKeepUsed(s.table, peer, addr, 0);
    Steady(s, u);
    var s' := Begun(s, task, peer, addr, createOk);
    if MayCheckOut(u.table, peer, addr, createOk) {
      CheckoutCounted(u, task, peer, addr);
      SameHandles(u.(table := s'.table, handles := s'.handles), s');
    } else {
      SameHandles(u, s');
    }
  }

  lemma CountedRelease(s: State, task: nat)
    requires Counted(s) && Present(s) && task in s.handles
    ensures Counted(Step(s, Release(task)))
  {
    var s' := Step(s, Release(task));
    InUse(s, task);
    forall p | p in s'.table.eps
      ensures s'.table.eps[p].inFlight == |Holders(s'.handles, p)|
    {
      HoldersChange(s.handles, s'.handles, task, p);
    }
  }

  lemma PresentRelease(s: State, task: nat)
    requires Counted(s) && Present(s) && task in s.handles
    ensures Present(Step(s, Release(task)))
  {
    var s' := Step(s, Release(task));
    forall t | t in s'.handles
      ensures s'.handles[t].peer in s'.table.eps && s'.table.eps[s'.handles[t].peer].ep == s'.handles[t].ep
    {
      if s.handles[t].peer == s.handles[task].peer {
        OthersInUse(s, t, task);
      }
    }
  }

  lemma StepCounted(s: State, a: Action)
    requires Counted(s) && Present(s)
    ensures Counted(Step(s, a)) && Present(Step(s, a))
  {
    hide Counted, Present, Updated, Marked, Errored, Reaped, Released, SameCounts, KeepsUsed,
      Begun, Replaced, ReapedEps;
    var t := s.table;
    match a
    case Begin(task, p, addr, createOk) =>
      if task !in s.handles {
        CountedBegin(s, task, p, addr, createOk);
      }
    case Release(task) =>
      if task in s.handles {
        CountedRelease(s, task);
        PresentRelease(s, task);
      }
    case Update(p, addr) =>
      FlagsKeepCounts(t, p, addr, 0);
      FlagsKeepUsed(t, p, addr, 0);
      Steady(s, Step(s, a));
    case Mark(p) =>
      FlagsKeepCounts(t, p, [], 0);
      FlagsKeepUsed(t, p, [], 0);
      Steady(s, Step(s, a));
    case AsyncError(e) =>
      FlagsKeepCounts(t, "", [], e);
      FlagsKeepUsed(t, "", [], e);
      Steady(s, Step(s, a));
    case Reap =>
      FlagsKeepCounts(t, "", [], 0);
      FlagsKeepUsed(t, "", [], 0);
      Steady(s, Step(s, a));
  }

  lemma NobodyHolds(s: State, p: string)
    requires Present(s)
    ensures p !in s.table.eps ==> Holders(s.handles, p) == {}
  {
  }

  lemma InUse(s: State, t: nat)
    requires Counted(s) && Present(s) && t in s.handles
    ensures s.table.eps[s.handles[t].peer].inFlight >= 1
  {
    assert t in Holders(s.handles, s.handles[t].peer);
  }

  lemma OthersInUse(s: State, t: nat, u: nat)
    requires Counted(s) && Present(s) && t in s.handles && u in s.handles
    requires t != u && s.handles[t].peer == s.handles[u].peer
    ensures s.table.eps[s.handles[t].peer].inFlight >= 2
  {
    var hs := Holders(s.handles, s.handles[t].peer);
    assert {t, u} <= hs;
    assert |hs| >= 2 by {
      assert |hs - {t}| >= 1 by { assert u in hs - {t}; }
    }
  }

  lemma LosesOutOnce(s: State, t': Table, out: multiset<nat>)
    requires Fresh(s.table) && OutOnce(s) && Loses(s.table, t', out)
    ensures OutOnce(s.(table := t', removed := s.removed + out))
  {
    var s' := s.(table := t', removed := s.removed + out);
    forall e
      ensures s'.removed[e] <= 1 && (s'.removed[e] > 0 ==> e < s'.table.created)
    {
      assert s'.removed[e] == s.removed[e] + out[e];
    }
  }

  lemma CheckoutOutOnce(s: State, peer: string, addr: Bytes)
    requires OutOnce(s)
    ensures OutOnce(s.(table := CheckedOut(s.table, peer, addr)))
  {
  }

  lemma Lost(s: State, t': Table, out: multiset<nat>)
    requires Fresh(s.table) && OutOnce(s) && Loses(s.table, t', out)
    ensures Fresh(t') && OutOnce(s.(table := t', removed := s.removed + out))
  {
    LosesFresh(s.table, t', out);
    LosesOutOnce(s, t', out);
  }

  // OutOnce speaks of the table and of what was removed.
  lemma SameRemoved(s: State, s': State)
    requires OutOnce(s) && s'.table == s.table && s'.removed == s.removed
    ensures OutOnce(s')
  {
  }

  lemma StepFreshAndOut(s: State, a: Action)
    requires Fresh(s.table) && OutOnce(s)
    ensures Fresh(Step(s, a).table) && OutOnce(Step(s, a))
  {
    hide Fresh, OutOnce, Loses, Updated, CheckedOut, Released, Marked, Errored, Reaped,
      MayCheckOut, Replaced, ReapedEps;
    var t, s' := s.table, Step(s, a);
    var none: multiset<nat> := multiset{};
    assert s.removed + none == s.removed;
    match a
    case Update(p, addr) =>
      UpdateLoses(t, p, addr);
      Lost(s, Updated(t, p, addr), Replaced(t, p, addr));
      SameRemoved(s.(table := s'.table, removed := s'.removed), s');
    case Begin(task, p, addr, _) =>
      if task !in s.handles {
        var out := Replaced(t, p, addr);
        var u := s.(table := Updated(t, p, addr), removed := s.removed + out);
        UpdateLoses(t, p, addr);
        Lost(s, u.table, out);
        CheckoutFresh(u.table, p, addr);
        CheckoutOutOnce(u, p, addr);
        SameRemoved(if s'.table == u.table then u else u.(table := CheckedOut(u.table, p, addr)), s');
      }
    case Release(task) =>
      if task in s.handles {
        var p := s.handles[task].peer;
        ReleaseLoses(t, p);
        Lost(s, s'.table, if Retires(t, p) then multiset{t.eps[p].ep} else none);
        SameRemoved(s.(table := s'.table, removed := s'.removed), s');
      }
    case Mark(p) =>
      FlagLoses(t, p, 0);
      Lost(s, s'.table, none);
    case AsyncError(e) =>
      FlagLoses(t, "", e);
      Lost(s, s'.table, none);
    case Reap =>
      ReapLoses(t);
      Lost(s, s'.table, multiset(ReapedEps(t)));
      SameRemoved(s.(table := s'.table, removed := s'.removed), s');
  }

  lemma StepInv(s: State, a: Action)
    requires Inv(s)
    ensures Inv(Step(s, a))
  {
    hide Step, Fresh, Counted, Present, OutOnce;
    StepFreshAndOut(s, a);
    StepCounted(s, a);
  }

  lemma {:induction false} RunInv(s: State, acts: seq<Action>)
    requires Inv(s)
    ensures Inv(Run(s, acts))
    decreases |acts|
  {
    if acts != [] {
      StepInv(s, acts[0]);
      RunInv(Step(s, acts[0]), acts[1..]);
    }
  }

  lemma InitInv()
    ensures Inv(Init)
  {
  }

  // In every run: reference counts are exact, every handle's endpoint is the one in the table and has
  // not been taken out, no endpoint is taken out twice.
  lemma EndpointsAreSafe(acts: seq<Action>)
    ensures
      var s := Run(Init, acts);
      && (forall p | p in s.table.eps :: s.table.eps[p].inFlight == |Holders(s.handles, p)|)
      && (forall t | t in s.handles ::
            var h := s.handles[t];
            h.peer in s.table.eps && s.table.eps[h.peer].ep == h.ep && s.removed[h.ep] == 0)
      && (forall e :: s.removed[e] <= 1)
  {
    InitInv();
    RunInv(Init, acts);
  }

  // A request gets an endpoint if and only if there is a usable one of its address, however many requests
  // share it; or there is none, or an idle one of another address, and a new one can be created.
  lemma HandedOutIff(s: State, task: nat, p: string, addr: Bytes, createOk: bool)
    requires task !in s.handles
    ensures task in Step(s, Begin(task, p, addr, createOk)).handles <==>
      if p in s.table.eps && s.table.eps[p].addr == addr then !s.table.eps[p].broken
      else createOk && (p in s.table.eps ==> s.table.eps[p].inFlight == 0)
  {
  }

  // A request only ever gets an endpoint that is not broken and has the address it asked for.
  lemma HandedOutSound(s: State, task: nat, peer: string, addr: Bytes, createOk: bool)
    requires task !in s.handles
    ensures
      var s' := Step(s, Begin(task, peer, addr, createOk));
      task in s'.handles ==>
        s'.handles[task].peer == peer && peer in s'.table.eps
        && s'.table.eps[peer].ep == s'.handles[task].ep && !s'.table.eps[peer].broken && s'.table.eps[peer].addr == addr
  {
  }

  // An endpoint that is broken, or out of the table.
  ghost predicate Spent(t: Table, e: nat) {
    e < t.created && forall p | p in t.eps && t.eps[p].ep == e :: t.eps[p].broken
  }

  lemma SpentStays(t: Table, peer: string, addr: Bytes, ep: nat, e: nat)
    requires Spent(t, e)
    ensures Spent(Updated(t, peer, addr), e) && Spent(Released(t, peer), e) && Spent(Reaped(t), e)
    ensures Spent(Marked(t, peer), e) && Spent(Errored(t, ep), e)
  {
  }

  lemma SpentCheckout(t: Table, peer: string, addr: Bytes, createOk: bool, e: nat)
    requires Spent(t, e)
    ensures Spent(CheckedOut(t, peer, addr), e)
    ensures MayCheckOut(t, peer, addr, createOk) ==> CheckedOut(t, peer, addr).eps[peer].ep != e
  {
  }

  lemma StepSpent(s: State, a: Action, e: nat)
    requires Spent(s.table, e)
    ensures Spent(Step(s, a).table, e)
    ensures
      var s' := Step(s, a);
      forall t | t in s'.handles && s'.handles[t].ep == e :: t in s.handles && s.handles[t] == s'.handles[t]
  {
    hide Spent, Updated, CheckedOut, Released, Marked, Errored, Reaped, MayCheckOut;
    match a
    case Update(p, addr) => SpentStays(s.table, p, addr, 0, e);
    case Begin(task, p, addr, createOk) =>
      SpentStays(s.table, p, addr, 0, e);
      SpentCheckout(Updated(s.table, p, addr), p, addr, createOk, e);
    case Release(task) => if task in s.handles { SpentStays(s.table, s.handles[task].peer, [], 0, e); }
    case Mark(p) => SpentStays(s.table, p, [], 0, e);
    case AsyncError(ep) => SpentStays(s.table, "", [], ep, e);
    case Reap => SpentStays(s.table, "", [], 0, e);
  }

  // Once broken, for good: no later request gets it, whatever happens.
  lemma {:induction false} SpentNeverServes(s: State, acts: seq<Action>, e: nat)
    requires Spent(s.table, e)
    ensures Spent(Run(s, acts).table, e)
    ensures forall t | t in Run(s, acts).handles && Run(s, acts).handles[t].ep == e
      :: t in s.handles && s.handles[t].ep == e
    decreases |acts|
  {
    hide Step, Spent;
    if acts != [] {
      StepSpent(s, acts[0], e);
      SpentNeverServes(Step(s, acts[0]), acts[1..], e);
    }
  }

  // What spends the endpoint of p: an error on it, a failed request to its peer, a new address of its peer,
  // be it by an update or by a request.
  predicate SpendsEp(s: State, a: Action, p: string)
    requires p in s.table.eps
  {
    match a
    case Update(q, addr) => q == p && addr != s.table.eps[p].addr
    case Begin(task, q, addr, _) => task !in s.handles && q == p && addr != s.table.eps[p].addr
    case Mark(q) => q == p
    case AsyncError(ep) => ep == s.table.eps[p].ep
    case _ => false
  }

  // p's endpoint is still there and usable.
  ghost predicate Usable(t: Table, p: string, ep: nat, addr: Bytes) {
    p in t.eps && t.eps[p].ep == ep && !t.eps[p].broken && t.eps[p].addr == addr
  }

  lemma UsableUpdated(t: Table, p: string, ep: nat, addr: Bytes, q: string, addr': Bytes)
    requires Fresh(t) && Usable(t, p, ep, addr)
    ensures
      var t' := Updated(t, q, addr');
      if q == p && addr' != addr then Spent(t', ep) else Usable(t', p, ep, addr)
  {
  }

  lemma UsableBegun(s: State, p: string, ep: nat, addr: Bytes, task: nat, q: string, addr': Bytes, createOk: bool)
    requires Fresh(s.table) && Usable(s.table, p, ep, addr)
    ensures
      var t' := Begun(s, task, q, addr', createOk).table;
      if q == p && addr' != addr then Spent(t', ep) else Usable(t', p, ep, addr)
  {
    var t := Updated(s.table, q, addr');
    UsableUpdated(s.table, p, ep, addr, q, addr');
    hide Updated, Fresh;
    if Spent(t, ep) {
      assert Spent(CheckedOut(t, q, addr'), ep);
    }
  }

  lemma UsableElse(t: Table, p: string, ep: nat, addr: Bytes, q: string, e: nat)
    requires Fresh(t) && Usable(t, p, ep, addr)
    ensures Usable(Released(t, q), p, ep, addr) && Usable(Reaped(t), p, ep, addr)
    ensures if q == p then Spent(Marked(t, q), ep) else Usable(Marked(t, q), p, ep, addr)
    ensures if e == ep then Spent(Errored(t, e), ep) else Usable(Errored(t, e), p, ep, addr)
  {
  }

  // A usable endpoint is spent by exactly those steps; no other step touches it.
  lemma SpentIff(s: State, a: Action, p: string)
    requires Inv(s) && p in s.table.eps && !s.table.eps[p].broken
    ensures
      var slot, t' := s.table.eps[p], Step(s, a).table;
      && (Spent(t', slot.ep) <==> SpendsEp(s, a, p))
      && (Usable(t', p, slot.ep, slot.addr) <==> !SpendsEp(s, a, p))
  {
    hide Updated, Begun, Released, Reaped, Marked, Errored, Counted, Present, Spent;
    var slot := s.table.eps[p];
    UsableNotSpent(Step(s, a).table, p, slot.ep, slot.addr);
    match a
    case Update(q, addr) => UsableUpdated(s.table, p, slot.ep, slot.addr, q, addr);
    case Begin(task, q, addr, createOk) =>
      if task !in s.handles {
        UsableBegun(s, p, slot.ep, slot.addr, task, q, addr, createOk);
      }
    case Release(task) => if task in s.handles { UsableElse(s.table, p, slot.ep, slot.addr, s.handles[task].peer, 0); }
    case Mark(q) => UsableElse(s.table, p, slot.ep, slot.addr, q, 0);
    case AsyncError(ep) => UsableElse(s.table, p, slot.ep, slot.addr, p, ep);
    case Reap => UsableElse(s.table, p, slot.ep, slot.addr, p, 0);
  }

  lemma UsableNotSpent(t: Table, p: string, ep: nat, addr: Bytes)
    ensures Usable(t, p, ep, addr) ==> !Spent(t, ep)
  {
  }

  // What spends an endpoint: an error on it, a failed request to its peer, a new address of its peer.
  lemma Spends(t: Table, peer: string, addr: Bytes)
    requires Fresh(t) && peer in t.eps
    ensures Spent(Marked(t, peer), t.eps[peer].ep) && Spent(Errored(t, t.eps[peer].ep), t.eps[peer].ep)
    ensures Spent(Updated(t, peer, addr), t.eps[peer].ep) <==> t.eps[peer].broken || t.eps[peer].addr != addr
  {
  }

  ghost predicate InTable(t: Table, e: nat) {
    exists p :: p in t.eps && t.eps[p].ep == e
  }

  // A spent endpoint leaves the table with its last release, or with the next reap once it is idle.
  lemma SpentLeaves(s: State, e: nat)
    requires Inv(s) && Spent(s.table, e)
    ensures forall t | t in s.handles && s.handles[t].ep == e
      && (forall u | u in s.handles && u != t :: s.handles[u].ep != e) ::
      !InTable(Step(s, Release(t)).table, e)
    ensures InTable(Step(s, Reap).table, e) <==> exists t :: t in s.handles && s.handles[t].ep == e
  {
    forall t | t in s.handles && s.handles[t].ep == e && (forall u | u in s.handles && u != t :: s.handles[u].ep != e)
      ensures !InTable(Step(s, Release(t)).table, e)
    {
      OnlyHolder(s, t);
    }
    HeldAfterReap(s, e);
  }

  lemma OnlyHolder(s: State, t: nat)
    requires Inv(s) && t in s.handles && Spent(s.table, s.handles[t].ep)
    requires forall u | u in s.handles && u != t :: s.handles[u].ep != s.handles[t].ep
    ensures !InTable(Step(s, Release(t)).table, s.handles[t].ep)
  {
    var p := s.handles[t].peer;
    assert Holders(s.handles, p) == {t};
  }

  lemma HeldAfterReap(s: State, e: nat)
    requires Inv(s) && Spent(s.table, e)
    ensures InTable(Reaped(s.table), e) <==> exists t :: t in s.handles && s.handles[t].ep == e
  {
    if t :| t in s.handles && s.handles[t].ep == e {
      InUse(s, t);
      var p := s.handles[t].peer;
      assert p in Reaped(s.table).eps && Reaped(s.table).eps[p].ep == e;
    }
    if InTable(Reaped(s.table), e) {
      var p :| p in Reaped(s.table).eps && Reaped(s.table).eps[p].ep == e;
      assert s.table.eps[p].inFlight > 0;
      assert Holders(s.handles, p) != {};
      var t :| t in Holders(s.handles, p);
      assert s.handles[t].ep == e;
    }
  }

  // ---- Closing what was taken out ----

  // A request that takes an endpoint out and then fails forgets to close it: exactly when the peer has
  // an idle endpoint for another address and no new one can be created.
  lemma LeaksIff(s: State, a: Action)
    ensures Step(s, a).removed - Step(s, a).closed != s.removed - s.closed ==>
      a.Begin? && a.task !in s.handles && Replaces(s.table, a.peer, a.addr) && !a.createOk
    ensures
      (&& s.closed <= s.removed && a.Begin? && a.task !in s.handles
       && Replaces(s.table, a.peer, a.addr) && !a.createOk) ==>
      Step(s, a).removed - Step(s, a).closed == s.removed - s.closed + multiset{s.table.eps[a.peer].ep}
  {
  }

  function CreateFailures(acts: seq<Action>): nat {
    if acts == [] then 0 else (if acts[0].Begin? && !acts[0].createOk then 1 else 0) + CreateFailures(acts[1..])
  }

  lemma {:induction false} AllClosed(s: State, acts: seq<Action>)
    requires s.removed == s.closed && CreateFailures(acts) == 0
    ensures Run(s, acts).removed == Run(s, acts).closed
    decreases |acts|
  {
    if acts != [] {
      AllClosed(Step(s, acts[0]), acts[1..]);
    }
  }

  lemma RunFirst(s: State, a: Action, rest: seq<Action>)
    ensures Run(s, [a] + rest) == Run(Step(s, a), rest)
    ensures CreateFailures([a] + rest) == (if a.Begin? && !a.createOk then 1 else 0) + CreateFailures(rest)
  {
    assert ([a] + rest)[1..] == rest;
  }

  // Use an endpoint, release it, come back for another address when none can be created.
  lemma LeakyRun() returns (acts: seq<Action>)
    ensures CreateFailures(acts) == 1 && Run(Init, acts).removed[0] == 1 && Run(Init, acts).closed[0] == 0
  {
    var a0, a1, a2 := Begin(0, "", [], true), Release(0), Begin(1, "", [0], false);
    var s1 := Step(Init, a0);
    var s2 := Step(s1, a1);
    var s3 := Step(s2, a2);
    assert s2.table.eps == map["" := Slot(0, false, [], 0)] && s2.removed == s2.closed == multiset{};
    assert s3.removed == multiset{0} && s3.closed == multiset{};
    hide Step;
    RunFirst(Init, a0, [a1] + ([a2] + []));
    RunFirst(s1, a1, [a2] + []);
    RunFirst(s2, a2, []);
    acts := [a0] + ([a1] + ([a2] + []));
    assert CreateFailures(acts) == 1 && Run(Init, acts) == s3;
  }

  // Every endpoint taken out is closed in all runs with up to n failures to create one, if and only if
  // n is zero.
  lemma ClosedIffCreationNeverFails(n: nat)
    ensures (forall acts | CreateFailures(acts) <= n :: Run(Init, acts).removed == Run(Init, acts).closed) <==> n == 0
  {
    if n == 0 {
      forall acts | CreateFailures(acts) <= n
        ensures Run(Init, acts).removed == Run(Init, acts).closed
      {
        AllClosed(Init, acts);
      }
    } else {
      var acts := LeakyRun();
      assert Run(Init, acts).removed[0] != Run(Init, acts).closed[0];
    }
  }
}
