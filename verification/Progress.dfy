/** What a read of a cluster can still hope for: from every reachable state, exactly which reads have a
    continuation in which they succeed. The state machine is that of ClusterReads. */
module Progress {
  import opened Core
  import SF = Singleflight
  import opened ClusterReads

  // ---- Reads and flights fit together ----

  // The lookups a mode has, and no others.
  ghost predicate StageFits(r: Read) {
    match r.stage
    case SliceStaging => r.mode.Range? && r.mode.len > 0
    case SliceLru => r.mode.Range? && r.mode.len > 0
    case SliceDisk => r.mode.Range? && r.mode.len > 0
    case AtStaging => !r.mode.Serve?
    case AtLru => !r.mode.Serve?
    case AtRemove => !r.mode.Serve?
    case AtDiskAgain => r.mode.Serve?
    case Retry => !r.mode.Serve?
    case PullDisk => r.mode.Pull?
    case Pulling => r.mode.Pull?
    case AtPeers(_) => AsksPeers(r.mode)
    case Asking(_, _) => AsksPeers(r.mode)
    case _ => true
  }

  // A task of a flight is what its read makes of it.
  ghost predicate TaskFits(task: SF.Task, r: Read) {
    && task.key == r.key
    && match task
       case Registered(_, _) => r.stage.Leads()
       case Leading(_, _) => r.stage.Leads()
       case Waiting(_, _) => r.stage.Follows?
       case Removed(_, _, _) => r.stage.Ended?
       case Sending(_, _, _) => r.stage.Ended?
       case Done(_, _) => r.stage.Ended? || r.stage.Retry?
  }

  ghost predicate FlightFits(s: State, n: nat)
    requires n in s.nodes
  {
    forall t | t in s.nodes[n].flight.tasks ::
      t in s.tasks && s.tasks[t].node == n && TaskFits(s.nodes[n].flight.tasks[t], s.tasks[t])
  }

  ghost predicate Fits(s: State) {
    (forall t | t in s.tasks :: StageFits(s.tasks[t])) && (forall n | n in s.nodes :: FlightFits(s, n))
  }

  // The flight of a node changes at most one task.
  ghost predicate OnlyTask(f: SF.State, f': SF.State, t: nat) {
    forall u | u != t :: (u in f'.tasks <==> u in f.tasks) && (u in f.tasks ==> f'.tasks[u] == f.tasks[u])
  }

  lemma UpdateFits(s: State, t: nat, node': Node, stage: Stage)
    requires Fits(s) && t in s.tasks && s.tasks[t].node in s.nodes
    requires
      var r := s.tasks[t];
      && StageFits(r.(stage := stage)) && OnlyTask(s.nodes[r.node].flight, node'.flight, t)
      && (t in node'.flight.tasks ==> TaskFits(node'.flight.tasks[t], r.(stage := stage)))
    ensures Fits(SetStage(SetNode(s, s.tasks[t].node, node'), t, stage))
  {
    hide StageFits, TaskFits;
    var n := s.tasks[t].node;
    var s' := SetStage(SetNode(s, n, node'), t, stage);
    forall m | m in s'.nodes
      ensures FlightFits(s', m)
    {
      assert FlightFits(s, m);
      forall u | u in s'.nodes[m].flight.tasks
        ensures u in s'.tasks && s'.tasks[u].node == m && TaskFits(s'.nodes[m].flight.tasks[u], s'.tasks[u])
      {
        if u != t {
          assert u in s.nodes[m].flight.tasks;
        }
      }
    }
  }

  lemma RestageFits(s: State, t: nat, stage: Stage)
    requires Fits(s) && t in s.tasks && s.tasks[t].node in s.nodes
    requires
      var r := s.tasks[t];
      var f := s.nodes[r.node].flight;
      StageFits(r.(stage := stage)) && (t in f.tasks ==> TaskFits(f.tasks[t], r.(stage := stage)))
    ensures Fits(SetStage(s, t, stage))
  {
    var n := s.tasks[t].node;
    UpdateFits(s, t, s.nodes[n], stage);
    assert SetNode(s, n, s.nodes[n]) == s;
  }

  lemma NodeFits(s: State, n: nat, node': Node)
    requires Fits(s) && n in s.nodes
    requires forall t | t in node'.flight.tasks
      :: t in s.tasks && s.tasks[t].node == n && TaskFits(node'.flight.tasks[t], s.tasks[t])
    ensures Fits(SetNode(s, n, node'))
  {
    hide StageFits, TaskFits;
    var s' := SetNode(s, n, node');
    forall m | m in s'.nodes
      ensures FlightFits(s', m)
    {
      if m != n {
        assert FlightFits(s, m);
      }
    }
  }

  // A read's own task in the flight of its node.
  lemma OwnTask(s: State, t: nat)
    requires Fits(s) && t in s.tasks && s.tasks[t].node in s.nodes
    ensures
      var f := s.nodes[s.tasks[t].node].flight;
      t in f.tasks ==> TaskFits(f.tasks[t], s.tasks[t])
  {
    assert FlightFits(s, s.tasks[t].node);
  }

  lemma NextStageFits(node: Node, r: Read)
    requires StageFits(r)
    ensures StageFits(r.(stage := NextStage(node, r)))
    ensures r.stage.Leads() || r.stage.Follows? || r.stage.Ended? ==> NextStage(node, r) == r.stage
    ensures r.stage.Retry? ==> NextStage(node, r).Ended?
  {
  }

  lemma LookFits(s: State, t: nat)
    requires Fits(s) && t in s.tasks && s.tasks[t].node in s.nodes
    ensures Fits(Looked(s, t))
  {
    hide NextStage;
    var r := s.tasks[t];
    var node := s.nodes[r.node];
    OwnTask(s, t);
    assert StageFits(r);
    NextStageFits(node, r);
    UpdateFits(s, t, if r.stage.AtRemove? then node.(disk := node.disk - {r.key}) else node, NextStage(node, r));
  }

  lemma JoinFits(s: State, t: nat, candidates: seq<nat>)
    requires Fits(s) && t in s.tasks && s.tasks[t].node in s.nodes
    ensures Fits(Joined(s, t, candidates))
  {
    var r := s.tasks[t];
    var node := s.nodes[r.node];
    if t !in node.flight.tasks {
      UpdateFits(s, t, node.(flight := SF.Step(node.flight, SF.Enter(t, r.key))), JoinedStage(node, r, candidates));
    }
  }

  lemma FollowFits(s: State, t: nat)
    requires Fits(s) && t in s.tasks && s.tasks[t].node in s.nodes
    ensures Fits(AfterFollow(s, t))
  {
    hide Fits;
    var r := s.tasks[t];
    var node := s.nodes[r.node];
    OwnTask(s, t);
    if SF.Enabled(node.flight, SF.Receive(t)) {
      var f' := SF.Step(node.flight, SF.Receive(t));
      UpdateFits(s, t, node.(flight := f'), FollowedStage(r, f'.tasks[t].outcome));
    }
  }

  lemma PublishFits(s: State, t: nat)
    requires Fits(s) && t in s.tasks && s.tasks[t].node in s.nodes && s.tasks[t].stage.Publishing?
    ensures Fits(Published(s, t))
  {
    hide Fits;
    OwnTask(s, t);
    var r := s.tasks[t];
    var node := s.nodes[r.node];
    var msg := if r.stage.result.Ok? then SF.Value(r.stage.result.value) else SF.Failure;
    if SF.Enabled(node.flight, SF.Finish(t, msg)) {
      UpdateFits(s, t, node.(flight := SF.Step(node.flight, SF.Finish(t, msg))), Ended(Conclude(r, r.stage.result)));
    }
  }

  lemma CancelFits(s: State, t: nat)
    requires Fits(s) && t in s.tasks && s.tasks[t].node in s.nodes
    ensures Fits(Cancelled(s, t))
  {
    hide Fits;
    var r := s.tasks[t];
    var node := s.nodes[r.node];
    var a := if r.stage.Follows? then SF.GiveUp(t) else SF.Finish(t, SF.Failure);
    OwnTask(s, t);
    if r.stage.Follows? || r.stage.Leads() {
      if SF.Enabled(node.flight, a) {
        UpdateFits(s, t, node.(flight := SF.Step(node.flight, a)), Ended(Err));
      }
    } else if !r.stage.Ended? {
      RestageFits(s, t, Ended(Err));
    }
  }

  // A leader that stays a leader may change its node as long as the flight is left alone.
  lemma LeaderFits(s: State, t: nat, node': Node, stage: Stage)
    requires Fits(s) && t in s.tasks && s.tasks[t].node in s.nodes
    requires s.tasks[t].stage.Leads() && stage.Leads() && node'.flight == s.nodes[s.tasks[t].node].flight
    requires stage.AtPeers? || stage.Asking? ==> s.tasks[t].stage.AtPeers? || s.tasks[t].stage.Asking?
    ensures Fits(SetStage(SetNode(s, s.tasks[t].node, node'), t, stage))
  {
    hide Fits;
    OwnTask(s, t);
    OwnStage(s, t);
    UpdateFits(s, t, node', stage);
  }

  lemma OwnStage(s: State, t: nat)
    requires Fits(s) && t in s.tasks
    ensures StageFits(s.tasks[t])
  {
    hide FlightFits, StageFits;
  }

  lemma PeerAnsweredFits(s: State, t: nat, u: nat, w: Option<nat>)
    requires Fits(s) && t in s.tasks && s.tasks[t].node in s.nodes && u in s.tasks && s.tasks[t].stage.Asking?
    ensures Fits(PeerAnswered(s, t, u, w))
  {
    hide Fits, Kept;
    var r, v := s.tasks[t], s.tasks[u];
    var node := s.nodes[r.node];
    if v.stage.Ended? && v.stage.result.Ok? && |v.stage.result.value| == r.expected {
      var b := v.stage.result.value;
      KeptFlight(node, r.key, b, w);
      LeaderFits(s, t, Kept(node, r.key, b, w), Publishing(Ok(b)));
    } else {
      LeaderRestaged(s, t, AtPeers(r.stage.todo));
    }
  }

  lemma OriginAnsweredFits(c: Config, s: State, t: nat, ok: bool, w: nat)
    requires Fits(s) && t in s.tasks && s.tasks[t].node in s.nodes && s.tasks[t].stage.AtOrigin?
    ensures Fits(OriginAnswered(c, s, t, ok, w))
  {
    hide Fits, Spawn, Chunk;
    var r := s.tasks[t];
    var node := s.nodes[r.node];
    var b := Chunk(c, r.key);
    LeaderRestaged(s, t, Publishing(Err));
    SpawnFlight(node, w, r.key, b);
    LeaderFits(s, t, Spawn(node, w, r.key, b), Publishing(Ok(b)));
  }

  lemma LeaderRestaged(s: State, t: nat, stage: Stage)
    requires Fits(s) && t in s.tasks && s.tasks[t].node in s.nodes && s.tasks[t].stage.Leads() && stage.Leads()
    requires stage.AtPeers? || stage.Asking? ==> s.tasks[t].stage.AtPeers? || s.tasks[t].stage.Asking?
    ensures Fits(SetStage(s, t, stage))
  {
    hide Fits;
    var n := s.tasks[t].node;
    LeaderFits(s, t, s.nodes[n], stage);
    assert SetNode(s, n, s.nodes[n]) == s;
  }

  lemma AnswerFits(c: Config, s: State, a: Action)
    requires Fits(s) && (a.PeerAnswers? || a.OriginAnswers? || a.Ask? || a.PeerFails?)
    ensures Fits(Step(c, s, a))
  {
    hide Fits, OriginAnswered;
    if a.read in s.tasks && s.tasks[a.read].node in s.nodes {
      var t := a.read;
      var stage := s.tasks[t].stage;
      match a
      case PeerAnswers(_, u, w) =>
        if u in s.tasks && stage.Asking? {
          PeerAnsweredFits(s, t, u, w);
        }
      case OriginAnswers(_, ok, w) =>
        if stage.AtOrigin? {
          OriginAnsweredFits(c, s, t, ok, w);
        }
      case Ask(_) =>
        if stage.AtPeers? {
          LeaderRestaged(s, t, if stage.todo == [] then AtOrigin else Asking(stage.todo[0], stage.todo[1..]));
        }
      case PeerFails(_) =>
        if stage.Asking? {
          LeaderRestaged(s, t, AtPeers(stage.todo));
        }
    }
  }

  lemma PullRestaged(s: State, t: nat, stage: Stage)
    requires Fits(s) && t in s.tasks && s.tasks[t].node in s.nodes && s.tasks[t].stage.Pulling?
    requires stage.AtStaging? || stage.Ended?
    ensures Fits(SetStage(s, t, stage))
  {
    hide FlightFits;
    OwnTask(s, t);
    assert StageFits(s.tasks[t]);
    RestageFits(s, t, stage);
  }

  lemma PullFits(s: State, t: nat, u: nat, notFound: bool, w: nat)
    requires Fits(s) && t in s.tasks && s.tasks[t].node in s.nodes && u in s.tasks
    ensures Fits(PullAnswered(s, t, u, notFound, w))
  {
    hide Fits, Spawn;
    var r, v := s.tasks[t], s.tasks[u];
    var node := s.nodes[r.node];
    if r.stage.Pulling? && v.stage.Ended? {
      if v.stage.result.Err? || |v.stage.result.value| != r.expected {
        PullRestaged(s, t, AtStaging);
        PullRestaged(s, t, Ended(Err));
      } else {
        var b := v.stage.result.value;
        OwnTask(s, t);
        SpawnFlight(node, w, r.key, b);
        UpdateFits(s, t, Spawn(node, w, r.key, b), Ended(Ok(b)));
      }
    }
  }

  lemma KeptFlight(node: Node, k: ChunkKey, b: Bytes, w: Option<nat>)
    ensures Kept(node, k, b, w).flight == node.flight
  {
  }

  lemma SpawnFlight(node: Node, w: nat, k: ChunkKey, b: Bytes)
    ensures Spawn(node, w, k, b).flight == node.flight
  {
  }

  lemma BackgroundFits(f: SF.State, a: SF.Action, t: nat, r: Read)
    requires Background(a) && t in f.tasks && TaskFits(f.tasks[t], r)
    ensures t in SF.Step(f, a).tasks && TaskFits(SF.Step(f, a).tasks[t], r)
  {
  }

  lemma BackgroundTasks(f: SF.State, a: SF.Action)
    requires Background(a)
    ensures SF.Step(f, a).tasks.Keys == f.tasks.Keys
  {
  }

  lemma NodeStepFits(s: State, n: nat, a: Action)
    requires Fits(s) && n in s.nodes && OnNode(a)
    ensures Fits(SetNode(s, n, NodeStep(s.nodes[n], a)))
  {
    hide TaskFits, StageFits, SF.Step;
    var f, node' := s.nodes[n].flight, NodeStep(s.nodes[n], a);
    assert FlightFits(s, n);
    if a.FlightStep? && Background(a.step) {
      BackgroundTasks(f, a.step);
      forall t | t in node'.flight.tasks
        ensures t in s.tasks && s.tasks[t].node == n && TaskFits(node'.flight.tasks[t], s.tasks[t])
      {
        BackgroundFits(f, a.step, t, s.tasks[t]);
      }
    } else {
      assert node'.flight == f;
    }
    NodeFits(s, n, node');
  }

  lemma StepFits(c: Config, s: State, a: Action)
    requires Inv(c, s) && Fits(s)
    ensures Fits(Step(c, s, a))
  {
    hide FlightFits, StageFits, NodeOk, ReadOk;
    if OnNode(a) {
      if a.node in s.nodes {
        NodeStepFits(s, a.node, a);
      }
    } else if a.Begin? {
      BeginFits(c, s, a);
    } else if a.read in s.tasks {
      var t := a.read;
      match a
      case Look(_) => LookFits(s, t);
      case JoinFlight(_, candidates) => if s.tasks[t].stage.AtFlight? { JoinFits(s, t, candidates); }
      case Followed(_) => if s.tasks[t].stage.Follows? { FollowFits(s, t); }
      case Publish(_) => if s.tasks[t].stage.Publishing? { PublishFits(s, t); }
      case Cancel(_) => CancelFits(s, t);
      case PullAnswers(_, u, notFound, w) => if u in s.tasks { PullFits(s, t, u, notFound, w); }
      case PullFails(_) => if s.tasks[t].stage.Pulling? { PullRestaged(s, t, Ended(Err)); }
      case _ => AnswerFits(c, s, a);
    }
  }

  lemma BeginFits(c: Config, s: State, a: Action)
    requires Fits(s) && a.Begin?
    ensures Fits(Step(c, s, a))
  {
    var s' := Step(c, s, a);
    forall m | m in s'.nodes
      ensures FlightFits(s', m)
    {
      assert FlightFits(s, m);
    }
  }

  lemma {:induction false} RunFits(c: Config, s: State, acts: seq<Action>)
    requires Inv(c, s) && Fits(s)
    ensures Inv(c, Run(c, s, acts)) && Fits(Run(c, s, acts))
    decreases |acts|
  {
    hide Inv, Fits, Step;
    if acts != [] {
      StepInv(c, s, acts[0]);
      StepFits(c, s, acts[0]);
      RunFits(c, Step(c, s, acts[0]), acts[1..]);
    }
  }

  // ---- Continuations in which nothing goes wrong ----

  // The steps a continuation may take: the store answers, writes succeed, nobody cancels, evicts or
  // clears anything. (A peer may fail to answer.)
  predicate Helpful(a: Action) {
    match a
    case Cancel(_) => false
    case StoreFails(_, _) => false
    case EvictDisk(_, _) => false
    case EvictLru(_, _) => false
    case ClearDisk(_) => false
    case ClearStaging(_) => false
    case ClearLru(_) => false
    case OriginAnswers(_, ok, _) => ok
    case FlightStep(_, step) => !step.Clears()
    case _ => true
  }

  predicate AllHelpful(acts: seq<Action>) {
    forall a | a in acts :: Helpful(a)
  }

  ghost predicate Sound(c: Config, s: State) {
    Inv(c, s) && Fits(s)
  }

  lemma {:induction false} RunConcat(c: Config, s: State, a: seq<Action>, b: seq<Action>)
    ensures Run(c, s, a + b) == Run(c, Run(c, s, a), b)
    decreases |a|
  {
    hide Step;
    if a == [] {
      assert a + b == b;
    } else {
      RunConcat(c, Step(c, s, a[0]), a[1..], b);
      assert (a + b)[1..] == a[1..] + b;
    }
  }

  // First a, then what b does from there.
  lemma Then(c: Config, s: State, a: seq<Action>, b: seq<Action>)
    requires AllHelpful(a) && AllHelpful(b)
    ensures AllHelpful(a + b) && Run(c, s, a + b) == Run(c, Run(c, s, a), b)
  {
    RunConcat(c, s, a, b);
  }

  lemma One(c: Config, s: State, a: Action)
    requires Helpful(a)
    ensures AllHelpful([a]) && Run(c, s, [a]) == Step(c, s, a)
  {
    RunOne(c, s, a);
  }

  lemma SoundRun(c: Config, s: State, acts: seq<Action>)
    requires Sound(c, s)
    ensures Sound(c, Run(c, s, acts))
  {
    RunFits(c, s, acts);
  }

  lemma FreshId(ids: set<nat>) returns (id: nat)
    ensures id !in ids
  {
    var b := Bound(ids);
    id := b;
  }

  lemma {:induction false} Bound(ids: set<nat>) returns (b: nat)
    ensures forall i | i in ids :: i < b
    decreases |ids|
  {
    if ids == {} {
      b := 0;
    } else {
      var x :| x in ids;
      var rest := Bound(ids - {x});
      b := if x < rest then rest else x + 1;
      assert forall i | i in ids :: i == x || i in ids - {x};
    }
  }

  // ---- A leader can always finish ----

  function AskingLeft(stage: Stage): nat {
    match stage
    case AtPeers(todo) => 2 * |todo| + 1
    case Asking(_, todo) => 2 * |todo| + 2
    case _ => 0
  }

  // Peers that do not answer lead to the origin.
  lemma {:induction false} ToOrigin(c: Config, s: State, u: nat) returns (acts: seq<Action>)
    requires u in s.tasks && s.tasks[u].node in s.nodes && s.tasks[u].stage.Leads() && !s.tasks[u].stage.Publishing?
    ensures AllHelpful(acts) && Run(c, s, acts) == SetStage(s, u, AtOrigin)
    decreases AskingLeft(s.tasks[u].stage)
  {
    var stage := s.tasks[u].stage;
    if stage.AtOrigin? {
      acts := [];
      assert SetStage(s, u, AtOrigin) == s;
    } else {
      var a := if stage.AtPeers? then Ask(u) else PeerFails(u);
      var stage' :=
        if stage.Asking? then AtPeers(stage.todo)
        else if stage.todo == [] then AtOrigin
        else Asking(stage.todo[0], stage.todo[1..]);
      assert Step(c, s, a) == SetStage(s, u, stage');
      hide Step;
      var s1 := SetStage(s, u, stage');
      var rest := ToOrigin(c, s1, u);
      One(c, s, a);
      Then(c, s, [a], rest);
      acts := [a] + rest;
      assert SetStage(s1, u, AtOrigin) == SetStage(s, u, AtOrigin);
    }
  }

  ghost predicate SameFlight(f: SF.State, f': SF.State, u: nat) {
    f'.slots == f.slots && f'.chans == f.chans && OnlyTask(f, f', u)
  }

  // A leader's gauge is raised before its guard can finish.
  lemma Raised(c: Config, s: State, u: nat) returns (f: SF.State)
    requires Sound(c, s) && u in s.tasks && s.tasks[u].stage.Leads()
    ensures s.tasks[u].node in s.nodes && u in f.tasks && f.tasks[u].Leading? && f.tasks[u].key == s.tasks[u].key
    ensures
      var n := s.tasks[u].node;
      && Step(c, s, FlightStep(n, SF.RaiseGauge(u))) == SetNode(s, n, s.nodes[n].(flight := f))
      && SameFlight(s.nodes[n].flight, f, u)
  {
    hide Step, SF.Step;
    var r := s.tasks[u];
    var n := r.node;
    LeaderTask(c, s, u);
    f := SF.Step(s.nodes[n].flight, SF.RaiseGauge(u));
    RaiseFlight(s.nodes[n].flight, u);
    FlightStepIs(c, s, n, SF.RaiseGauge(u));
  }

  lemma LeaderTask(c: Config, s: State, u: nat)
    requires Sound(c, s) && u in s.tasks && s.tasks[u].stage.Leads()
    ensures s.tasks[u].node in s.nodes
    ensures
      var f := s.nodes[s.tasks[u].node].flight;
      u in f.tasks && f.tasks[u].key == s.tasks[u].key && f.tasks[u].Leads()
  {
    hide NodeOk;
    assert ReadOk(c, s.nodes[s.tasks[u].node].flight, u, s.tasks[u]);
    OwnTask(s, u);
  }

  lemma RaiseFlight(f: SF.State, u: nat)
    requires u in f.tasks && f.tasks[u].Leads()
    ensures
      var f' := SF.Step(f, SF.RaiseGauge(u));
      SameFlight(f, f', u) && u in f'.tasks && f'.tasks[u].Leading? && f'.tasks[u].key == f.tasks[u].key
  {
  }

  // What a leader that is at the origin or past it will publish.
  ghost function Outcome(c: Config, r: Read): Result<Bytes> {
    if r.stage.Publishing? then r.stage.result
    else if r.expected == |Chunk(c, r.key)| then Ok(Chunk(c, r.key)) else Err
  }

  ghost function MessageOf(res: Result<Bytes>): SF.Msg {
    if res.Ok? then SF.Value(res.value) else SF.Failure
  }

  // The channels once the leader for k has sent its message.
  ghost function Announced(f: SF.State, k: ChunkKey, msg: SF.Msg): seq<SF.Chan>
    requires k in f.slots ==> f.slots[k] < |f.chans|
  {
    if k in f.slots then f.chans[f.slots[k] := SF.Chan(f.chans[f.slots[k]].key, SF.Sent(msg))] else f.chans
  }

  // Only read u and node n differ.
  ghost predicate Solo(s: State, s': State, n: nat, u: nat) {
    && s'.nodes.Keys == s.nodes.Keys && (forall m | m in s.nodes && m != n :: s'.nodes[m] == s.nodes[m])
    && (forall v | v in s.tasks && v != u :: v in s'.tasks && s'.tasks[v] == s.tasks[v])
  }

  lemma FinishFlight(f: SF.State, u: nat, msg: SF.Msg) returns (f': SF.State)
    requires u in f.tasks && f.tasks[u].Leading? && InRange(f)
    ensures f' == SF.Step(SF.Step(SF.Step(f, SF.Finish(u, msg)), SF.LowerGauge(u)), SF.Send(u))
    ensures f'.slots == f.slots - {f.tasks[u].key}
    ensures f'.chans == Announced(f, f.tasks[u].key, msg) && OnlyTask(f, f', u)
  {
    var f1 := SF.Step(f, SF.Finish(u, msg));
    var f2 := SF.Step(f1, SF.LowerGauge(u));
    f' := SF.Step(f2, SF.Send(u));
    if f.tasks[u].key !in f.slots {
      assert f.slots - {f.tasks[u].key} == f.slots;
    }
  }

  ghost predicate InRange(f: SF.State) {
    forall k | k in f.slots :: f.slots[k] < |f.chans|
  }

  // The leader has ended, its slot is free and its followers have its message.
  ghost predicate Announces(s: State, s': State, u: nat)
    requires u in s.tasks && s.tasks[u].node in s.nodes && s.tasks[u].stage.Publishing?
    requires InRange(s.nodes[s.tasks[u].node].flight)
  {
    var r := s.tasks[u];
    var node := s.nodes[r.node];
    && Solo(s, s', r.node, u) && u in s'.tasks && s'.tasks[u] == r.(stage := Ended(Conclude(r, r.stage.result)))
    && (var node' := s'.nodes[r.node];
        && node' == node.(flight := node'.flight) && node'.flight.slots == node.flight.slots - {r.key}
        && node'.flight.chans == Announced(node.flight, r.key, MessageOf(r.stage.result))
        && OnlyTask(node.flight, node'.flight, u))
  }

  // Publishing, lowering the gauge and sending.
  lemma PublishAll(c: Config, s: State, u: nat) returns (acts: seq<Action>)
    requires Sound(c, s) && u in s.tasks && s.tasks[u].stage.Publishing?
    requires
      var f := s.nodes[s.tasks[u].node].flight;
      u in f.tasks && f.tasks[u].Leading? && f.tasks[u].key == s.tasks[u].key && InRange(f)
    ensures AllHelpful(acts) && Announces(s, Run(c, s, acts), u)
  {
    hide Step, SF.Step, NodeOk, ReadOk, Fits, NodeStep;
    var r := s.tasks[u];
    var n := r.node;
    var node := s.nodes[n];
    var msg := MessageOf(r.stage.result);
    var f3 := FinishFlight(node.flight, u, msg);
    var a1, a2, a3 := Publish(u), FlightStep(n, SF.LowerGauge(u)), FlightStep(n, SF.Send(u));
    var f1 := SF.Step(node.flight, SF.Finish(u, msg));
    var f2 := SF.Step(f1, SF.LowerGauge(u));
    PublishStepIs(c, s, u);
    var s1 := SetStage(SetNode(s, n, node.(flight := f1)), u, Ended(Conclude(r, r.stage.result)));
    FlightStepIs(c, s1, n, SF.LowerGauge(u));
    var s2 := SetNode(s1, n, node.(flight := f2));
    FlightStepIs(c, s2, n, SF.Send(u));
    var s3 := SetNode(s2, n, node.(flight := f3));
    One(c, s, a1);
    One(c, s1, a2);
    One(c, s2, a3);
    Then(c, s1, [a2], [a3]);
    Then(c, s, [a1], [a2] + [a3]);
    acts := [a1] + ([a2] + [a3]);
  }

  lemma PublishStepIs(c: Config, s: State, u: nat)
    requires u in s.tasks && s.tasks[u].node in s.nodes && s.tasks[u].stage.Publishing?
    requires var f := s.nodes[s.tasks[u].node].flight; u in f.tasks && f.tasks[u].Leading?
    ensures
      var r := s.tasks[u];
      var node := s.nodes[r.node];
      var f := SF.Step(node.flight, SF.Finish(u, MessageOf(r.stage.result)));
      Step(c, s, Publish(u)) ==
      SetStage(SetNode(s, r.node, node.(flight := f)), u, Ended(Conclude(r, r.stage.result)))
  {
    hide SF.Step;
  }

  lemma FlightStepIs(c: Config, s: State, n: nat, a: SF.Action)
    requires n in s.nodes && Background(a)
    ensures Step(c, s, FlightStep(n, a)) == SetNode(s, n, s.nodes[n].(flight := SF.Step(s.nodes[n].flight, a)))
  {
    hide SF.Step;
  }

  lemma OriginStepIs(c: Config, s: State, u: nat, w: nat)
    requires u in s.tasks && s.tasks[u].node in s.nodes && s.tasks[u].stage.AtOrigin?
    requires w !in s.nodes[s.tasks[u].node].writers
    ensures
      var r := s.tasks[u];
      var b := Chunk(c, r.key);
      Step(c, s, OriginAnswers(u, true, w)) ==
      if |b| == r.expected then SetStage(SetNode(s, r.node, Spawn(s.nodes[r.node], w, r.key, b)), u, Publishing(Ok(b)))
      else SetStage(s, u, Publishing(Err))
  {
    hide Chunk, Spawn;
  }

  // The node once its leader has an outcome: nothing but staging and writers may have changed.
  ghost predicate Supplied(c: Config, node: Node, node': Node, r: Read, w: nat) {
    && node' == node.(staging := node'.staging, writers := node'.writers)
    && (!r.stage.Publishing? && Outcome(c, r).Ok?
        ==> w in node'.writers && node'.writers[w] == Writing(r.key, Chunk(c, r.key)))
  }

  lemma ToPublishing(c: Config, s: State, u: nat) returns (acts: seq<Action>, w: nat, node': Node)
    requires u in s.tasks && s.tasks[u].node in s.nodes && s.tasks[u].stage.Leads()
    ensures AllHelpful(acts)
    ensures
      var r := s.tasks[u];
      && Run(c, s, acts) == SetStage(SetNode(s, r.node, node'), u, Publishing(Outcome(c, r)))
      && Supplied(c, s.nodes[r.node], node', r, w)
  {
    hide Step, Chunk;
    var r := s.tasks[u];
    var n := r.node;
    var node := s.nodes[n];
    if r.stage.Publishing? {
      acts, w, node' := [], 0, node;
      assert SetStage(SetNode(s, n, node), u, r.stage) == s;
    } else {
      w := FreshId(node.writers.Keys);
      var first := ToOrigin(c, s, u);
      var s1 := SetStage(s, u, AtOrigin);
      var a := OriginAnswers(u, true, w);
      OriginStepIs(c, s1, u, w);
      One(c, s1, a);
      Then(c, s, first, [a]);
      acts := first + [a];
      var b := Chunk(c, r.key);
      node' := if |b| == r.expected then Spawn(node, w, r.key, b) else node;
      assert Run(c, s, acts) == SetStage(SetNode(s, n, node'), u, Publishing(Outcome(c, r)));
    }
  }

  // Whatever its stage, a leader can be brought to its end: its slot is free, and its followers have its
  // message.
  ghost predicate Finished(c: Config, s: State, s': State, u: nat, w: nat)
    requires u in s.tasks && s.tasks[u].node in s.nodes
  {
    var r := s.tasks[u];
    var f := s.nodes[r.node].flight;
    && Solo(s, s', r.node, u) && u in s'.tasks && s'.tasks[u] == r.(stage := Ended(Conclude(r, Outcome(c, r))))
    && (var node' := s'.nodes[r.node];
        && node'.disk == s.nodes[r.node].disk && node'.flight.slots == f.slots - {r.key}
        && (r.key in f.slots ==> f.slots[r.key] < |f.chans|)
        && node'.flight.chans == Announced(f, r.key, MessageOf(Outcome(c, r))) && OnlyTask(f, node'.flight, u)
        && (!r.stage.Publishing? && Outcome(c, r).Ok?
            ==> w in node'.writers && node'.writers[w] == Writing(r.key, Chunk(c, r.key))))
  }

  lemma SlotsInRange(c: Config, s: State, n: nat)
    requires Inv(c, s) && n in s.nodes
    ensures InRange(s.nodes[n].flight)
  {
    assert NodeOk(c, s.nodes[n]);
  }

  lemma FinishedFrom(c: Config, s: State, node1: Node, f: SF.State, s': State, u: nat, w: nat)
    requires u in s.tasks && s.tasks[u].node in s.nodes && InRange(s.nodes[s.tasks[u].node].flight) && InRange(f)
    requires
      var r := s.tasks[u];
      && Supplied(c, s.nodes[r.node], node1, r, w) && SameFlight(s.nodes[r.node].flight, f, u)
      && Announces(SetStage(SetNode(s, r.node, node1.(flight := f)), u, Publishing(Outcome(c, r))), s', u)
    ensures Finished(c, s, s', u, w)
  {
    hide Chunk, Announced, Outcome, MessageOf;
    var r := s.tasks[u];
    SameAnnounced(s.nodes[r.node].flight, f, r.key, MessageOf(Outcome(c, r)));
  }

  lemma FinishLeader(c: Config, s: State, u: nat) returns (acts: seq<Action>, w: nat)
    requires Sound(c, s) && u in s.tasks && s.tasks[u].stage.Leads()
    ensures AllHelpful(acts) && s.tasks[u].node in s.nodes && Finished(c, s, Run(c, s, acts), u, w)
  {
    hide Step, NodeOk, ReadOk, Fits, Run, Outcome, Finished, Announces, Supplied, InRange, SameFlight;
    var r := s.tasks[u];
    var n := r.node;
    var first, w', node1 := ToPublishing(c, s, u);
    w := w';
    var s1 := SetStage(SetNode(s, n, node1), u, Publishing(Outcome(c, r)));
    SoundRun(c, s, first);
    var f := Raised(c, s1, u);
    var a := FlightStep(n, SF.RaiseGauge(u));
    One(c, s1, a);
    SoundRun(c, s1, [a]);
    var s2 := SetStage(SetNode(s, n, node1.(flight := f)), u, Publishing(Outcome(c, r)));
    assert Run(c, s1, [a]) == s2;
    SlotsInRange(c, s2, n);
    SlotsInRange(c, s, n);
    var rest := PublishAll(c, s2, u);
    Then(c, s1, [a], rest);
    Then(c, s, first, [a] + rest);
    acts := first + ([a] + rest);
    SuppliedFlight(c, s.nodes[n], node1, r, w);
    FinishedFrom(c, s, node1, f, Run(c, s2, rest), u, w);
  }

  lemma SuppliedFlight(c: Config, node: Node, node': Node, r: Read, w: nat)
    requires Supplied(c, node, node', r, w)
    ensures node'.flight == node.flight
  {
  }

  lemma SameAnnounced(f: SF.State, f': SF.State, k: ChunkKey, msg: SF.Msg)
    requires f'.slots == f.slots && f'.chans == f.chans && (k in f.slots ==> f.slots[k] < |f.chans|)
    ensures Announced(f', k, msg) == Announced(f, k, msg)
  {
  }

  // ---- Bringing a chunk to the disk of a node ----

  // Reads that do not lead are left alone.
  ghost predicate Undisturbed(s: State, s': State) {
    && s'.nodes.Keys == s.nodes.Keys
    && (forall v | v in s.tasks :: v in s'.tasks && (s.tasks[v].stage.Leads() || s'.tasks[v] == s.tasks[v]))
  }

  lemma FinishedFrees(c: Config, s: State, s': State, u: nat, w: nat)
    requires u in s.tasks && s.tasks[u].node in s.nodes && s.tasks[u].stage.Leads() && Finished(c, s, s', u, w)
    ensures
      var n := s.tasks[u].node;
      Undisturbed(s, s') && s.tasks[u].key !in s'.nodes[n].flight.slots && s'.nodes[n].disk == s.nodes[n].disk
  {
    hide Outcome, Announced, Conclude;
  }

  // Whoever holds the slot of a key can be made to give it back.
  lemma SlotLeader(c: Config, s: State, n: nat, k: ChunkKey) returns (u: nat)
    requires Sound(c, s) && n in s.nodes && k in s.nodes[n].flight.slots
    ensures u in s.tasks && s.tasks[u].node == n && s.tasks[u].key == k && s.tasks[u].stage.Leads()
  {
    var f := s.nodes[n].flight;
    assert NodeOk(c, s.nodes[n]) && FlightFits(s, n);
    assert SF.Led(f, k, f.slots[k]);
    u :| u in f.tasks && f.tasks[u].Leads() && f.tasks[u].key == k;
  }

  lemma FreeSlot(c: Config, s: State, n: nat, k: ChunkKey) returns (acts: seq<Action>)
    requires Sound(c, s) && n in s.nodes
    ensures AllHelpful(acts)
    ensures
      var s' := Run(c, s, acts);
      Undisturbed(s, s') && k !in s'.nodes[n].flight.slots && s'.nodes[n].disk == s.nodes[n].disk
  {
    if k !in s.nodes[n].flight.slots {
      acts := [];
    } else {
      hide Run, Finished, Sound, Undisturbed;
      var u := SlotLeader(c, s, n, k);
      var acts', w := FinishLeader(c, s, u);
      acts := acts';
      FinishedFrees(c, s, Run(c, s, acts), u, w);
    }
  }

  lemma JoinStepIs(c: Config, s: State, t: nat)
    requires t in s.tasks && s.tasks[t].node in s.nodes && s.tasks[t].stage.AtFlight?
    requires var f := s.nodes[s.tasks[t].node].flight; s.tasks[t].key !in f.slots && t !in f.tasks
    ensures
      var r := s.tasks[t];
      var s' := Step(c, s, JoinFlight(t, []));
      && Solo(s, s', r.node, t) && t in s'.tasks && s'.tasks[t] == r.(stage := s'.tasks[t].stage)
      && (s'.tasks[t].stage.AtOrigin? || s'.tasks[t].stage.AtPeers?) && s'.nodes[r.node].disk == s.nodes[r.node].disk
  {
  }

  lemma NotYetJoined(c: Config, s: State, t: nat)
    requires Sound(c, s) && t in s.tasks && s.tasks[t].stage.AtFlight?
    ensures s.tasks[t].node in s.nodes && t !in s.nodes[s.tasks[t].node].flight.tasks
  {
    hide NodeOk, ReadOk;
    OwnTask(s, t);
  }

  // Read t has been served by the store, which no other read and no other node has noticed.
  ghost predicate Fetched(c: Config, s: State, s': State, t: nat, w: nat)
    requires t in s.tasks && s.tasks[t].node in s.nodes
  {
    var r := s.tasks[t];
    && Solo(s, s', r.node, t) && t in s'.tasks && s'.tasks[t] == r.(stage := Ended(Conclude(r, Ok(Chunk(c, r.key)))))
    && s'.nodes[r.node].disk == s.nodes[r.node].disk
    && w in s'.nodes[r.node].writers && s'.nodes[r.node].writers[w] == Writing(r.key, Chunk(c, r.key))
  }

  lemma FetchedFrom(c: Config, s: State, s1: State, s': State, t: nat, w: nat)
    requires t in s.tasks && s.tasks[t].node in s.nodes && Solo(s, s1, s.tasks[t].node, t) && t in s1.tasks
    requires
      var r := s.tasks[t];
      && s1.tasks[t] == r.(stage := s1.tasks[t].stage) && s1.tasks[t].stage.Leads() && !s1.tasks[t].stage.Publishing?
      && s1.nodes[r.node].disk == s.nodes[r.node].disk && r.expected == |Chunk(c, r.key)|
    requires Finished(c, s1, s', t, w)
    ensures Fetched(c, s, s', t, w)
  {
    hide Chunk, Announced;
  }

  // A read that finds nobody leading becomes the leader, and gets the chunk from the store.
  lemma LeadToEnd(c: Config, s: State, t: nat) returns (acts: seq<Action>, w: nat)
    requires Sound(c, s) && t in s.tasks && s.tasks[t].stage.AtFlight?
    requires s.tasks[t].key !in s.nodes[s.tasks[t].node].flight.slots
    requires s.tasks[t].expected == |Chunk(c, s.tasks[t].key)|
    ensures AllHelpful(acts) && s.tasks[t].node in s.nodes && Fetched(c, s, Run(c, s, acts), t, w)
  {
    hide Step, Run, Sound, Chunk, Finished, Fetched, Solo;
    NotYetJoined(c, s, t);
    JoinStepIs(c, s, t);
    var a := JoinFlight(t, []);
    One(c, s, a);
    SoundRun(c, s, [a]);
    var s1 := Step(c, s, a);
    var rest, w' := FinishLeader(c, s1, t);
    w := w';
    Then(c, s, [a], rest);
    acts := [a] + rest;
    FetchedFrom(c, s, s1, Run(c, s1, rest), t, w);
  }

  lemma StoreStepIs(c: Config, s: State, n: nat, w: nat)
    requires n in s.nodes && w in s.nodes[n].writers && s.nodes[n].writers[w].Writing?
    ensures
      var s', k := Step(c, s, StoreSucceeds(n, w)), s.nodes[n].writers[w].key;
      s'.tasks == s.tasks && s'.nodes.Keys == s.nodes.Keys && k in s'.nodes[n].disk
  {
  }

  // A peer's request for a chunk that is not on disk goes to the singleflight.
  lemma ServeMisses(c: Config, s: State, n: nat, k: ChunkKey, v: nat) returns (acts: seq<Action>)
    requires n in s.nodes && v !in s.tasks && k !in s.nodes[n].disk
    ensures AllHelpful(acts)
    ensures Run(c, s, acts) == s.(tasks := s.tasks[v := Read(n, k, |Chunk(c, k)|, Serve(true), AtFlight)])
  {
    hide Chunk;
    var len := |Chunk(c, k)|;
    var a := Begin(v, n, k, len, Serve(true));
    var s1 := s.(tasks := s.tasks[v := Read(n, k, len, Serve(true), AtDisk)]);
    var s2 := s.(tasks := s.tasks[v := Read(n, k, len, Serve(true), AtDiskAgain)]);
    var s3 := s.(tasks := s.tasks[v := Read(n, k, len, Serve(true), AtFlight)]);
    assert Step(c, s, a) == s1;
    assert SetNode(s1, n, s.nodes[n]) == s1 && SetNode(s2, n, s.nodes[n]) == s2;
    assert Step(c, s1, Look(v)) == s2;
    assert Step(c, s2, Look(v)) == s3;
    hide Step;
    One(c, s, a);
    One(c, s1, Look(v));
    One(c, s2, Look(v));
    Then(c, s1, [Look(v)], [Look(v)]);
    Then(c, s, [a], [Look(v)] + [Look(v)]);
    acts := [a] + ([Look(v)] + [Look(v)]);
  }

  lemma FetchedWriter(c: Config, s: State, s': State, t: nat, w: nat)
    requires t in s.tasks && s.tasks[t].node in s.nodes && Fetched(c, s, s', t, w)
    ensures
      var r := s.tasks[t];
      && r.node in s'.nodes && w in s'.nodes[r.node].writers
      && s'.nodes[r.node].writers[w] == Writing(r.key, Chunk(c, r.key))
  {
  }

  lemma PopulatedFrom(c: Config, s: State, s1: State, v: nat, s2: State, s3: State, s4: State, w: nat)
    requires Undisturbed(s, s1) && v !in s1.tasks && v in s2.tasks && s2 == s1.(tasks := s1.tasks[v := s2.tasks[v]])
    requires s2.tasks[v].node in s2.nodes && Fetched(c, s2, s3, v, w)
    requires s4.tasks == s3.tasks && s4.nodes.Keys == s3.nodes.Keys
    ensures Undisturbed(s, s4)
  {
    hide Chunk, Conclude;
  }

  lemma Populate(c: Config, s: State, n: nat, k: ChunkKey) returns (acts: seq<Action>)
    requires Sound(c, s) && n in s.nodes
    ensures AllHelpful(acts)
    ensures
      var s' := Run(c, s, acts);
      Undisturbed(s, s') && k in s'.nodes[n].disk
  {
    if k in s.nodes[n].disk {
      acts := [];
    } else {
      hide Run, Step, Sound, Chunk, Conclude, Fetched, Undisturbed;
      var first := FreeSlot(c, s, n, k);
      SoundRun(c, s, first);
      var s1 := Run(c, s, first);
      var v := FreshId(s1.tasks.Keys);
      var ask := ServeMisses(c, s1, n, k, v);
      SoundRun(c, s1, ask);
      var s2 := Run(c, s1, ask);
      var lead, w := LeadToEnd(c, s2, v);
      var s3 := Run(c, s2, lead);
      var a := StoreSucceeds(n, w);
      FetchedWriter(c, s2, s3, v, w);
      StoreStepIs(c, s3, n, w);
      PopulatedFrom(c, s, s1, v, s2, s3, Step(c, s3, a), w);
      One(c, s3, a);
      Then(c, s2, lead, [a]);
      Then(c, s1, ask, lead + [a]);
      Then(c, s, first, ask + (lead + [a]));
      acts := first + (ask + (lead + [a]));
    }
  }

  // ---- Which reads can still succeed ----

  // The read asks for something that exists.
  ghost predicate Wants(c: Config, r: Read) {
    r.expected == |Chunk(c, r.key)| && (r.mode.Range? ==> r.mode.take + r.mode.len <= r.expected)
  }

  predicate Succeeded(s: State, t: nat) {
    t in s.tasks && s.tasks[t].stage.Ended? && s.tasks[t].stage.result.Ok?
  }

  // A leader that has, or will get, the right chunk.
  ghost predicate Delivers(c: Config, r: Read) {
    r.stage.Leads() && Outcome(c, r).Ok?
  }

  ghost predicate HasDeliverer(c: Config, s: State, n: nat, k: ChunkKey) {
    exists u :: u in s.tasks && s.tasks[u].node == n && s.tasks[u].key == k && Delivers(c, s.tasks[u])
  }

  // The channel a follower waits on holds a value, or will: somebody is about to send one, or a leader
  // of its key will deliver. A closed channel leaves a read, but not a request, one look at the disk.
  ghost predicate ChannelHopeful(c: Config, s: State, n: nat, ch: nat, serve: bool)
    requires n in s.nodes && ch < |s.nodes[n].flight.chans|
  {
    var f := s.nodes[n].flight;
    match f.chans[ch].status
    case Sent(m) => m.Value?
    case Closed => !serve
    case Open =>
      if SF.InSlot(f, ch) then HasDeliverer(c, s, n, f.chans[ch].key)
      else exists h :: h in f.tasks && f.tasks[h].Holds() && f.tasks[h].chan == ch && f.tasks[h].msg.Value?
  }

  ghost predicate Waits(s: State, t: nat) {
    && t in s.tasks && s.tasks[t].node in s.nodes
    && (var f := s.nodes[s.tasks[t].node].flight;
        && t in f.tasks && f.tasks[t].Waiting? && f.tasks[t].chan < |f.chans|
        && f.tasks[t].key == s.tasks[t].key && f.chans[f.tasks[t].chan].key == s.tasks[t].key)
  }

  ghost predicate Hopeful(c: Config, s: State, t: nat) {
    t in s.tasks &&
    match s.tasks[t].stage
    case Ended(res) => res.Ok?
    case Publishing(res) => res.Ok?
    case Follows =>
      Waits(s, t) &&
      ChannelHopeful(c, s, s.tasks[t].node, s.nodes[s.tasks[t].node].flight.tasks[t].chan, s.tasks[t].mode.Serve?)
    case Pulling => s.tasks[t].mode.Pull? && s.tasks[t].mode.peer in s.nodes
    case _ => true
  }

  lemma ConcludeSucceeds(c: Config, r: Read)
    requires Wants(c, r)
    ensures Conclude(r, Ok(Chunk(c, r.key))).Ok?
  {
  }

  // The disk has the chunk: the lookups of a read find it.
  lemma LookFinds(c: Config, s: State, t: nat) returns (acts: seq<Action>)
    requires Sound(c, s) && t in s.tasks && Wants(c, s.tasks[t]) && s.tasks[t].node in s.nodes
    requires s.tasks[t].key in s.nodes[s.tasks[t].node].disk
    requires
      var stage := s.tasks[t].stage;
      Looking(stage) || stage.AtDiskAgain? || stage.Retry?
    requires !s.tasks[t].stage.Ended?
    ensures AllHelpful(acts) && Succeeded(Run(c, s, acts), t)
  {
    var r := s.tasks[t];
    assert StageFits(r);
    if Looking(r.stage) && !r.mode.Serve? {
      assert WillHit(c, s.nodes[r.node], r);
      hide Run, Fits, Step;
      acts := LooksEnd(c, s, t);
    } else {
      OneLookFinds(c, s, t);
      One(c, s, Look(t));
      acts := [Look(t)];
    }
  }

  lemma OneLookFinds(c: Config, s: State, t: nat)
    requires Inv(c, s) && t in s.tasks && Wants(c, s.tasks[t]) && s.tasks[t].key in s.nodes[s.tasks[t].node].disk
    requires
      var r := s.tasks[t];
      (r.stage.AtDisk? && r.mode.Serve?) || r.stage.AtDiskAgain? || r.stage.Retry?
    ensures Succeeded(Step(c, s, Look(t)), t)
  {
    hide Chunk, NodeOk, ReadOk, Step;
    var r := s.tasks[t];
    var node := s.nodes[r.node];
    DiskIsRight(c, s, r.node, r.key);
    LookStepIs(c, s, t);
    FindsStage(c, node, r);
  }

  lemma FindsStage(c: Config, node: Node, r: Read)
    requires Wants(c, r) && r.key in node.disk && node.disk[r.key] == Chunk(c, r.key)
    requires (r.stage.AtDisk? && r.mode.Serve?) || r.stage.AtDiskAgain? || r.stage.Retry?
    ensures NextStage(node, r).Ended? && NextStage(node, r).result.Ok?
  {
    hide Chunk;
  }

  lemma DiskIsRight(c: Config, s: State, n: nat, k: ChunkKey)
    requires Inv(c, s) && n in s.nodes && k in s.nodes[n].disk
    ensures s.nodes[n].disk[k] == Chunk(c, k)
  {
    hide Chunk, ReadOk;
    assert NodeOk(c, s.nodes[n]);
  }

  lemma LookStepIs(c: Config, s: State, t: nat)
    requires t in s.tasks && s.tasks[t].node in s.nodes
    ensures
      var r := s.tasks[t];
      var s' := Step(c, s, Look(t));
      t in s'.tasks && s'.tasks[t] == r.(stage := NextStage(s.nodes[r.node], r))
  {
    hide NextStage;
  }

  lemma AtNode(c: Config, s: State, t: nat)
    requires Sound(c, s) && t in s.tasks
    ensures s.tasks[t].node in s.nodes
  {
  }

  lemma StaysPut(s: State, s': State, t: nat)
    requires Undisturbed(s, s') && t in s.tasks && !s.tasks[t].stage.Leads()
    ensures t in s'.tasks && s'.tasks[t] == s.tasks[t] && s'.nodes.Keys == s.nodes.Keys
  {
  }

  // A read that is not yet in the singleflight, or is done with it.
  lemma LookSucceeds(c: Config, s: State, t: nat) returns (acts: seq<Action>)
    requires Sound(c, s) && t in s.tasks && Wants(c, s.tasks[t]) && !s.tasks[t].stage.Ended?
    requires
      var stage := s.tasks[t].stage;
      Looking(stage) || stage.AtDiskAgain? || stage.Retry?
    ensures AllHelpful(acts) && Succeeded(Run(c, s, acts), t)
  {
    hide Run, Sound, Wants, Undisturbed, Succeeded;
    var r := s.tasks[t];
    AtNode(c, s, t);
    var first := Populate(c, s, r.node, r.key);
    SoundRun(c, s, first);
    var s1 := Run(c, s, first);
    StaysPut(s, s1, t);
    var rest := LookFinds(c, s1, t);
    Then(c, s, first, rest);
    acts := first + rest;
  }

  lemma JoinSucceeds(c: Config, s: State, t: nat) returns (acts: seq<Action>)
    requires Sound(c, s) && t in s.tasks && Wants(c, s.tasks[t]) && s.tasks[t].stage.AtFlight?
    ensures AllHelpful(acts) && Succeeded(Run(c, s, acts), t)
  {
    hide Run, Sound, Chunk, Undisturbed, Succeeded, Fetched;
    var r := s.tasks[t];
    AtNode(c, s, t);
    var first := FreeSlot(c, s, r.node, r.key);
    SoundRun(c, s, first);
    var s1 := Run(c, s, first);
    StaysPut(s, s1, t);
    var rest, w := LeadToEnd(c, s1, t);
    Then(c, s, first, rest);
    acts := first + rest;
    FetchedSucceeds(c, s1, Run(c, s1, rest), t, w);
  }

  lemma FetchedSucceeds(c: Config, s: State, s': State, t: nat, w: nat)
    requires t in s.tasks && s.tasks[t].node in s.nodes && Fetched(c, s, s', t, w) && Wants(c, s.tasks[t])
    ensures Succeeded(s', t)
  {
    ConcludeSucceeds(c, s.tasks[t]);
  }

  lemma LeaderSucceeds(c: Config, s: State, t: nat) returns (acts: seq<Action>)
    requires Sound(c, s) && t in s.tasks && Wants(c, s.tasks[t]) && Delivers(c, s.tasks[t])
    ensures AllHelpful(acts) && Succeeded(Run(c, s, acts), t)
  {
    var r := s.tasks[t];
    OutcomeRight(c, s, t);
    ConcludeSucceeds(c, r);
    hide Run, Inv, Fits, Chunk, Conclude, Announced;
    var acts', w := FinishLeader(c, s, t);
    acts := acts';
  }

  lemma OutcomeRight(c: Config, s: State, u: nat)
    requires Sound(c, s) && u in s.tasks && Delivers(c, s.tasks[u])
    ensures Outcome(c, s.tasks[u]) == Ok(Chunk(c, s.tasks[u].key))
  {
    hide NodeOk;
    assert ReadOk(c, s.nodes[s.tasks[u].node].flight, u, s.tasks[u]);
  }

  lemma FollowerWaits(c: Config, s: State, t: nat)
    requires Sound(c, s) && t in s.tasks && s.tasks[t].stage.Follows?
    ensures Waits(s, t)
  {
    var r := s.tasks[t];
    var node := s.nodes[r.node];
    assert NodeOk(c, node) && ReadOk(c, node.flight, t, r);
    OwnTask(s, t);
    assert SF.TasksPlaced(node.flight);
    hide Inv, NodeOk, Fits;
  }

  ghost function ChannelOf(s: State, t: nat): SF.Status
    requires Waits(s, t)
  {
    var f := s.nodes[s.tasks[t].node].flight;
    f.chans[f.tasks[t].chan].status
  }

  // A settled channel can be received from.
  lemma FollowStepIs(c: Config, s: State, t: nat)
    requires Waits(s, t) && s.tasks[t].stage.Follows? && !ChannelOf(s, t).Open?
    ensures
      var r, st := s.tasks[t], ChannelOf(s, t);
      var s' := Step(c, s, Followed(t));
      && t in s'.tasks
      && s'.tasks[t] == r.(stage := FollowedStage(r, if st.Sent? then SF.Got(st.msg) else SF.Dropped))
  {
    hide FollowedStage;
  }

  lemma SentIsRight(c: Config, s: State, t: nat)
    requires Inv(c, s) && Waits(s, t) && ChannelOf(s, t).Sent? && ChannelOf(s, t).msg.Value?
    ensures ChannelOf(s, t).msg.data == Chunk(c, s.tasks[t].key)
  {
    var node := s.nodes[s.tasks[t].node];
    assert NodeOk(c, node);
    var ch := node.flight.tasks[t].chan;
    assert SF.SentGood(Good(c), node.flight);
    assert SF.MsgGood(Good(c), node.flight.chans[ch].key, node.flight.chans[ch].status.msg);
  }

  lemma SentSucceeds(c: Config, s: State, t: nat) returns (acts: seq<Action>)
    requires Sound(c, s) && Waits(s, t) && s.tasks[t].stage.Follows? && Wants(c, s.tasks[t])
    requires ChannelOf(s, t).Sent? && ChannelOf(s, t).msg.Value?
    ensures AllHelpful(acts) && Succeeded(Run(c, s, acts), t)
  {
    SentIsRight(c, s, t);
    hide Step, Inv, Fits, Chunk, Conclude, ChannelOf, Waits;
    ConcludeSucceeds(c, s.tasks[t]);
    FollowStepIs(c, s, t);
    One(c, s, Followed(t));
    acts := [Followed(t)];
  }

  lemma ClosedStepIs(c: Config, s: State, t: nat)
    requires Waits(s, t) && s.tasks[t].stage.Follows? && ChannelOf(s, t).Closed? && !s.tasks[t].mode.Serve?
    ensures
      var s' := Step(c, s, Followed(t));
      t in s'.tasks && s'.tasks[t] == s.tasks[t].(stage := Retry)
  {
    hide Step;
    FollowStepIs(c, s, t);
  }

  lemma WantsStill(c: Config, r: Read, stage: Stage)
    requires Wants(c, r)
    ensures Wants(c, r.(stage := stage))
  {
  }

  lemma ClosedSucceeds(c: Config, s: State, t: nat) returns (acts: seq<Action>)
    requires Sound(c, s) && t in s.tasks && Waits(s, t) && s.tasks[t].stage.Follows? && Wants(c, s.tasks[t])
    requires ChannelOf(s, t).Closed? && !s.tasks[t].mode.Serve?
    ensures AllHelpful(acts) && Succeeded(Run(c, s, acts), t)
  {
    hide Step, Sound, Wants, ChannelOf, Waits, Run, Succeeded;
    var a := Followed(t);
    ClosedStepIs(c, s, t);
    WantsStill(c, s.tasks[t], Retry);
    One(c, s, a);
    SoundRun(c, s, [a]);
    var rest := LookSucceeds(c, Step(c, s, a), t);
    Then(c, s, [a], rest);
    acts := [a] + rest;
  }

  lemma SendAll(f: SF.State, h: nat) returns (f': SF.State)
    requires h in f.tasks && f.tasks[h].Holds() && f.tasks[h].chan < |f.chans|
    ensures f' == SF.Step(SF.Step(f, SF.LowerGauge(h)), SF.Send(h)) && OnlyTask(f, f', h)
    ensures f'.chans == f.chans[f.tasks[h].chan := SF.Chan(f.chans[f.tasks[h].chan].key, SF.Sent(f.tasks[h].msg))]
  {
    f' := SF.Step(SF.Step(f, SF.LowerGauge(h)), SF.Send(h));
  }

  // The state in which a waiting read finds its channel with the message.
  lemma NowSent(s: State, s': State, t: nat, ch: nat, msg: SF.Msg)
    requires Waits(s, t) && t in s'.tasks && s'.tasks[t] == s.tasks[t] && s.tasks[t].node in s'.nodes
    requires
      var f, f' := s.nodes[s.tasks[t].node].flight, s'.nodes[s.tasks[t].node].flight;
      && f.tasks[t].chan == ch && t in f'.tasks && f'.tasks[t] == f.tasks[t]
      && |f'.chans| == |f.chans| && f'.chans[ch] == SF.Chan(f.chans[ch].key, SF.Sent(msg))
    ensures Waits(s', t) && ChannelOf(s', t) == SF.Sent(msg)
  {
  }

  lemma HeldSucceeds(c: Config, s: State, t: nat, h: nat) returns (acts: seq<Action>)
    requires Sound(c, s) && Waits(s, t) && s.tasks[t].stage.Follows? && Wants(c, s.tasks[t])
    requires
      var f := s.nodes[s.tasks[t].node].flight;
      h in f.tasks && f.tasks[h].Holds() && f.tasks[h].chan == f.tasks[t].chan && f.tasks[h].msg.Value?
    ensures AllHelpful(acts) && Succeeded(Run(c, s, acts), t)
  {
    hide Step, SF.Step, Run, Inv, Fits, Wants, Succeeded, NodeStep;
    var n := s.tasks[t].node;
    var node := s.nodes[n];
    var f2 := SendAll(node.flight, h);
    var a1, a2 := FlightStep(n, SF.LowerGauge(h)), FlightStep(n, SF.Send(h));
    FlightStepIs(c, s, n, SF.LowerGauge(h));
    var s1 := SetNode(s, n, node.(flight := SF.Step(node.flight, SF.LowerGauge(h))));
    FlightStepIs(c, s1, n, SF.Send(h));
    var s2 := SetNode(s1, n, node.(flight := f2));
    One(c, s, a1);
    One(c, s1, a2);
    Then(c, s, [a1], [a2]);
    SoundRun(c, s, [a1] + [a2]);
    NowSent(s, s2, t, node.flight.tasks[t].chan, node.flight.tasks[h].msg);
    var rest := SentSucceeds(c, s2, t);
    Then(c, s, [a1] + [a2], rest);
    acts := [a1] + [a2] + rest;
  }

  lemma FinishedSends(c: Config, s: State, s': State, u: nat, w: nat, t: nat)
    requires Waits(s, t) && u in s.tasks && s.tasks[u].node in s.nodes && Finished(c, s, s', u, w) && u != t
    requires s.tasks[u].node == s.tasks[t].node && s.tasks[u].key == s.tasks[t].key
    requires
      var f := s.nodes[s.tasks[t].node].flight;
      SF.InSlot(f, f.tasks[t].chan)
    ensures t in s'.tasks && s'.tasks[t] == s.tasks[t]
    ensures Waits(s', t) && ChannelOf(s', t) == SF.Sent(MessageOf(Outcome(c, s.tasks[u])))
  {
    hide Outcome, MessageOf, Conclude, Chunk;
    var f := s.nodes[s.tasks[t].node].flight;
    NowSent(s, s', t, f.tasks[t].chan, MessageOf(Outcome(c, s.tasks[u])));
  }

  lemma SlotSucceeds(c: Config, s: State, t: nat) returns (acts: seq<Action>)
    requires Sound(c, s) && Waits(s, t) && s.tasks[t].stage.Follows? && Wants(c, s.tasks[t])
    requires
      var f := s.nodes[s.tasks[t].node].flight;
      SF.InSlot(f, f.tasks[t].chan) && HasDeliverer(c, s, s.tasks[t].node, f.chans[f.tasks[t].chan].key)
    ensures AllHelpful(acts) && Succeeded(Run(c, s, acts), t)
  {
    hide Run, Sound, Wants, Succeeded, Finished, Chunk, Outcome, SF.InSlot;
    var r := s.tasks[t];
    var u :| u in s.tasks && s.tasks[u].node == r.node && s.tasks[u].key == r.key && Delivers(c, s.tasks[u]);
    OutcomeRight(c, s, u);
    AtNode(c, s, u);
    var first, w := FinishLeader(c, s, u);
    SoundRun(c, s, first);
    var s1 := Run(c, s, first);
    FinishedSends(c, s, s1, u, w, t);
    var rest := SentSucceeds(c, s1, t);
    Then(c, s, first, rest);
    acts := first + rest;
  }

  lemma FollowerSucceeds(c: Config, s: State, t: nat) returns (acts: seq<Action>)
    requires Sound(c, s) && t in s.tasks && s.tasks[t].stage.Follows? && Wants(c, s.tasks[t]) && Hopeful(c, s, t)
    ensures AllHelpful(acts) && Succeeded(Run(c, s, acts), t)
  {
    hide Run, Inv, Fits, Wants, Succeeded;
    var f := s.nodes[s.tasks[t].node].flight;
    var ch := f.tasks[t].chan;
    match f.chans[ch].status
    case Sent(_) => acts := SentSucceeds(c, s, t);
    case Closed => acts := ClosedSucceeds(c, s, t);
    case Open =>
      if SF.InSlot(f, ch) {
        acts := SlotSucceeds(c, s, t);
      } else {
        var h :| h in f.tasks && f.tasks[h].Holds() && f.tasks[h].chan == ch && f.tasks[h].msg.Value?;
        acts := HeldSucceeds(c, s, t, h);
      }
  }

  // A peer's request for a chunk on disk is answered at once.
  lemma ServeHits(c: Config, s: State, n: nat, k: ChunkKey, v: nat) returns (acts: seq<Action>)
    requires Inv(c, s) && n in s.nodes && v !in s.tasks && k in s.nodes[n].disk
    ensures AllHelpful(acts)
    ensures Run(c, s, acts) == s.(tasks := s.tasks[v := Read(n, k, 0, Serve(false), Ended(Ok(Chunk(c, k))))])
  {
    hide Chunk, Inv, Step;
    DiskIsRight(c, s, n, k);
    var a := Begin(v, n, k, 0, Serve(false));
    var s1 := s.(tasks := s.tasks[v := Read(n, k, 0, Serve(false), AtDisk)]);
    BeginServeIs(c, s, n, k, v);
    ServeLookIs(c, s, n, k, v);
    One(c, s, a);
    One(c, s1, Look(v));
    Then(c, s, [a], [Look(v)]);
    acts := [a] + [Look(v)];
  }

  lemma BeginServeIs(c: Config, s: State, n: nat, k: ChunkKey, v: nat)
    requires n in s.nodes && v !in s.tasks
    ensures Step(c, s, Begin(v, n, k, 0, Serve(false))) ==
      s.(tasks := s.tasks[v := Read(n, k, 0, Serve(false), AtDisk)])
  {
  }

  lemma ServeLookIs(c: Config, s: State, n: nat, k: ChunkKey, v: nat)
    requires n in s.nodes && v !in s.tasks && k in s.nodes[n].disk
    ensures Step(c, s.(tasks := s.tasks[v := Read(n, k, 0, Serve(false), AtDisk)]), Look(v)) ==
      s.(tasks := s.tasks[v := Read(n, k, 0, Serve(false), Ended(Ok(s.nodes[n].disk[k])))])
  {
    var s1 := s.(tasks := s.tasks[v := Read(n, k, 0, Serve(false), AtDisk)]);
    assert SetNode(s1, n, s.nodes[n]) == s1;
  }

  lemma SoundInv(c: Config, s: State)
    requires Sound(c, s)
    ensures Inv(c, s)
  {
    hide Inv, Fits;
  }

  lemma PullStepIs(c: Config, s: State, t: nat, v: nat, w: nat)
    requires t in s.tasks && s.tasks[t].node in s.nodes && s.tasks[t].stage.Pulling? && s.tasks[t].mode.Pull?
    requires w !in s.nodes[s.tasks[t].node].writers && s.tasks[t].expected == |Chunk(c, s.tasks[t].key)|
    requires v in s.tasks && s.tasks[v].mode.Serve? && s.tasks[v].node == s.tasks[t].mode.peer
    requires s.tasks[v].key == s.tasks[t].key && s.tasks[v].stage == Ended(Ok(Chunk(c, s.tasks[t].key)))
    ensures Succeeded(Step(c, s, PullAnswers(t, v, true, w)), t)
  {
    hide Chunk, Spawn;
  }

  // A pull from a peer that exists: the peer can be made to have the chunk.
  lemma PullSucceeds(c: Config, s: State, t: nat) returns (acts: seq<Action>)
    requires Sound(c, s) && t in s.tasks && Wants(c, s.tasks[t])
    requires s.tasks[t].stage.Pulling? && s.tasks[t].mode.Pull? && s.tasks[t].mode.peer in s.nodes
    ensures AllHelpful(acts) && Succeeded(Run(c, s, acts), t)
  {
    hide Run, Step, Sound, Inv, Chunk, Undisturbed, Succeeded;
    var r := s.tasks[t];
    AtNode(c, s, t);
    var first := Populate(c, s, r.mode.peer, r.key);
    SoundRun(c, s, first);
    var s1 := Run(c, s, first);
    StaysPut(s, s1, t);
    var v := FreshId(s1.tasks.Keys);
    SoundInv(c, s1);
    var ask := ServeHits(c, s1, r.mode.peer, r.key, v);
    var s2 := Run(c, s1, ask);
    var w := FreshId(s2.nodes[r.node].writers.Keys);
    var a := PullAnswers(t, v, true, w);
    PullStepIs(c, s2, t, v, w);
    One(c, s2, a);
    Then(c, s1, ask, [a]);
    Then(c, s, first, ask + [a]);
    acts := first + (ask + [a]);
  }

  // From every sound state a hopeful read has a continuation in which nothing goes wrong and it succeeds.
  lemma HopefulSucceeds(c: Config, s: State, t: nat) returns (acts: seq<Action>)
    requires Sound(c, s) && t in s.tasks && Wants(c, s.tasks[t]) && Hopeful(c, s, t)
    ensures AllHelpful(acts) && Succeeded(Run(c, s, acts), t)
  {
    hide Inv, Fits, Wants, Chunk;
    match s.tasks[t].stage
    case Ended(_) => acts := [];
    case Follows => acts := FollowerSucceeds(c, s, t);
    case AtFlight => acts := JoinSucceeds(c, s, t);
    case AtRemove =>
      var a := Look(t);
      RemoveStepIs(c, s, t);
      WantsStill(c, s.tasks[t], AtFlight);
      One(c, s, a);
      SoundRun(c, s, [a]);
      hide Run, Step, Succeeded;
      var rest := JoinSucceeds(c, Step(c, s, a), t);
      Then(c, s, [a], rest);
      acts := [a] + rest;
    case Publishing(_) => acts := LeaderSucceeds(c, s, t);
    case AtPeers(_) =>
      LeaderDelivers(c, s.tasks[t]);
      acts := LeaderSucceeds(c, s, t);
    case Asking(_, _) =>
      LeaderDelivers(c, s.tasks[t]);
      acts := LeaderSucceeds(c, s, t);
    case AtOrigin =>
      LeaderDelivers(c, s.tasks[t]);
      acts := LeaderSucceeds(c, s, t);
    case Pulling => acts := PullSucceeds(c, s, t);
    case _ => acts := LookSucceeds(c, s, t);
  }

  lemma LeaderDelivers(c: Config, r: Read)
    requires Wants(c, r) && r.stage.Leads() && !r.stage.Publishing?
    ensures Delivers(c, r)
  {
  }

  lemma RemoveStepIs(c: Config, s: State, t: nat)
    requires Sound(c, s) && t in s.tasks && s.tasks[t].stage.AtRemove?
    ensures
      var s' := Step(c, s, Look(t));
      t in s'.tasks && s'.tasks[t] == s.tasks[t].(stage := AtFlight)
  {
    hide Step, Sound;
    AtNode(c, s, t);
    LookStepIs(c, s, t);
  }

  // ---- A read that is not hopeful never succeeds ----

  // Everything but wiping the singleflight map, which gives followers another chance.
  predicate Tame(a: Action) {
    !(a.FlightStep? && a.step.ClearSlot?)
  }

  // A follower that a wipe of its slot would send back to the disk.
  ghost predicate Revives(f: SF.State, ch: nat, serve: bool) {
    !serve && ch < |f.chans| && f.chans[ch].status.Open? && SF.InSlot(f, ch)
  }

  ghost predicate Revivable(s: State, t: nat) {
    && Waits(s, t) && s.tasks[t].stage.Follows?
    && var f := s.nodes[s.tasks[t].node].flight;
       Revives(f, f.tasks[t].chan, s.tasks[t].mode.Serve?)
  }

  lemma ReadKept(c: Config, s: State, a: Action, t: nat)
    requires t in s.tasks
    ensures t in Step(c, s, a).tasks && Step(c, s, a).tasks[t] == s.tasks[t].(stage := Step(c, s, a).tasks[t].stage)
    ensures OnNode(a) || a.read != t ==> Step(c, s, a).tasks[t] == s.tasks[t]
    ensures s.tasks[t].stage.Ended? ==> Step(c, s, a).tasks[t] == s.tasks[t]
  {
    hide NextStage, Kept, Chunk, SF.Step, FollowedStage, JoinedStage, Conclude;
    if s.tasks[t].stage.Ended? && a == Look(t) {
      EndedStays(s, t);
    }
  }

  lemma EndedStays(s: State, t: nat)
    requires t in s.tasks && s.tasks[t].stage.Ended?
    ensures s.tasks[t].node in s.nodes ==> NextStage(s.nodes[s.tasks[t].node], s.tasks[t]) == s.tasks[t].stage
  {
  }

  // The channel has failed its followers: it carries an error, or whoever is to send on it will send one.
  ghost predicate Fails(f: SF.State, ch: nat) {
    && ch < |f.chans|
    && match f.chans[ch].status
       case Sent(m) => m.Failure?
       case Closed => false
       case Open =>
         && !SF.InSlot(f, ch)
         && forall h | h in f.tasks && f.tasks[h].Holds() && f.tasks[h].chan == ch :: f.tasks[h].msg.Failure?
  }

  lemma FailsStays(f: SF.State, a: SF.Action, ch: nat)
    requires SF.SlotsOpen(f) && SF.HoldersOwn(f) && SF.TasksPlaced(f) && Fails(f, ch)
    ensures Fails(SF.Step(f, a), ch)
  {
    var f' := SF.Step(f, a);
    if f.chans[ch].status.Sent? {
      SF.StepSettled(f, a, ch);
    } else if a.Send? && SF.Enabled(f, a) && f.tasks[a.task].chan == ch {
      assert f.tasks[a.task].Holds();
    } else {
      forall h | h in f'.tasks && f'.tasks[h].Holds() && f'.tasks[h].chan == ch
        ensures f'.tasks[h].msg.Failure?
      {
        if h in f.tasks && f.tasks[h].Holds() {
          assert f.tasks[h].chan == ch;
        }
      }
    }
  }

  lemma SlotStays(f: SF.State, a: SF.Action, ch: nat)
    requires SF.SlotsOpen(f) && SF.HoldersOwn(f) && SF.TasksPlaced(f)
    requires ch < |f.chans| && SF.InSlot(f, ch) && !a.ClearSlot?
    ensures
      var f' := SF.Step(f, a);
      && ch < |f'.chans|
      && ((f'.chans[ch] == f.chans[ch] && SF.InSlot(f', ch))
          || (a.Finish? && SF.Enabled(f, a) && f.tasks[a.task].key == f.chans[ch].key
              && (a.msg.Failure? ==> Fails(f', ch))))
  {
    var f' := SF.Step(f, a);
    if a.Send? && SF.Enabled(f, a) {
      assert f.tasks[a.task].Holds();
    }
    if a.Finish? && SF.Enabled(f, a) && f.tasks[a.task].key == f.chans[ch].key {
      forall h | h in f'.tasks && f'.tasks[h].Holds() && f'.tasks[h].chan == ch
        ensures f'.tasks[h].msg == a.msg
      {
      }
    }
  }

  // What an action of the cluster does to the flight of the node it concerns.
  ghost function FlightAction(s: State, a: Action): Option<SF.Action> {
    if a.FlightStep? then if Background(a.step) then Some(a.step) else None
    else if OnNode(a) || a.Begin? || a.read !in s.tasks || s.tasks[a.read].node !in s.nodes then None
    else
      var r := s.tasks[a.read];
      var f := s.nodes[r.node].flight;
      match a
      case JoinFlight(u, _) => if r.stage.AtFlight? && u !in f.tasks then Some(SF.Enter(u, r.key)) else None
      case Followed(u) => if r.stage.Follows? then Some(SF.Receive(u)) else None
      case Publish(u) => if r.stage.Publishing? then Some(SF.Finish(u, MessageOf(r.stage.result))) else None
      case Cancel(u) =>
        if r.stage.Follows? then Some(SF.GiveUp(u))
        else if r.stage.Leads() then Some(SF.Finish(u, SF.Failure))
        else None
      case _ => None
  }

  ghost predicate Concerns(s: State, a: Action, n: nat) {
    if OnNode(a) then a.node == n else !a.Begin? && a.read in s.tasks && s.tasks[a.read].node == n
  }

  lemma FlightOf(c: Config, s: State, a: Action, n: nat)
    requires n in s.nodes
    ensures n in Step(c, s, a).nodes
    ensures
      var f, f' := s.nodes[n].flight, Step(c, s, a).nodes[n].flight;
      f' == if Concerns(s, a, n) && FlightAction(s, a).Some? then SF.Step(f, FlightAction(s, a).value) else f
  {
    hide NextStage, Kept, Spawn, Chunk, FollowedStage, JoinedStage, Conclude, SF.Step;
    if OnNode(a) {
      hide SF.Enabled;
    } else {
      ReadFlight(c, s, a, n);
    }
  }

  lemma ReadFlight(c: Config, s: State, a: Action, n: nat)
    requires n in s.nodes && !OnNode(a)
    ensures n in Step(c, s, a).nodes
    ensures
      var f, f' := s.nodes[n].flight, Step(c, s, a).nodes[n].flight;
      f' == if Concerns(s, a, n) && FlightAction(s, a).Some? then SF.Step(f, FlightAction(s, a).value) else f
  {
    hide NextStage, Kept, Spawn, Chunk, FollowedStage, JoinedStage, Conclude;
    SpawnAndKeep();
    if Concerns(s, a, n) && FlightAction(s, a).Some? && !SF.Enabled(s.nodes[n].flight, FlightAction(s, a).value) {
      SF.DisabledStep(s.nodes[n].flight, FlightAction(s, a).value);
    }
    hide SF.Step;
  }

  lemma SpawnAndKeep()
    ensures forall node, w, k, b :: Spawn(node, w, k, b).flight == node.flight
    ensures forall node, k, b, w :: Kept(node, k, b, w).flight == node.flight
  {
  }

  // Nobody becomes able to deliver, except by leading anew where the slot is free.
  lemma DelivererBefore(c: Config, s: State, a: Action, v: nat)
    requires Sound(c, s) && v in Step(c, s, a).tasks && Delivers(c, Step(c, s, a).tasks[v])
    ensures v in s.tasks && s.tasks[v].node in s.nodes
    ensures
      var r, r' := s.tasks[v], Step(c, s, a).tasks[v];
      && r'.node == r.node && r'.key == r.key
      && (Delivers(c, r) || r.key !in s.nodes[r.node].flight.slots)
  {
    hide Step, Chunk, NodeOk, Fits;
    var s' := Step(c, s, a);
    StepInv(c, s, a);
    LeadsFrom(c, s, a, v);
    assert ReadOk(c, s'.nodes[s'.tasks[v].node].flight, v, s'.tasks[v]);
  }

  // Only a leader goes on leading, but for a read that enters where the slot is free.
  lemma LeadsFrom(c: Config, s: State, a: Action, v: nat)
    requires v in Step(c, s, a).tasks && Step(c, s, a).tasks[v].stage.Leads()
    ensures v in s.tasks
    ensures
      var r, r' := s.tasks[v], Step(c, s, a).tasks[v];
      && r' == r.(stage := r'.stage)
      && (|| r' == r
          || (r.stage.Leads() && !r.stage.Publishing?)
          || (r.node in s.nodes && r.key !in s.nodes[r.node].flight.slots))
  {
    hide Chunk, SF.Step, SF.Enabled, Kept, Spawn, NextStage, Conclude;
    if v in s.tasks && s.tasks[v] != Step(c, s, a).tasks[v] {
      ReadKept(c, s, a, v);
      if a == Look(v) {
        LookNeverLeads(s, v);
      }
    }
  }

  lemma LookNeverLeads(s: State, t: nat)
    requires t in s.tasks && s.tasks[t].node in s.nodes
    ensures
      var r := s.tasks[t];
      var stage := NextStage(s.nodes[r.node], r);
      stage == r.stage || !stage.Leads()
  {
  }

  // A slot nobody will fill stays that way, or fails its followers.
  lemma SlotHopeless(c: Config, s: State, a: Action, n: nat, ch: nat)
    requires Sound(c, s) && Tame(a) && n in s.nodes && ch < |s.nodes[n].flight.chans|
    requires
      var f := s.nodes[n].flight;
      SF.InSlot(f, ch) && f.chans[ch].status.Open? && !HasDeliverer(c, s, n, f.chans[ch].key)
    ensures n in Step(c, s, a).nodes
    ensures
      var f, f' := s.nodes[n].flight, Step(c, s, a).nodes[n].flight;
      && ch < |f'.chans|
      && (Fails(f', ch)
          || (f'.chans[ch] == f.chans[ch] && SF.InSlot(f', ch) && !HasDeliverer(c, Step(c, s, a), n, f.chans[ch].key)))
  {
    hide Step, SF.Step, Sound, Chunk, Outcome, Fails, FlightAction, SF.SlotsOpen, SF.HoldersOwn, SF.TasksPlaced;
    var f := s.nodes[n].flight;
    var s' := Step(c, s, a);
    var k := f.chans[ch].key;
    FlightParts(c, s, n);
    TameFlight(s, a);
    FlightOf(c, s, a, n);
    if HasDeliverer(c, s', n, k) {
      var v :| v in s'.tasks && s'.tasks[v].node == n && s'.tasks[v].key == k && Delivers(c, s'.tasks[v]);
      DelivererBefore(c, s, a, v);
      assert false;
    }
    if Concerns(s, a, n) && FlightAction(s, a).Some? {
      var sa := FlightAction(s, a).value;
      SlotStays(f, sa, ch);
      if sa.Finish? && SF.Enabled(f, sa) && f.tasks[sa.task].key == k {
        FinisherFails(c, s, a, n, k);
      }
    }
  }

  lemma FlightParts(c: Config, s: State, n: nat)
    requires Sound(c, s) && n in s.nodes
    ensures
      var f := s.nodes[n].flight;
      SF.SlotsOpen(f) && SF.HoldersOwn(f) && SF.TasksPlaced(f)
  {
    hide ReadOk, Fits;
    assert NodeOk(c, s.nodes[n]);
  }

  lemma TameFlight(s: State, a: Action)
    requires Tame(a)
    ensures FlightAction(s, a).Some? ==> !FlightAction(s, a).value.ClearSlot?
  {
  }

  // If no leader of the key delivers, whoever finishes sends an error.
  lemma FinisherFails(c: Config, s: State, a: Action, n: nat, k: ChunkKey)
    requires Sound(c, s) && n in s.nodes && !HasDeliverer(c, s, n, k) && Concerns(s, a, n)
    requires FlightAction(s, a).Some? && FlightAction(s, a).value.Finish?
    requires
      var f, sa := s.nodes[n].flight, FlightAction(s, a).value;
      SF.Enabled(f, sa) && f.tasks[sa.task].key == k
    ensures FlightAction(s, a).value.msg.Failure?
  {
    hide NodeOk, ReadOk, Chunk;
    var u := FlightAction(s, a).value.task;
    assert FlightFits(s, n);
    assert TaskFits(s.nodes[n].flight.tasks[u], s.tasks[u]);
    assert !Delivers(c, s.tasks[u]);
  }

  // The channel t waits on is beyond hope.
  ghost predicate ChannelHopeless(c: Config, s: State, n: nat, ch: nat, serve: bool)
    requires n in s.nodes
  {
    var f := s.nodes[n].flight;
    && ch < |f.chans|
    && (Fails(f, ch)
        || (f.chans[ch].status.Closed? && serve)
        || (f.chans[ch].status.Open? && SF.InSlot(f, ch) && !HasDeliverer(c, s, n, f.chans[ch].key)))
  }

  lemma ChannelHopelessIff(c: Config, s: State, n: nat, ch: nat, serve: bool)
    requires n in s.nodes && ch < |s.nodes[n].flight.chans|
    ensures ChannelHopeless(c, s, n, ch, serve) <==> !ChannelHopeful(c, s, n, ch, serve)
  {
  }

  // A channel beyond hope stays so, unless it is wiped under a follower that would then look at the disk.
  lemma ChannelStaysHopeless(c: Config, s: State, a: Action, n: nat, ch: nat, serve: bool)
    requires Sound(c, s) && n in s.nodes && ChannelHopeless(c, s, n, ch, serve)
    requires Tame(a) || !Revives(s.nodes[n].flight, ch, serve)
    ensures n in Step(c, s, a).nodes && ChannelHopeless(c, Step(c, s, a), n, ch, serve)
    ensures !Revives(s.nodes[n].flight, ch, serve) ==> !Revives(Step(c, s, a).nodes[n].flight, ch, serve)
  {
    hide Step, SF.Step, Sound, FlightAction, SF.SlotsOpen, SF.HoldersOwn, SF.TasksPlaced;
    var f := s.nodes[n].flight;
    FlightParts(c, s, n);
    FlightOf(c, s, a, n);
    if f.chans[ch].status.Open? && SF.InSlot(f, ch) && !HasDeliverer(c, s, n, f.chans[ch].key) {
      if Tame(a) {
        SlotHopeless(c, s, a, n, ch);
      } else {
        WipeHopeless(c, s, a, n, ch);
      }
    } else if Concerns(s, a, n) && FlightAction(s, a).Some? {
      var sa := FlightAction(s, a).value;
      if Fails(f, ch) {
        FailsStays(f, sa, ch);
      } else {
        SF.StepSettled(f, sa, ch);
      }
    }
  }

  // A wipe closes the channel, or leaves it as it was.
  lemma WipeHopeless(c: Config, s: State, a: Action, n: nat, ch: nat)
    requires !Tame(a) && n in s.nodes && ch < |s.nodes[n].flight.chans|
    requires
      var f := s.nodes[n].flight;
      SF.SlotsOpen(f) && SF.InSlot(f, ch) && !HasDeliverer(c, s, n, f.chans[ch].key)
    ensures n in Step(c, s, a).nodes
    ensures
      var f, f' := s.nodes[n].flight, Step(c, s, a).nodes[n].flight;
      && ch < |f'.chans|
      && (|| f'.chans[ch].status.Closed?
          || (f'.chans[ch] == f.chans[ch] && SF.InSlot(f', ch) && !HasDeliverer(c, Step(c, s, a), n, f.chans[ch].key)))
  {
    hide Delivers, NodeStep;
    assert Step(c, s, a).tasks == s.tasks;
    if a.node in s.nodes {
      FlightStepIs(c, s, a.node, a.step);
      WipeStep(s.nodes[n].flight, a.step, ch);
    }
  }

  lemma WipeStep(f: SF.State, a: SF.Action, ch: nat)
    requires a.ClearSlot? && SF.SlotsOpen(f) && ch < |f.chans| && SF.InSlot(f, ch)
    ensures
      var f' := SF.Step(f, a);
      && ch < |f'.chans|
      && (if a.key == f.chans[ch].key then f'.chans[ch] == SF.Chan(a.key, SF.Closed) && f'.tasks == f.tasks
          else f'.chans[ch] == f.chans[ch] && SF.InSlot(f', ch))
  {
  }

  lemma FollowsMoves(c: Config, s: State, a: Action, t: nat)
    requires Waits(s, t) && s.tasks[t].stage.Follows?
    ensures t in Step(c, s, a).tasks
    ensures
      var r, r', st := s.tasks[t], Step(c, s, a).tasks[t], ChannelOf(s, t);
      || r' == r
      || r'.stage == Ended(Err)
      || (!st.Open? && r'.stage == FollowedStage(r, if st.Sent? then SF.Got(st.msg) else SF.Dropped))
  {
    hide FollowedStage, SF.Step, NextStage;
    ReadKept(c, s, a, t);
    if !OnNode(a) && a.read == t {
      match a
      case Look(_) => FollowsLooks(s, t);
      case Followed(_) => if !ChannelOf(s, t).Open? { FollowStepIs(c, s, t); }
      case _ =>
    }
  }

  lemma FollowsLooks(s: State, t: nat)
    requires t in s.tasks && s.tasks[t].node in s.nodes && s.tasks[t].stage.Follows?
    ensures NextStage(s.nodes[s.tasks[t].node], s.tasks[t]) == Follows
  {
  }

  lemma SameChannel(f: SF.State, a: SF.Action, t: nat)
    requires t in f.tasks && f.tasks[t].Waiting?
    ensures t in SF.Step(f, a).tasks && (SF.Step(f, a).tasks[t].Waiting? ==> SF.Step(f, a).tasks[t] == f.tasks[t])
  {
  }

  lemma FollowerHopeless(c: Config, s: State, a: Action, t: nat)
    requires Sound(c, s) && t in s.tasks && s.tasks[t].stage.Follows? && !Hopeful(c, s, t)
    requires Tame(a) || !Revivable(s, t)
    ensures !Hopeful(c, Step(c, s, a), t) && (!Revivable(s, t) ==> !Revivable(Step(c, s, a), t))
  {
    hide Step, SF.Step, Inv, Fits, ChannelHopeful, ChannelHopeless, Revives;
    FollowerWaits(c, s, t);
    var r := s.tasks[t];
    var n, f := r.node, s.nodes[r.node].flight;
    var ch, serve := f.tasks[t].chan, r.mode.Serve?;
    ChannelHopelessIff(c, s, n, ch, serve);
    ChannelStaysHopeless(c, s, a, n, ch, serve);
    FollowsMoves(c, s, a, t);
    var s' := Step(c, s, a);
    if s'.tasks[t] == r {
      StepInv(c, s, a);
      StepFits(c, s, a);
      FollowerWaits(c, s', t);
      FlightOf(c, s, a, n);
      if Concerns(s, a, n) && FlightAction(s, a).Some? {
        SameChannel(f, FlightAction(s, a).value, t);
      }
      ChannelHopelessIff(c, s', n, ch, serve);
    } else {
      HopelessReceives(c, s, t);
    }
  }

  // What a follower receives from a hopeless channel is an error.
  lemma HopelessReceives(c: Config, s: State, t: nat)
    requires Waits(s, t)
    requires
      var r := s.tasks[t];
      ChannelHopeless(c, s, r.node, s.nodes[r.node].flight.tasks[t].chan, r.mode.Serve?)
    ensures
      var st := ChannelOf(s, t);
      st.Open? || FollowedStage(s.tasks[t], if st.Sent? then SF.Got(st.msg) else SF.Dropped) == Ended(Err)
  {
  }

  lemma PublishesErr(c: Config, s: State, a: Action, t: nat)
    requires t in s.tasks && s.tasks[t].stage == Publishing(Err)
    ensures t in Step(c, s, a).tasks
    ensures Step(c, s, a).tasks[t].stage == Publishing(Err) || Step(c, s, a).tasks[t].stage == Ended(Err)
  {
    hide SF.Step, NextStage;
    ReadKept(c, s, a, t);
    if a == Look(t) {
      PublishingLooks(s, t);
    }
  }

  lemma PublishingLooks(s: State, t: nat)
    requires t in s.tasks && s.tasks[t].stage.Publishing?
    ensures s.tasks[t].node in s.nodes ==> NextStage(s.nodes[s.tasks[t].node], s.tasks[t]) == s.tasks[t].stage
  {
  }

  // A pull from a peer that does not exist only fails.
  lemma PullsInVain(c: Config, s: State, a: Action, t: nat)
    requires Inv(c, s) && t in s.tasks && s.tasks[t].stage.Pulling?
    requires !(s.tasks[t].mode.Pull? && s.tasks[t].mode.peer in s.nodes)
    ensures t in Step(c, s, a).tasks && Step(c, s, a).nodes.Keys == s.nodes.Keys
    ensures Step(c, s, a).tasks[t] == s.tasks[t] || Step(c, s, a).tasks[t].stage == Ended(Err)
  {
    hide NodeOk, ReadOk, SF.Step, NextStage, NodeStep;
    SameNodes(c, s, a);
    ReadKept(c, s, a, t);
    if a == Look(t) {
      PullingLooks(s, t);
    }
  }

  lemma SameNodes(c: Config, s: State, a: Action)
    ensures Step(c, s, a).nodes.Keys == s.nodes.Keys
  {
    hide NextStage, NodeStep, Kept, Spawn, SF.Step, SF.Enabled, FollowedStage, JoinedStage, Conclude, Chunk;
  }

  lemma PullingLooks(s: State, t: nat)
    requires t in s.tasks && s.tasks[t].stage.Pulling?
    ensures s.tasks[t].node in s.nodes ==> NextStage(s.nodes[s.tasks[t].node], s.tasks[t]) == s.tasks[t].stage
  {
  }

  lemma StepHopeless(c: Config, s: State, a: Action, t: nat)
    requires Sound(c, s) && t in s.tasks && !Hopeful(c, s, t) && (Tame(a) || !Revivable(s, t))
    ensures t in Step(c, s, a).tasks && !Hopeful(c, Step(c, s, a), t)
    ensures !Revivable(s, t) ==> !Revivable(Step(c, s, a), t)
  {
    hide Step, Inv, Fits, ChannelHopeful, Revives;
    ReadKept(c, s, a, t);
    match s.tasks[t].stage
    case Follows => FollowerHopeless(c, s, a, t);
    case Publishing(_) => PublishesErr(c, s, a, t);
    case Pulling => PullsInVain(c, s, a, t);
    case Ended(_) =>
  }

  // A read that is not hopeful stays so in every run that does not wipe the map; and in every run at all,
  // unless a wipe would send it back to the disk.
  lemma {:induction false} RunHopeless(c: Config, s: State, acts: seq<Action>, t: nat)
    requires Sound(c, s) && t in s.tasks && !Hopeful(c, s, t)
    requires (forall a | a in acts :: Tame(a)) || !Revivable(s, t)
    ensures t in Run(c, s, acts).tasks && !Hopeful(c, Run(c, s, acts), t)
    decreases |acts|
  {
    hide Step, Inv, Fits, Hopeful, Revivable;
    if acts != [] {
      var s1 := Step(c, s, acts[0]);
      assert acts[0] in acts && forall a | a in acts[1..] :: a in acts;
      StepHopeless(c, s, acts[0], t);
      StepInv(c, s, acts[0]);
      StepFits(c, s, acts[0]);
      RunHopeless(c, s1, acts[1..], t);
    }
  }

  ghost predicate CanSucceed(c: Config, s: State, t: nat) {
    exists acts :: (forall a | a in acts :: Tame(a)) && Succeeded(Run(c, s, acts), t)
  }

  ghost predicate CanEverSucceed(c: Config, s: State, t: nat) {
    exists acts :: Succeeded(Run(c, s, acts), t)
  }

  ghost predicate SucceedsWithHelp(c: Config, s: State, t: nat) {
    exists acts :: AllHelpful(acts) && Succeeded(Run(c, s, acts), t) && RightBytes(c, Run(c, s, acts), t)
  }

  ghost predicate RightBytes(c: Config, s: State, t: nat) {
    t in s.tasks && s.tasks[t].stage.Ended? && ResultOk(c, s.tasks[t], s.tasks[t].stage.result)
  }

  lemma SucceedsRight(c: Config, s: State, t: nat)
    requires Sound(c, s) && Succeeded(s, t)
    ensures RightBytes(c, s, t)
  {
    hide NodeOk, Fits, Chunk, ResultOk;
    assert ReadOk(c, s.nodes[s.tasks[t].node].flight, t, s.tasks[t]);
  }

  lemma InitSound(c: Config, nodes: set<nat>)
    ensures Sound(c, Init(nodes))
  {
  }

  // A wipe of its slot leaves a revivable follower with a closed channel.
  lemma WipeRevives(c: Config, s: State, t: nat) returns (a: Action)
    requires Sound(c, s) && Revivable(s, t)
    ensures t in Step(c, s, a).tasks && Step(c, s, a).tasks[t] == s.tasks[t]
    ensures Sound(c, Step(c, s, a)) && Hopeful(c, Step(c, s, a), t)
  {
    hide Sound, Run, Step, SF.Step, Hopeful, ChannelOf, SF.SlotsOpen;
    var n := s.tasks[t].node;
    var f := s.nodes[n].flight;
    a := FlightStep(n, SF.ClearSlot(s.tasks[t].key));
    FlightParts(c, s, n);
    RunOne(c, s, a);
    SoundRun(c, s, [a]);
    FlightStepIs(c, s, n, a.step);
    WipeStep(f, a.step, f.tasks[t].chan);
    ClosedHopes(c, s, Step(c, s, a), t);
  }

  lemma ClosedHopes(c: Config, s: State, s': State, t: nat)
    requires Revivable(s, t) && s'.tasks == s.tasks && s.tasks[t].node in s'.nodes
    requires
      var f, f' := s.nodes[s.tasks[t].node].flight, s'.nodes[s.tasks[t].node].flight;
      var ch := f.tasks[t].chan;
      f'.tasks == f.tasks && ch < |f'.chans| && f'.chans[ch].status.Closed? && f'.chans[ch].key == f.chans[ch].key
    ensures Hopeful(c, s', t)
  {
  }

  // In every reachable state of every cluster, for every read that asks for something that exists: it
  // can still succeed, short of a wipe of the singleflight map, if and only if it is hopeful; and then a
  // continuation in which the store answers and nothing goes wrong gets it there, with the right bytes. In
  // all runs, wipes included, it can if and only if it is hopeful or a wipe would send it back to the disk.
  lemma CanSucceedIffHopeful(c: Config, nodes: set<nat>, acts: seq<Action>, t: nat)
    requires
      var s := Run(c, Init(nodes), acts);
      t in s.tasks && Wants(c, s.tasks[t])
    ensures
      var s := Run(c, Init(nodes), acts);
      && (CanSucceed(c, s, t) <==> Hopeful(c, s, t))
      && (CanEverSucceed(c, s, t) <==> Hopeful(c, s, t) || Revivable(s, t))
      && (Hopeful(c, s, t) ==> SucceedsWithHelp(c, s, t))
  {
    InitSound(c, nodes);
    SoundRun(c, Init(nodes), acts);
    var s := Run(c, Init(nodes), acts);
    hide Init, Sound, Hopeful, Wants, Revivable, Succeeded, RightBytes;
    if Hopeful(c, s, t) {
      HopefulCan(c, s, t);
    } else {
      HopelessCannot(c, s, t);
      if Revivable(s, t) {
        RevivableCan(c, s, t);
      }
    }
  }

  lemma HopefulCan(c: Config, s: State, t: nat)
    requires Sound(c, s) && t in s.tasks && Wants(c, s.tasks[t]) && Hopeful(c, s, t)
    ensures CanSucceed(c, s, t) && CanEverSucceed(c, s, t) && SucceedsWithHelp(c, s, t)
  {
    hide Sound, Hopeful, Wants, Succeeded, RightBytes, Run;
    var more := HopefulSucceeds(c, s, t);
    HelpfulIsTame(more);
    SoundRun(c, s, more);
    SucceedsRight(c, Run(c, s, more), t);
  }

  lemma RevivableCan(c: Config, s: State, t: nat)
    requires Sound(c, s) && t in s.tasks && Wants(c, s.tasks[t]) && Revivable(s, t)
    ensures CanEverSucceed(c, s, t)
  {
    hide Sound, Hopeful, Wants, Succeeded, Revivable, Step, Run;
    var a := WipeRevives(c, s, t);
    var more := HopefulSucceeds(c, Step(c, s, a), t);
    RunFirst(c, s, a, more);
    assert Succeeded(Run(c, s, [a] + more), t);
  }

  lemma HopelessCannot(c: Config, s: State, t: nat)
    requires Sound(c, s) && t in s.tasks && !Hopeful(c, s, t)
    ensures !CanSucceed(c, s, t) && (!Revivable(s, t) ==> !CanEverSucceed(c, s, t))
  {
    hide Sound, Hopeful, Succeeded, Revivable, Run;
    if CanSucceed(c, s, t) {
      var more :| (forall a | a in more :: Tame(a)) && Succeeded(Run(c, s, more), t);
      RunHopeless(c, s, more, t);
      SucceededHopes(c, Run(c, s, more), t);
    }
    if !Revivable(s, t) && CanEverSucceed(c, s, t) {
      var more :| Succeeded(Run(c, s, more), t);
      RunHopeless(c, s, more, t);
      SucceededHopes(c, Run(c, s, more), t);
    }
  }

  // A pull whose peer does not have the chunk goes on to the store and can succeed there; any other failure
  // of the peer ends it.
  lemma PullFallsBack(c: Config, s: State, t: nat, u: nat, notFound: bool, w: nat)
    requires t in s.tasks && s.tasks[t].node in s.nodes && s.tasks[t].stage.Pulling? && s.tasks[t].mode.Pull?
    requires u in s.tasks && s.tasks[u].mode.Serve? && s.tasks[u].node == s.tasks[t].mode.peer
    requires s.tasks[u].key == s.tasks[t].key && s.tasks[u].stage == Ended(Err)
    ensures Hopeful(c, Step(c, s, PullAnswers(t, u, notFound, w)), t) <==> notFound
  {
  }

  lemma HelpfulIsTame(acts: seq<Action>)
    requires AllHelpful(acts)
    ensures forall a | a in acts :: Tame(a)
  {
    assert forall a: Action :: Helpful(a) ==> Tame(a);
  }

  lemma SucceededHopes(c: Config, s: State, t: nat)
    requires Succeeded(s, t)
    ensures Hopeful(c, s, t)
  {
  }
}
