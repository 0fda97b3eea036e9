/** Chunk reads across a cluster (src/fetcher.rs, src/transport.rs): every node serves reads from
    its staging map, its peer LRU, its disk, its singleflight, its peers or the blob store, and its
    stores feed those of the other nodes. Tasks, background writers, evictions, clears and
    cancellations take atomic steps in any order. */
module ClusterReads {
  import opened Core
  import SF = Singleflight
  import opened ReadPath

  // The immutable blobs, and the chunk size all nodes of a cluster share.
  datatype Config = Config(blob: (string, string) -> Bytes, chunkSize: nat)

  // What the blob store returns for a chunk: the range clipped to the blob.
  function Chunk(c: Config, k: ChunkKey): Bytes {
    var b := c.blob(k.mount, k.blob);
    if k.offset >= |b| then [] else b[k.offset..Min(k.offset + c.chunkSize, |b|)]
  }

  // A background insert (spawn_insert): the chunk is staged; once stored it will be unstaged.
  datatype Writer = Writing(key: ChunkKey, data: Bytes) | Unstaging(key: ChunkKey)

  datatype Node = Node(
    staging: map<ChunkKey, Bytes>,
    lru: map<ChunkKey, Bytes>,
    disk: map<ChunkKey, Bytes>,
    flight: SF.State,
    writers: map<nat, Writer>)

  datatype Mode =
    | Range(take: nat, len: nat) // fetch_chunk_range: a slice of the chunk
    | Whole(bypassPeers: bool)   // fetch_chunk, fetch_chunk_origin_only
    | Serve(wait: bool)          // a peer's request; with wait, also serve_peer_chunk
    | Pull(peer: nat)            // pull_chunk_from_peer_wait: a hydrate's chunk, from the peer it is planned for

  datatype Stage =
    | SliceStaging | SliceLru | SliceDisk // the lookups of a slice
    | AtStaging | AtLru | AtDisk          // the lookups of the whole chunk
    | AtRemove                            // found a wrong length, about to remove the chunk
    | AtDiskAgain                         // serve_peer_chunk looks once more
    | PullDisk                            // the lookup of a pull
    | Pulling                             // waiting for the peer's answer
    | AtFlight
    | Follows
    | Retry
    | AtPeers(todo: seq<nat>)
    | Asking(peer: nat, todo: seq<nat>)
    | AtOrigin
    | Publishing(result: Result<Bytes>)
    | Ended(result: Result<Bytes>)
  {
    // Leading the fetch for its key.
    predicate Leads() {
      AtPeers? || Asking? || AtOrigin? || Publishing?
    }
  }

  datatype Read = Read(node: nat, key: ChunkKey, expected: nat, mode: Mode, stage: Stage)

  datatype State = State(nodes: map<nat, Node>, tasks: map<nat, Read>)

  datatype Action =
    | Begin(read: nat, node: nat, key: ChunkKey, expected: nat, mode: Mode)
    | Look(read: nat)
    | JoinFlight(read: nat, candidates: seq<nat>)
    | FlightStep(node: nat, step: SF.Action)
    | Followed(read: nat)
    | Ask(read: nat)
    | PeerAnswers(read: nat, server: nat, keep: Option<nat>)
    | PeerFails(read: nat)
    | PullAnswers(read: nat, server: nat, notFound: bool, writer: nat)
    | PullFails(read: nat)
    | OriginAnswers(read: nat, ok: bool, writer: nat)
    | Publish(read: nat)
    | Cancel(read: nat)
    | StoreSucceeds(node: nat, writer: nat)
    | StoreFails(node: nat, writer: nat)
    | Unstage(node: nat, writer: nat)
    | EvictDisk(node: nat, key: ChunkKey)
    | EvictLru(node: nat, key: ChunkKey)
    | ClearDisk(node: nat)
    | ClearStaging(node: nat)
    | ClearLru(node: nat)

  function Init(nodes: set<nat>): State {
    State(map n | n in nodes :: Node(map[], map[], map[], SF.Init, map[]), map[])
  }

  // ---- Pieces of a step ----

  function SetStage(s: State, t: nat, stage: Stage): State
    requires t in s.tasks
  {
    s.(tasks := s.tasks[t := s.tasks[t].(stage := stage)])
  }

  function SetNode(s: State, n: nat, node: Node): State {
    s.(nodes := s.nodes[n := node])
  }

  function Slice(r: Read, b: Bytes): Result<Bytes>
    requires r.mode.Range?
  {
    if r.mode.take + r.mode.len <= |b| then Ok(b[r.mode.take..r.mode.take + r.mode.len]) else Err
  }

  // The whole chunk has been obtained (or not): what the caller gets.
  function Conclude(r: Read, res: Result<Bytes>): Result<Bytes> {
    if res.Err? || !r.mode.Range? then res else Slice(r, res.value)
  }

  function Spawn(node: Node, w: nat, k: ChunkKey, b: Bytes): Node {
    node.(staging := node.staging[k := b], writers := node.writers[w := Writing(k, b)])
  }

  // A hit in one of the stores, if it can serve the read.
  function SliceHit(r: Read, m: map<ChunkKey, Bytes>, sized: bool): Option<Bytes> {
    if r.mode.Range? && r.key in m && (sized ==> |m[r.key]| == r.expected) && Slice(r, m[r.key]).Ok?
    then Some(Slice(r, m[r.key]).value)
    else None
  }

  function WholeHit(r: Read, m: map<ChunkKey, Bytes>): Option<Bytes> {
    if r.key in m && |m[r.key]| == r.expected then Some(m[r.key]) else None
  }

  function Hit(hit: Option<Bytes>, miss: Stage): Stage {
    match hit
    case Some(b) => Ended(Ok(b))
    case None => miss
  }

  function ChunkHit(r: Read, hit: Option<Bytes>, miss: Stage): Stage {
    match hit
    case Some(b) => Ended(Conclude(r, Ok(b)))
    case None => miss
  }

  // The next lookup of a read: staging, then the LRU, then the disk.
  function NextStage(node: Node, r: Read): Stage {
    match r.stage
    case SliceStaging => Hit(SliceHit(r, node.staging, false), SliceLru)
    case SliceLru => Hit(SliceHit(r, node.lru, true), SliceDisk)
    case SliceDisk => Hit(SliceHit(r, node.disk, false), AtStaging)
    case AtStaging => ChunkHit(r, WholeHit(r, node.staging), AtLru)
    case AtLru => ChunkHit(r, WholeHit(r, node.lru), AtDisk)
    case AtDisk =>
      if !r.mode.Serve? then ChunkHit(r, WholeHit(r, node.disk), if r.key in node.disk then AtRemove else AtFlight)
      else if r.key in node.disk then Ended(Ok(node.disk[r.key]))
      else if r.mode.wait then AtDiskAgain
      else Ended(Err)
    case AtRemove => AtFlight
    case AtDiskAgain => ChunkHit(r, WholeHit(r, node.disk), AtFlight)
    case PullDisk => ChunkHit(r, WholeHit(r, node.disk), Pulling)
    case Retry => ChunkHit(r, WholeHit(r, node.disk), Ended(Err))
    case _ => r.stage
  }

  function Looked(s: State, t: nat): State
    requires t in s.tasks && s.tasks[t].node in s.nodes
  {
    var r := s.tasks[t];
    var node := s.nodes[r.node];
    // by the time it is removed, the chunk of the wrong length may have been replaced
    var node' := if r.stage.AtRemove? then node.(disk := node.disk - {r.key}) else node;
    SetStage(SetNode(s, r.node, node'), t, NextStage(node, r))
  }

  function JoinedStage(node: Node, r: Read, candidates: seq<nat>): Stage {
    if r.key in node.flight.slots then Follows
    else if r.mode.Serve? || r.mode.Pull? || (r.mode.Whole? && r.mode.bypassPeers) then AtOrigin
    else AtPeers(candidates)
  }

  // Entering the singleflight: lead or follow.
  function Joined(s: State, t: nat, candidates: seq<nat>): State
    requires t in s.tasks && s.tasks[t].node in s.nodes
  {
    var r := s.tasks[t];
    var node := s.nodes[r.node];
    if t in node.flight.tasks then s
    else SetStage(SetNode(s, r.node, node.(flight := SF.Step(node.flight, SF.Enter(t, r.key)))), t,
                  JoinedStage(node, r, candidates))
  }

  function FollowedStage(r: Read, outcome: SF.Outcome): Stage {
    match outcome
    case Got(Value(b)) => Ended(if |b| == r.expected then Conclude(r, Ok(b)) else Err)
    case Dropped => if r.mode.Serve? then Ended(Err) else Retry
    case _ => Ended(Err)
  }

  // A follower takes what its channel holds; a closed channel sends a read back to the disk once.
  function AfterFollow(s: State, t: nat): State
    requires t in s.tasks && s.tasks[t].node in s.nodes
  {
    var r := s.tasks[t];
    var node := s.nodes[r.node];
    if !SF.Enabled(node.flight, SF.Receive(t)) then s
    else
      var flight := SF.Step(node.flight, SF.Receive(t));
      SetStage(SetNode(s, r.node, node.(flight := flight)), t, FollowedStage(r, flight.tasks[t].outcome))
  }

  // Data from a peer goes to the disk, through a writer, or to the LRU.
  function Kept(node: Node, k: ChunkKey, b: Bytes, writer: Option<nat>): Node {
    match writer
    case None => node.(lru := node.lru[k := b])
    case Some(w) => if w in node.writers then node else Spawn(node, w, k, b)
  }

  // try_peer_fetch on a reply: only data of the expected length counts.
  function PeerAnswered(s: State, t: nat, u: nat, writer: Option<nat>): State
    requires t in s.tasks && s.tasks[t].node in s.nodes && u in s.tasks
  {
    var r, v := s.tasks[t], s.tasks[u];
    var node := s.nodes[r.node];
    if !(r.stage.Asking? && v.mode.Serve? && v.node == r.stage.peer && v.key == r.key && v.stage.Ended?) then s
    else if v.stage.result.Err? || |v.stage.result.value| != r.expected then SetStage(s, t, AtPeers(r.stage.todo))
    else if writer.Some? && writer.value in node.writers then s
    else
      var b := v.stage.result.value;
      SetStage(SetNode(s, r.node, Kept(node, r.key, b, writer)), t, Publishing(Ok(b)))
  }

  function OriginAnswered(c: Config, s: State, t: nat, ok: bool, w: nat): State
    requires t in s.tasks && s.tasks[t].node in s.nodes
  {
    var r := s.tasks[t];
    var node := s.nodes[r.node];
    var b := Chunk(c, r.key);
    if !ok || |b| != r.expected then SetStage(s, t, Publishing(Err))
    else if w in node.writers then s
    else SetStage(SetNode(s, r.node, Spawn(node, w, r.key, b)), t, Publishing(Ok(b)))
  }

  // The peer a pull asked has answered. If it does not have the chunk, the pull goes on as a read that
  // bypasses the peers; data of the expected length is kept on the disk.
  function PullAnswered(s: State, t: nat, u: nat, notFound: bool, w: nat): State
    requires t in s.tasks && s.tasks[t].node in s.nodes && u in s.tasks
  {
    var r, v := s.tasks[t], s.tasks[u];
    var node := s.nodes[r.node];
    if !(r.stage.Pulling? && r.mode.Pull? && v.mode.Serve? && v.node == r.mode.peer && v.key == r.key && v.stage.Ended?)
    then s
    else if v.stage.result.Err? then SetStage(s, t, if notFound then AtStaging else Ended(Err))
    else if |v.stage.result.value| != r.expected then SetStage(s, t, Ended(Err))
    else if w in node.writers then s
    else
      var b := v.stage.result.value;
      SetStage(SetNode(s, r.node, Spawn(node, w, r.key, b)), t, Ended(Ok(b)))
  }

  // The leader disarms its guard with the result.
  function Published(s: State, t: nat): State
    requires t in s.tasks && s.tasks[t].node in s.nodes && s.tasks[t].stage.Publishing?
  {
    var r := s.tasks[t];
    var node := s.nodes[r.node];
    var msg := if r.stage.result.Ok? then SF.Value(r.stage.result.value) else SF.Failure;
    if !SF.Enabled(node.flight, SF.Finish(t, msg)) then s
    else SetStage(SetNode(s, r.node, node.(flight := SF.Step(node.flight, SF.Finish(t, msg)))), t,
                  Ended(Conclude(r, r.stage.result)))
  }

  // A dropped future: a leader's guard reports failure, a follower stops waiting.
  function Cancelled(s: State, t: nat): State
    requires t in s.tasks && s.tasks[t].node in s.nodes
  {
    var r := s.tasks[t];
    var node := s.nodes[r.node];
    var a := if r.stage.Follows? then SF.GiveUp(t) else SF.Finish(t, SF.Failure);
    if r.stage.Ended? then s
    else if r.stage.Follows? || r.stage.Leads() then
      if SF.Enabled(node.flight, a)
      then SetStage(SetNode(s, r.node, node.(flight := SF.Step(node.flight, a))), t, Ended(Err))
      else s
    else SetStage(s, t, Ended(Err))
  }

  // The steps of a flight that no read takes itself.
  predicate Background(a: SF.Action) {
    a.RaiseGauge? || a.LowerGauge? || a.Send? || a.ClearSlot? || a.ClearGauge?
  }

  function NodeStep(node: Node, a: Action): Node {
    match a
    case FlightStep(_, step) => if Background(step) then node.(flight := SF.Step(node.flight, step)) else node
    case StoreSucceeds(_, w) =>
      if w in node.writers && node.writers[w].Writing?
      then node.(disk := node.disk[node.writers[w].key := node.writers[w].data],
                 writers := node.writers[w := Unstaging(node.writers[w].key)])
      else node
    case StoreFails(_, w) =>
      if w in node.writers && node.writers[w].Writing?
      then node.(writers := node.writers[w := Unstaging(node.writers[w].key)])
      else node
    case Unstage(_, w) =>
      if w in node.writers && node.writers[w].Unstaging?
      then node.(staging := node.staging - {node.writers[w].key}, writers := node.writers - {w})
      else node
    case EvictDisk(_, k) => node.(disk := node.disk - {k})
    case EvictLru(_, k) => node.(lru := node.lru - {k})
    case ClearDisk(_) => node.(disk := map[])
    case ClearStaging(_) => node.(staging := map[])
    case ClearLru(_) => node.(lru := map[])
    case _ => node
  }

  predicate OnNode(a: Action) {
    || a.FlightStep? || a.StoreSucceeds? || a.StoreFails? || a.Unstage? || a.EvictDisk? || a.EvictLru?
    || a.ClearDisk? || a.ClearStaging? || a.ClearLru?
  }

  function FirstStage(mode: Mode): Stage {
    match mode
    case Range(_, len) => if len == 0 then Ended(Ok([])) else SliceStaging
    case Whole(_) => AtStaging
    case Serve(_) => AtDisk
    case Pull(_) => PullDisk
  }

  // One atomic step; an action that does not apply changes nothing.
  function Step(c: Config, s: State, a: Action): State {
    if OnNode(a) then
      if a.node in s.nodes then SetNode(s, a.node, NodeStep(s.nodes[a.node], a)) else s
    else if a.Begin? then
      if a.read in s.tasks || a.node !in s.nodes then s
      else
        s.(tasks := s.tasks[a.read := Read(a.node, a.key, a.expected, a.mode, FirstStage(a.mode))])
    else if a.read !in s.tasks || s.tasks[a.read].node !in s.nodes then s
    else
      var t := a.read;
      var stage := s.tasks[t].stage;
      match a
      case Look(_) => Looked(s, t)
      case JoinFlight(_, candidates) => if stage.AtFlight? then Joined(s, t, candidates) else s
      case Followed(_) => if stage.Follows? then AfterFollow(s, t) else s
      case Ask(_) =>
        if !stage.AtPeers? then s
        else if stage.todo == [] then SetStage(s, t, AtOrigin)
        else SetStage(s, t, Asking(stage.todo[0], stage.todo[1..]))
      case PeerAnswers(_, u, w) => if u in s.tasks then PeerAnswered(s, t, u, w) else s
      case PeerFails(_) => if stage.Asking? then SetStage(s, t, AtPeers(stage.todo)) else s
      case PullAnswers(_, u, notFound, w) => if u in s.tasks then PullAnswered(s, t, u, notFound, w) else s
      case PullFails(_) => if stage.Pulling? then SetStage(s, t, Ended(Err)) else s
      case OriginAnswers(_, ok, w) => if stage.AtOrigin? then OriginAnswered(c, s, t, ok, w) else s
      case Publish(_) => if stage.Publishing? then Published(s, t) else s
      case Cancel(_) => Cancelled(s, t)
  }

  function Run(c: Config, s: State, acts: seq<Action>): State
    decreases |acts|
  {
    if acts == [] then s else Run(c, Step(c, s, acts[0]), acts[1..])
  }

  // ---- Transparency: every byte anywhere is the blob's ----

  ghost predicate Right(c: Config, m: map<ChunkKey, Bytes>) {
    forall k | k in m :: m[k] == Chunk(c, k)
  }

  ghost function Good(c: Config): (ChunkKey, Bytes) -> bool {
    (k, b) => b == Chunk(c, k)
  }

  ghost predicate NodeOk(c: Config, node: Node) {
    && Right(c, node.staging) && Right(c, node.lru) && Right(c, node.disk)
    && (forall w | w in node.writers && node.writers[w].Writing?
        :: node.writers[w].data == Chunk(c, node.writers[w].key))
    && SF.Inv(node.flight) && SF.ValuesGood(Good(c), node.flight)
  }

  // The result a read may end with.
  ghost predicate ResultOk(c: Config, r: Read, res: Result<Bytes>) {
    res.Ok? ==>
      match r.mode
      case Range(take, len) =>
        if len == 0 then res.value == []
        else take + len <= |Chunk(c, r.key)| && res.value == Chunk(c, r.key)[take..take + len]
      case Whole(_) => res.value == Chunk(c, r.key) && |res.value| == r.expected
      case Serve(_) => res.value == Chunk(c, r.key)
      case Pull(_) => res.value == Chunk(c, r.key) && |res.value| == r.expected
  }

  // A read is consistent with the flight of its node.
  ghost predicate ReadOk(c: Config, flight: SF.State, t: nat, r: Read) {
    && (r.stage.Ended? ==> ResultOk(c, r, r.stage.result))
    && (r.stage.Publishing? && r.stage.result.Ok? ==>
          r.stage.result.value == Chunk(c, r.key) && |r.stage.result.value| == r.expected)
    && (r.stage.Follows? || r.stage.Leads() ==> t in flight.tasks && flight.tasks[t].key == r.key)
  }

  ghost predicate Inv(c: Config, s: State) {
    && (forall n | n in s.nodes :: NodeOk(c, s.nodes[n]))
    && (forall t | t in s.tasks
        :: s.tasks[t].node in s.nodes && ReadOk(c, s.nodes[s.tasks[t].node].flight, t, s.tasks[t]))
  }

  // No step of a flight forgets a task or its key.
  ghost predicate Keeps(f: SF.State, f': SF.State) {
    forall t | t in f.tasks :: t in f'.tasks && f'.tasks[t].key == f.tasks[t].key
  }

  lemma FlightKeeps(f: SF.State, a: SF.Action)
    ensures Keeps(f, SF.Step(f, a))
  {
  }

  lemma ReadStaysOk(c: Config, f: SF.State, f': SF.State, t: nat, r: Read)
    requires Keeps(f, f') && ReadOk(c, f, t, r)
    ensures ReadOk(c, f', t, r)
  {
  }

  // A node and one of its reads may change if the node stays right and the read ends consistent.
  lemma Update(c: Config, s: State, t: nat, node': Node, stage: Stage)
    requires Inv(c, s) && t in s.tasks
    requires NodeOk(c, node') && Keeps(s.nodes[s.tasks[t].node].flight, node'.flight)
    requires ReadOk(c, node'.flight, t, s.tasks[t].(stage := stage))
    ensures Inv(c, SetStage(SetNode(s, s.tasks[t].node, node'), t, stage))
  {
    hide NodeOk, ReadOk, Keeps;
    var n := s.tasks[t].node;
    var s' := SetStage(SetNode(s, n, node'), t, stage);
    forall u | u in s'.tasks
      ensures s'.tasks[u].node in s'.nodes && ReadOk(c, s'.nodes[s'.tasks[u].node].flight, u, s'.tasks[u])
    {
      if u != t && s.tasks[u].node == n {
        ReadStaysOk(c, s.nodes[n].flight, node'.flight, u, s.tasks[u]);
      }
    }
  }

  lemma Restage(c: Config, s: State, t: nat, stage: Stage)
    requires Inv(c, s) && t in s.tasks
    requires ReadOk(c, s.nodes[s.tasks[t].node].flight, t, s.tasks[t].(stage := stage))
    ensures Inv(c, SetStage(s, t, stage))
  {
    var n := s.tasks[t].node;
    Update(c, s, t, s.nodes[n], stage);
    assert SetNode(s, n, s.nodes[n]) == s;
  }

  // Ending with what the chunk concludes to.
  lemma ConcludeOk(c: Config, r: Read, b: Bytes)
    requires b == Chunk(c, r.key) && |b| == r.expected
    ensures ResultOk(c, r, Conclude(r, Ok(b)))
  {
  }

  lemma WholeHitOk(c: Config, r: Read, m: map<ChunkKey, Bytes>)
    requires Right(c, m) && WholeHit(r, m).Some?
    ensures ResultOk(c, r, Conclude(r, Ok(WholeHit(r, m).value)))
  {
    ConcludeOk(c, r, m[r.key]);
  }

  lemma HitOk(c: Config, f: SF.State, t: nat, r: Read, hit: Option<Bytes>, miss: Stage)
    requires hit.Some? ==> ResultOk(c, r, Conclude(r, Ok(hit.value)))
    requires ReadOk(c, f, t, r.(stage := miss))
    ensures ReadOk(c, f, t, r.(stage := ChunkHit(r, hit, miss)))
  {
  }

  lemma SliceHitOk(c: Config, f: SF.State, t: nat, r: Read, m: map<ChunkKey, Bytes>, sized: bool, miss: Stage)
    requires Right(c, m) && ReadOk(c, f, t, r.(stage := miss))
    ensures ReadOk(c, f, t, r.(stage := Hit(SliceHit(r, m, sized), miss)))
  {
  }

  lemma ChunkHitOk(c: Config, f: SF.State, t: nat, r: Read, m: map<ChunkKey, Bytes>, miss: Stage)
    requires Right(c, m) && ReadOk(c, f, t, r.(stage := miss))
    ensures ReadOk(c, f, t, r.(stage := ChunkHit(r, WholeHit(r, m), miss)))
  {
    hide ReadOk, ChunkHit, ResultOk, Conclude;
    if WholeHit(r, m).Some? {
      WholeHitOk(c, r, m);
    }
    HitOk(c, f, t, r, WholeHit(r, m), miss);
  }

  lemma NextStageOk(c: Config, node: Node, t: nat, r: Read)
    requires Right(c, node.staging) && Right(c, node.lru) && Right(c, node.disk) && ReadOk(c, node.flight, t, r)
    ensures ReadOk(c, node.flight, t, r.(stage := NextStage(node, r)))
  {
    hide Hit, SliceHit, ChunkHit, WholeHit, Chunk, Conclude;
    var f := node.flight;
    match r.stage
    case SliceStaging => SliceHitOk(c, f, t, r, node.staging, false, SliceLru);
    case SliceLru => SliceHitOk(c, f, t, r, node.lru, true, SliceDisk);
    case SliceDisk => SliceHitOk(c, f, t, r, node.disk, false, AtStaging);
    case AtStaging => ChunkHitOk(c, f, t, r, node.staging, AtLru);
    case AtLru => ChunkHitOk(c, f, t, r, node.lru, AtDisk);
    case AtDisk =>
      if !r.mode.Serve? {
        ChunkHitOk(c, f, t, r, node.disk, if r.key in node.disk then AtRemove else AtFlight);
      }
    case AtDiskAgain => ChunkHitOk(c, f, t, r, node.disk, AtFlight);
    case PullDisk => ChunkHitOk(c, f, t, r, node.disk, Pulling);
    case Retry => ChunkHitOk(c, f, t, r, node.disk, Ended(Err));
    case _ =>
  }

  lemma LookStep(c: Config, s: State, t: nat)
    requires Inv(c, s) && t in s.tasks
    ensures Inv(c, Looked(s, t))
  {
    var r := s.tasks[t];
    var node := s.nodes[r.node];
    assert NodeOk(c, node);
    NextStageOk(c, node, t, r);
    hide NextStage;
    Update(c, s, t, if r.stage.AtRemove? then node.(disk := node.disk - {r.key}) else node, NextStage(node, r));
  }

  // The flight of a node takes a step that publishes only right values.
  lemma FlightMoves(c: Config, node: Node, a: SF.Action)
    requires NodeOk(c, node) && SF.Produces(Good(c), node.flight, a)
    ensures NodeOk(c, node.(flight := SF.Step(node.flight, a)))
    ensures Keeps(node.flight, SF.Step(node.flight, a))
  {
    SF.StepInv(node.flight, a);
    SF.StepKeepsValues(Good(c), node.flight, a);
    FlightKeeps(node.flight, a);
    hide SF.Step, SF.Inv, SF.ValuesGood;
  }

  lemma Entered(f: SF.State, t: nat, k: ChunkKey)
    requires t !in f.tasks
    ensures t in SF.Step(f, SF.Enter(t, k)).tasks && SF.Step(f, SF.Enter(t, k)).tasks[t].key == k
  {
  }

  lemma JoinedOk(c: Config, f: SF.State, t: nat, r: Read, node: Node, candidates: seq<nat>)
    requires t in f.tasks && f.tasks[t].key == r.key
    ensures ReadOk(c, f, t, r.(stage := JoinedStage(node, r, candidates)))
  {
  }

  lemma JoinStep(c: Config, s: State, t: nat, candidates: seq<nat>)
    requires Inv(c, s) && t in s.tasks && s.tasks[t].stage.AtFlight?
    ensures Inv(c, Joined(s, t, candidates))
  {
    var r := s.tasks[t];
    var node := s.nodes[r.node];
    if t !in node.flight.tasks {
      hide NodeOk, Keeps, SF.Step, ReadOk, JoinedStage;
      var a := SF.Enter(t, r.key);
      FlightMoves(c, node, a);
      Entered(node.flight, t, r.key);
      var node' := node.(flight := SF.Step(node.flight, a));
      var stage := JoinedStage(node, r, candidates);
      JoinedOk(c, node'.flight, t, r, node, candidates);
      Update(c, s, t, node', stage);
    }
  }

  lemma FollowedOk(c: Config, f: SF.State, t: nat, r: Read)
    requires SF.ValuesGood(Good(c), f) && t in f.tasks && f.tasks[t].Done? && f.tasks[t].key == r.key
    ensures ReadOk(c, f, t, r.(stage := FollowedStage(r, f.tasks[t].outcome)))
  {
    var o := f.tasks[t].outcome;
    if o.Got? && o.msg.Value? {
      assert SF.MsgGood(Good(c), r.key, o.msg);
      if |o.msg.data| == r.expected {
        ConcludeOk(c, r, o.msg.data);
      }
    }
  }

  lemma Received(f: SF.State, t: nat)
    requires SF.Enabled(f, SF.Receive(t))
    ensures var f' := SF.Step(f, SF.Receive(t)); t in f'.tasks && f'.tasks[t].Done?
  {
  }

  lemma FollowStep(c: Config, s: State, t: nat)
    requires Inv(c, s) && t in s.tasks && s.tasks[t].stage.Follows?
    ensures Inv(c, AfterFollow(s, t))
  {
    var r := s.tasks[t];
    var node := s.nodes[r.node];
    var a := SF.Receive(t);
    assert ReadOk(c, node.flight, t, r);
    if SF.Enabled(node.flight, a) {
      hide NodeOk, ReadOk, Keeps, SF.Step, FollowedStage;
      var f' := SF.Step(node.flight, a);
      FlightMoves(c, node, a);
      NodeValues(c, node.(flight := f'));
      KeepsKey(node.flight, f', t);
      Received(node.flight, t);
      FollowedOk(c, f', t, r);
      Update(c, s, t, node.(flight := f'), FollowedStage(r, f'.tasks[t].outcome));
    }
  }

  lemma NodeValues(c: Config, node: Node)
    requires NodeOk(c, node)
    ensures SF.ValuesGood(Good(c), node.flight)
  {
  }

  lemma KeepsKey(f: SF.State, f': SF.State, t: nat)
    requires Keeps(f, f') && t in f.tasks
    ensures t in f'.tasks && f'.tasks[t].key == f.tasks[t].key
  {
  }

  lemma SpawnOk(c: Config, node: Node, w: nat, k: ChunkKey, b: Bytes)
    requires NodeOk(c, node) && b == Chunk(c, k) && w !in node.writers
    ensures NodeOk(c, Spawn(node, w, k, b)) && Spawn(node, w, k, b).flight == node.flight
  {
    hide SF.Inv, SF.ValuesGood, Chunk;
  }

  lemma KeptOk(c: Config, node: Node, k: ChunkKey, b: Bytes, writer: Option<nat>)
    requires NodeOk(c, node) && b == Chunk(c, k)
    ensures NodeOk(c, Kept(node, k, b, writer)) && Kept(node, k, b, writer).flight == node.flight
  {
    hide SF.Inv, SF.ValuesGood, Chunk;
    if writer.Some? && writer.value !in node.writers {
      SpawnOk(c, node, writer.value, k, b);
    }
  }

  // A leader that has a result is ready to publish it.
  lemma PublishingOk(c: Config, f: SF.State, t: nat, r: Read, res: Result<Bytes>)
    requires ReadOk(c, f, t, r) && r.stage.Leads()
    requires res.Ok? ==> res.value == Chunk(c, r.key) && |res.value| == r.expected
    ensures ReadOk(c, f, t, r.(stage := Publishing(res)))
  {
  }

  lemma AnswerStep(c: Config, s: State, t: nat, u: nat, keep: Option<nat>)
    requires Inv(c, s) && t in s.tasks && u in s.tasks
    ensures Inv(c, PeerAnswered(s, t, u, keep))
  {
    var r, v := s.tasks[t], s.tasks[u];
    if r.stage.Asking? && v.mode.Serve? && v.node == r.stage.peer && v.key == r.key && v.stage.Ended? {
      assert ReadOk(c, s.nodes[v.node].flight, u, v);
      if v.stage.result.Err? || |v.stage.result.value| != r.expected {
        Restage(c, s, t, AtPeers(r.stage.todo));
      } else if keep.None? || keep.value !in s.nodes[r.node].writers {
        var b := v.stage.result.value;
        var node := s.nodes[r.node];
        KeptOk(c, node, r.key, b, keep);
        assert ReadOk(c, node.flight, t, r);
        PublishingOk(c, node.flight, t, r, Ok(b));
        hide NodeOk, ReadOk, Kept;
        Update(c, s, t, Kept(node, r.key, b, keep), Publishing(Ok(b)));
      }
    }
  }

  lemma PullStep(c: Config, s: State, t: nat, u: nat, notFound: bool, w: nat)
    requires Inv(c, s) && t in s.tasks && u in s.tasks
    ensures Inv(c, PullAnswered(s, t, u, notFound, w))
  {
    hide NodeOk, Spawn, Chunk;
    var r, v := s.tasks[t], s.tasks[u];
    var node := s.nodes[r.node];
    if r.stage.Pulling? && r.mode.Pull? && v.mode.Serve? && v.key == r.key && v.stage.Ended? {
      assert ReadOk(c, s.nodes[v.node].flight, u, v);
      if v.stage.result.Err? || |v.stage.result.value| != r.expected {
        hide ResultOk;
        Restage(c, s, t, AtStaging);
        Restage(c, s, t, Ended(Err));
      } else if w !in node.writers {
        var b := v.stage.result.value;
        SpawnOk(c, node, w, r.key, b);
        Update(c, s, t, Spawn(node, w, r.key, b), Ended(Ok(b)));
      }
    }
  }

  lemma OriginStep(c: Config, s: State, t: nat, ok: bool, w: nat)
    requires Inv(c, s) && t in s.tasks && s.tasks[t].stage.AtOrigin?
    ensures Inv(c, OriginAnswered(c, s, t, ok, w))
  {
    var r := s.tasks[t];
    var node := s.nodes[r.node];
    var b := Chunk(c, r.key);
    hide NodeOk, ReadOk, Spawn, Chunk;
    assert ReadOk(c, node.flight, t, r);
    if !ok || |b| != r.expected {
      PublishingOk(c, node.flight, t, r, Err);
      Restage(c, s, t, Publishing(Err));
    } else if w !in node.writers {
      PublishingOk(c, node.flight, t, r, Ok(b));
      SpawnOk(c, node, w, r.key, b);
      Update(c, s, t, Spawn(node, w, r.key, b), Publishing(Ok(b)));
    }
  }

  lemma PublishedOk(c: Config, f: SF.State, t: nat, r: Read, msg: SF.Msg)
    requires r.stage.Publishing? && ReadOk(c, f, t, r)
    requires msg == if r.stage.result.Ok? then SF.Value(r.stage.result.value) else SF.Failure
    ensures SF.Produces(Good(c), f, SF.Finish(t, msg))
    ensures ReadOk(c, f, t, r.(stage := Ended(Conclude(r, r.stage.result))))
  {
    if r.stage.result.Ok? {
      ConcludeOk(c, r, r.stage.result.value);
    }
  }

  lemma PublishStep(c: Config, s: State, t: nat)
    requires Inv(c, s) && t in s.tasks && s.tasks[t].stage.Publishing?
    ensures Inv(c, Published(s, t))
  {
    var r := s.tasks[t];
    var node := s.nodes[r.node];
    var msg := if r.stage.result.Ok? then SF.Value(r.stage.result.value) else SF.Failure;
    var a := SF.Finish(t, msg);
    assert ReadOk(c, node.flight, t, r);
    PublishedOk(c, node.flight, t, r, msg);
    hide NodeOk, ReadOk, Keeps, SF.Step, SF.Produces, Conclude;
    if SF.Enabled(node.flight, a) {
      FlightMoves(c, node, a);
      ReadStaysOk(c, node.flight, SF.Step(node.flight, a), t, r.(stage := Ended(Conclude(r, r.stage.result))));
      Update(c, s, t, node.(flight := SF.Step(node.flight, a)), Ended(Conclude(r, r.stage.result)));
    }
  }

  lemma CancelStep(c: Config, s: State, t: nat)
    requires Inv(c, s) && t in s.tasks
    ensures Inv(c, Cancelled(s, t))
  {
    var r := s.tasks[t];
    var node := s.nodes[r.node];
    var a := if r.stage.Follows? then SF.GiveUp(t) else SF.Finish(t, SF.Failure);
    if !r.stage.Ended? {
      if r.stage.Follows? || r.stage.Leads() {
        FlightMoves(c, node, a);
        hide NodeOk, Keeps, SF.Step;
        Update(c, s, t, node.(flight := SF.Step(node.flight, a)), Ended(Err));
      } else {
        Restage(c, s, t, Ended(Err));
      }
    }
  }

  lemma NodeStepOk(c: Config, node: Node, a: Action)
    requires NodeOk(c, node)
    ensures NodeOk(c, NodeStep(node, a)) && Keeps(node.flight, NodeStep(node, a).flight)
  {
    if a.FlightStep? && Background(a.step) {
      FlightMoves(c, node, a.step);
    }
  }

  lemma UpdateNode(c: Config, s: State, n: nat, node': Node)
    requires Inv(c, s) && n in s.nodes && NodeOk(c, node') && Keeps(s.nodes[n].flight, node'.flight)
    ensures Inv(c, SetNode(s, n, node'))
  {
    hide NodeOk, ReadOk, Keeps;
    forall u | u in s.tasks
      ensures ReadOk(c, SetNode(s, n, node').nodes[s.tasks[u].node].flight, u, s.tasks[u])
    {
      if s.tasks[u].node == n {
        ReadStaysOk(c, s.nodes[n].flight, node'.flight, u, s.tasks[u]);
      }
    }
  }

  lemma StepInv(c: Config, s: State, a: Action)
    requires Inv(c, s)
    ensures Inv(c, Step(c, s, a))
  {
    hide NodeOk, NodeStep, Keeps;
    if OnNode(a) {
      if a.node in s.nodes {
        NodeStepOk(c, s.nodes[a.node], a);
        UpdateNode(c, s, a.node, NodeStep(s.nodes[a.node], a));
      }
    } else if !a.Begin? && a.read in s.tasks && s.tasks[a.read].node in s.nodes {
      var t := a.read;
      var stage := s.tasks[t].stage;
      match a
      case Look(_) => LookStep(c, s, t);
      case JoinFlight(_, candidates) => if stage.AtFlight? { JoinStep(c, s, t, candidates); }
      case Followed(_) => if stage.Follows? { FollowStep(c, s, t); }
      case Ask(_) =>
        if stage.AtPeers? {
          Restage(c, s, t, if stage.todo == [] then AtOrigin else Asking(stage.todo[0], stage.todo[1..]));
        }
      case PeerAnswers(_, u, keep) => if u in s.tasks { AnswerStep(c, s, t, u, keep); }
      case PeerFails(_) => if stage.Asking? { Restage(c, s, t, AtPeers(stage.todo)); }
      case PullAnswers(_, u, notFound, w) => if u in s.tasks { PullStep(c, s, t, u, notFound, w); }
      case PullFails(_) => if stage.Pulling? { Restage(c, s, t, Ended(Err)); }
      case OriginAnswers(_, ok, w) => if stage.AtOrigin? { OriginStep(c, s, t, ok, w); }
      case Publish(_) => if stage.Publishing? { PublishStep(c, s, t); }
      case Cancel(_) => CancelStep(c, s, t);
    }
  }

  lemma {:induction false} RunInv(c: Config, s: State, acts: seq<Action>)
    requires Inv(c, s)
    ensures Inv(c, Run(c, s, acts))
    decreases |acts|
  {
    if acts != [] {
      StepInv(c, s, acts[0]);
      RunInv(c, Step(c, s, acts[0]), acts[1..]);
    }
  }

  lemma SliceOfSlice(b: Bytes, lo: nat, hi: nat, from: nat, to: nat)
    requires from <= to && lo + to <= hi <= |b|
    ensures b[lo..hi][from..to] == b[lo + from..lo + to]
  {
    forall i | 0 <= i < to - from
      ensures b[lo..hi][from..to][i] == b[lo + from..lo + to][i]
    {
      assert b[lo..hi][from + i] == b[lo + (from + i)];
    }
  }

  // A slice of a chunk is a slice of the blob.
  lemma SliceOfBlob(c: Config, k: ChunkKey, take: nat, len: nat)
    requires len > 0 && take + len <= |Chunk(c, k)|
    ensures
      var b := c.blob(k.mount, k.blob);
      var from := k.offset + take;
      from + len <= |b| && Chunk(c, k)[take..take + len] == b[from..from + len]
  {
    var b := c.blob(k.mount, k.blob);
    var top := Min(k.offset + c.chunkSize, |b|);
    assert k.offset < |b| && Chunk(c, k) == b[k.offset..top];
    SliceOfSlice(b, k.offset, top, take, take + len);
  }

  lemma InitInv(c: Config, nodes: set<nat>)
    ensures Inv(c, Init(nodes))
  {
  }

  // How a read of a reachable state may have ended.
  lemma EndedOk(c: Config, nodes: set<nat>, acts: seq<Action>, t: nat)
    requires
      var s := Run(c, Init(nodes), acts);
      t in s.tasks && s.tasks[t].stage.Ended?
    ensures
      var r := Run(c, Init(nodes), acts).tasks[t];
      ResultOk(c, r, r.stage.result)
  {
    hide Run, Init, NodeOk, ResultOk;
    InitInv(c, nodes);
    RunInv(c, Init(nodes), acts);
    var s := Run(c, Init(nodes), acts);
    assert ReadOk(c, s.nodes[s.tasks[t].node].flight, t, s.tasks[t]);
  }

  // Over every run of every cluster: whichever store, peer or follower served it, a slice read that
  // succeeds returns exactly those bytes of the blob.
  lemma ReadsAreTransparent(c: Config, nodes: set<nat>, acts: seq<Action>, t: nat)
    requires
      var s := Run(c, Init(nodes), acts);
      t in s.tasks && s.tasks[t].mode.Range? && s.tasks[t].stage.Ended? && s.tasks[t].stage.result.Ok?
    ensures
      var r := Run(c, Init(nodes), acts).tasks[t];
      var b := c.blob(r.key.mount, r.key.blob);
      var from := r.key.offset + r.mode.take;
      if r.mode.len == 0 then r.stage.result.value == []
      else from + r.mode.len <= |b| && r.stage.result.value == b[from..from + r.mode.len]
  {
    hide Run, Init, Chunk;
    EndedOk(c, nodes, acts, t);
    var r := Run(c, Init(nodes), acts).tasks[t];
    if r.mode.len > 0 {
      SliceOfBlob(c, r.key, r.mode.take, r.mode.len);
    }
  }

  // The same for whole chunks, for what is served to peers and for what a hydrate pulls from them.
  lemma ChunksAreTransparent(c: Config, nodes: set<nat>, acts: seq<Action>, t: nat)
    requires
      var s := Run(c, Init(nodes), acts);
      t in s.tasks && !s.tasks[t].mode.Range? && s.tasks[t].stage.Ended? && s.tasks[t].stage.result.Ok?
    ensures
      var r := Run(c, Init(nodes), acts).tasks[t];
      r.stage.result.value == Chunk(c, r.key) && (!r.mode.Serve? ==> |r.stage.result.value| == r.expected)
  {
    hide Run, Init, Chunk;
    EndedOk(c, nodes, acts, t);
  }

  // A file read, each piece of which was answered by some read of some run of the cluster.
  ghost predicate Answered(c: Config, nodes: set<nat>, mount: string, path: string, p: Piece, b: Bytes) {
    exists acts, t ::
      var s := Run(c, Init(nodes), acts);
      t in s.tasks && s.tasks[t].key == ChunkKey(mount, path, p.chunk) && s.tasks[t].mode == Range(p.take, p.len)
      && s.tasks[t].stage == Ended(Ok(b))
  }

  lemma AnsweredFaithfully(c: Config, nodes: set<nat>, mount: string, path: string, p: Piece, b: Bytes)
    requires p.len > 0 && Answered(c, nodes, mount, path, p, b)
    ensures End(p) <= |c.blob(mount, path)| && b == c.blob(mount, path)[Start(p)..End(p)]
  {
    hide Run, Init;
    var acts, t :|
      var s := Run(c, Init(nodes), acts);
      t in s.tasks && s.tasks[t].key == ChunkKey(mount, path, p.chunk) && s.tasks[t].mode == Range(p.take, p.len)
      && s.tasks[t].stage == Ended(Ok(b));
    ReadsAreTransparent(c, nodes, acts, t);
  }

  // The read of a mounted file returns exactly what the blob store holds at those offsets, whatever
  // mix of caches and peers answered its pieces and whatever size the caller believes the file has.
  method ReadFile(c: Config, ghost nodes: set<nat>, mount: string, path: string,
                  offset: u64, length: u64, fileSize: u64, answer: Piece -> Result<Bytes>) returns (r: Result<Bytes>)
    requires c.chunkSize > 0
    requires forall p ::
      InChunk(p, c.chunkSize, fileSize) && answer(p).Ok? ==> Answered(c, nodes, mount, path, p, answer(p).value)
    ensures r.Ok? && 0 < length && offset < fileSize ==>
      var blob, n := c.blob(mount, path), Min(length, fileSize - offset);
      offset + n <= |blob| && r.value == blob[offset..offset + n]
    ensures r.Ok? ==> (r.value == [] <==> length == 0 || offset >= fileSize)
  {
    hide Answered;
    forall p | InChunk(p, c.chunkSize, fileSize)
      ensures Faithful(c.blob(mount, path), answer, [p])
    {
      if answer(p).Ok? {
        AnsweredFaithfully(c, nodes, mount, path, p, answer(p).value);
      }
    }
    var asked;
    r, asked := FetchRange(c.chunkSize, offset, length, fileSize, answer, c.blob(mount, path));
  }

  // ---- The hand-off from staging to disk ----

  predicate Covered(node: Node, k: ChunkKey) {
    k in node.staging || k in node.disk
  }

  // No writer is about to unstage k without having stored it.
  ghost predicate Stored(node: Node, k: ChunkKey) {
    forall w | w in node.writers && node.writers[w] == Unstaging(k) :: k in node.disk
  }

  // The steps that may take a chunk away for good: eviction or removal from the disk, a failed
  // store, a cleared store.
  predicate Spoils(s: State, a: Action, n: nat, k: ChunkKey)
    requires n in s.nodes
  {
    match a
    case EvictDisk(m, j) => m == n && j == k
    case ClearDisk(m) => m == n
    case ClearStaging(m) => m == n
    case StoreFails(m, w) => m == n && w in s.nodes[n].writers && s.nodes[n].writers[w].key == k
    case Look(t) => t in s.tasks && s.tasks[t].node == n && s.tasks[t].key == k && s.tasks[t].stage.AtRemove?
    case _ => false
  }

  lemma NodesStay(c: Config, s: State, a: Action)
    ensures forall n | n in s.nodes :: n in Step(c, s, a).nodes
  {
  }

  predicate Unspoiled(c: Config, s: State, acts: seq<Action>, n: nat, k: ChunkKey)
    requires n in s.nodes
    decreases |acts|
  {
    acts == [] ||
    (NodesStay(c, s, acts[0]); !Spoils(s, acts[0], n, k) && Unspoiled(c, Step(c, s, acts[0]), acts[1..], n, k))
  }

  // What a step may do to the stores of a node without losing k.
  ghost predicate Safe(node: Node, node': Node, k: ChunkKey) {
    && (Stored(node, k) ==> Stored(node', k) && (Covered(node, k) ==> Covered(node', k)))
    && (k in node.disk ==> k in node'.disk)
  }

  lemma SafeSame(node: Node, node': Node, k: ChunkKey)
    requires node'.staging == node.staging && node'.disk == node.disk && node'.writers == node.writers
    ensures Safe(node, node', k)
  {
  }

  lemma SafeSpawn(node: Node, w: nat, j: ChunkKey, b: Bytes, k: ChunkKey)
    requires w !in node.writers
    ensures Safe(node, Spawn(node, w, j, b), k)
  {
  }

  lemma SafeKept(node: Node, j: ChunkKey, b: Bytes, writer: Option<nat>, k: ChunkKey)
    ensures Safe(node, Kept(node, j, b, writer), k)
  {
    hide Spawn;
    if writer.Some? && writer.value !in node.writers {
      SafeSpawn(node, writer.value, j, b, k);
    }
  }

  lemma SafeNodeStep(node: Node, a: Action, k: ChunkKey)
    requires !(a.EvictDisk? && a.key == k) && !a.ClearDisk? && !a.ClearStaging?
    requires !(a.StoreFails? && a.writer in node.writers && node.writers[a.writer].key == k)
    ensures Safe(node, NodeStep(node, a), k)
  {
  }

  // The step of a read leaves the stores of all nodes alone, spawns a writer, keeps data from a peer
  // or removes its own key.
  lemma ReadStepStores(c: Config, s: State, a: Action, n: nat)
    requires n in s.nodes && !OnNode(a)
    ensures
      var node, node' := s.nodes[n], Step(c, s, a).nodes[n];
      || (node'.staging == node.staging && node'.disk == node.disk && node'.writers == node.writers)
      || (exists j, b, w :: node' == Kept(node, j, b, w))
      || (a.Look? && a.read in s.tasks && s.tasks[a.read].node == n && s.tasks[a.read].stage.AtRemove?
          && node' == node.(disk := node.disk - {s.tasks[a.read].key}))
  {
    hide NextStage, JoinedStage, FollowedStage, Kept, Chunk, SF.Step, SF.Enabled, Conclude;
    if !a.Begin? && a.read in s.tasks && s.tasks[a.read].node in s.nodes {
      var r := s.tasks[a.read];
      match a
      case PeerAnswers(t, u, w) =>
        if u in s.tasks && Step(c, s, a) != s && s.tasks[u].stage.Ended? && s.tasks[u].stage.result.Ok? {
          assert Step(c, s, a).nodes[n] == s.nodes[n]
            || Step(c, s, a).nodes[n] == Kept(s.nodes[n], r.key, s.tasks[u].stage.result.value, w);
        }
      case PullAnswers(t, u, _, w) =>
        if u in s.tasks && Step(c, s, a) != s && s.tasks[u].stage.Ended? && s.tasks[u].stage.result.Ok? {
          KeptIsSpawn(s.nodes[r.node], r.key, s.tasks[u].stage.result.value, w);
          assert Step(c, s, a).nodes[n] == s.nodes[n]
            || Step(c, s, a).nodes[n] == Kept(s.nodes[n], r.key, s.tasks[u].stage.result.value, Some(w));
        }
      case OriginAnswers(t, ok, w) =>
        KeptIsSpawn(s.nodes[r.node], r.key, Chunk(c, r.key), w);
        assert Step(c, s, a).nodes[n] == s.nodes[n]
          || Step(c, s, a).nodes[n] == Kept(s.nodes[n], r.key, Chunk(c, r.key), Some(w));
      case _ =>
    }
  }

  lemma KeptIsSpawn(node: Node, k: ChunkKey, b: Bytes, w: nat)
    ensures w !in node.writers ==> Kept(node, k, b, Some(w)) == Spawn(node, w, k, b)
  {
  }

  lemma StepHandsOff(c: Config, s: State, a: Action, n: nat, k: ChunkKey)
    requires n in s.nodes && !Spoils(s, a, n, k) && Stored(s.nodes[n], k)
    ensures n in Step(c, s, a).nodes && Stored(Step(c, s, a).nodes[n], k)
    ensures Covered(s.nodes[n], k) ==> Covered(Step(c, s, a).nodes[n], k)
    ensures k in s.nodes[n].disk ==> k in Step(c, s, a).nodes[n].disk
  {
    NodesStay(c, s, a);
    var node, node' := s.nodes[n], Step(c, s, a).nodes[n];
    if OnNode(a) {
      if a.node == n {
        SafeNodeStep(node, a, k);
      }
    } else {
      ReadStepStores(c, s, a, n);
      hide Step, Kept, Stored, Covered;
      if node'.staging == node.staging && node'.disk == node.disk && node'.writers == node.writers {
        SafeSame(node, node', k);
      } else if j, b, w :| node' == Kept(node, j, b, w) {
        SafeKept(node, j, b, w, k);
      } else {
        SafeRemove(node, s.tasks[a.read].key, k);
      }
    }
  }

  lemma SafeRemove(node: Node, j: ChunkKey, k: ChunkKey)
    requires j != k
    ensures Safe(node, node.(disk := node.disk - {j}), k)
  {
  }

  lemma {:induction false} RunHandsOff(c: Config, s: State, acts: seq<Action>, n: nat, k: ChunkKey)
    requires n in s.nodes && Stored(s.nodes[n], k) && Unspoiled(c, s, acts, n, k)
    ensures n in Run(c, s, acts).nodes && Stored(Run(c, s, acts).nodes[n], k)
    ensures Covered(s.nodes[n], k) ==> Covered(Run(c, s, acts).nodes[n], k)
    decreases |acts|
  {
    hide Stored, Covered, Step;
    if acts != [] {
      StepHandsOff(c, s, acts[0], n, k);
      RunHandsOff(c, Step(c, s, acts[0]), acts[1..], n, k);
    }
  }

  ghost predicate StaysCovered(c: Config, s: State, acts: seq<Action>, n: nat, k: ChunkKey)
    requires n in s.nodes
  {
    Unspoiled(c, s, acts, n, k) ==> n in Run(c, s, acts).nodes && Covered(Run(c, s, acts).nodes[n], k)
  }

  lemma RunOne(c: Config, s: State, a: Action)
    ensures Run(c, s, [a]) == Step(c, s, a)
  {
    hide Step;
    assert [a][1..] == [];
    assert Run(c, Step(c, s, a), []) == Step(c, s, a);
  }

  // The write-back guarantee and its exact condition: a chunk stays readable through staging and disk
  // in every run that does not take it away, if and only if it is readable now and no writer is about
  // to unstage it without having stored it.
  lemma CoveredIffHandedOff(c: Config, s: State, n: nat, k: ChunkKey)
    requires n in s.nodes
    ensures (forall acts :: StaysCovered(c, s, acts, n, k)) <==> Covered(s.nodes[n], k) && Stored(s.nodes[n], k)
  {
    var node := s.nodes[n];
    if Covered(node, k) && Stored(node, k) {
      forall acts
        ensures StaysCovered(c, s, acts, n, k)
      {
        if Unspoiled(c, s, acts, n, k) {
          RunHandsOff(c, s, acts, n, k);
        }
      }
    } else if !Covered(node, k) {
      assert Run(c, s, []) == s;
      assert !StaysCovered(c, s, [], n, k);
    } else {
      var w :| w in node.writers && node.writers[w] == Unstaging(k) && k !in node.disk;
      RunOne(c, s, Unstage(n, w));
      Unstaged(c, s, n, w, k);
      assert !StaysCovered(c, s, [Unstage(n, w)], n, k);
    }
  }

  lemma Unstaged(c: Config, s: State, n: nat, w: nat, k: ChunkKey)
    requires n in s.nodes && w in s.nodes[n].writers && s.nodes[n].writers[w] == Unstaging(k) && k !in s.nodes[n].disk
    ensures n in Step(c, s, Unstage(n, w)).nodes && !Covered(Step(c, s, Unstage(n, w)).nodes[n], k)
    ensures Unspoiled(c, s, [Unstage(n, w)], n, k)
  {
    assert [Unstage(n, w)][1..] == [];
    NodesStay(c, s, Unstage(n, w));
  }

  // A read that is past the staging lookup only because the chunk is on disk.
  ghost predicate WillHit(c: Config, node: Node, r: Read) {
    && r.expected == |Chunk(c, r.key)| && !r.mode.Serve?
    && (r.mode.Range? ==> r.mode.take + r.mode.len <= r.expected)
    && (r.stage.SliceStaging? || r.stage.SliceLru? || r.stage.SliceDisk? ==> r.mode.Range?)
    && (r.stage.SliceStaging? || r.stage.AtStaging? || r.stage.Ended?
        || ((r.stage.SliceLru? || r.stage.SliceDisk? || r.stage.AtLru? || r.stage.AtDisk? || r.stage.PullDisk?)
            && r.key in node.disk))
  }

  predicate Looking(stage: Stage) {
    stage.SliceStaging? || stage.SliceLru? || stage.SliceDisk? || stage.AtStaging? || stage.AtLru? || stage.AtDisk?
    || stage.PullDisk? || stage.Ended?
  }

  lemma LookWillHit(c: Config, node: Node, r: Read)
    requires Right(c, node.staging) && Right(c, node.lru) && Right(c, node.disk)
    requires WillHit(c, node, r) && Covered(node, r.key)
    ensures WillHit(c, node, r.(stage := NextStage(node, r)))
  {
    hide Chunk;
    match r.stage
    case SliceStaging =>
    case SliceLru =>
    case SliceDisk =>
    case AtStaging =>
    case AtLru =>
    case AtDisk =>
    case PullDisk =>
    case Ended(_) =>
  }

  // Only its own lookups and its cancellation move a read that is looking.
  lemma OnlyLookMoves(c: Config, s: State, a: Action, t: nat)
    requires t in s.tasks && s.tasks[t].node in s.nodes && Looking(s.tasks[t].stage)
    requires a != Look(t) && a != Cancel(t)
    ensures t in Step(c, s, a).tasks && Step(c, s, a).tasks[t] == s.tasks[t]
  {
  }

  lemma LookOrCancelMoves(c: Config, s: State, a: Action, t: nat)
    requires t in s.tasks && s.tasks[t].node in s.nodes && Looking(s.tasks[t].stage)
    requires a == Look(t) || a == Cancel(t)
    ensures
      var r := s.tasks[t];
      var s' := Step(c, s, a);
      && t in s'.tasks
      && (exists stage :: s'.tasks[t] == r.(stage := stage) && (stage == NextStage(s.nodes[r.node], r) || stage.Ended?))
  {
    hide NextStage;
    var r := s.tasks[t];
    if a == Look(t) {
      assert Step(c, s, a).tasks[t] == r.(stage := NextStage(s.nodes[r.node], r));
    } else if r.stage.Ended? {
      assert Step(c, s, a).tasks[t] == r.(stage := r.stage);
    } else {
      assert Step(c, s, a).tasks[t] == r.(stage := Ended(Err));
    }
  }

  lemma WillHitGrows(c: Config, node: Node, node': Node, r: Read)
    requires WillHit(c, node, r) && (r.key in node.disk ==> r.key in node'.disk)
    ensures WillHit(c, node', r)
  {
  }

  lemma StepWillHit(c: Config, s: State, a: Action, t: nat)
    requires Inv(c, s) && t in s.tasks
    requires
      var r := s.tasks[t];
      var node := s.nodes[r.node];
      WillHit(c, node, r) && Covered(node, r.key) && Stored(node, r.key) && !Spoils(s, a, r.node, r.key)
    ensures
      var s' := Step(c, s, a);
      var r := s.tasks[t];
      t in s'.tasks && r.node in s'.nodes && s'.tasks[t].node == r.node && s'.tasks[t].key == r.key
      && WillHit(c, s'.nodes[r.node], s'.tasks[t])
  {
    hide Step, NextStage, Covered, Stored, Chunk, Spoils;
    var r := s.tasks[t];
    var node := s.nodes[r.node];
    StepHandsOff(c, s, a, r.node, r.key);
    assert NodeOk(c, node) && Looking(r.stage);
    LookWillHit(c, node, r);
    if a == Look(t) || a == Cancel(t) {
      LookOrCancelMoves(c, s, a, t);
    } else {
      OnlyLookMoves(c, s, a, t);
    }
    var r' := Step(c, s, a).tasks[t];
    assert WillHit(c, node, r');
    hide WillHit;
    WillHitGrows(c, node, Step(c, s, a).nodes[r.node], r');
  }

  function LooksLeft(stage: Stage): (n: nat)
    ensures n <= 3
  {
    match stage
    case SliceStaging => 3
    case AtStaging => 3
    case SliceLru => 2
    case AtLru => 2
    case SliceDisk => 1
    case AtDisk => 1
    case PullDisk => 1
    case _ => 0
  }

  lemma LookHits(c: Config, node: Node, r: Read)
    requires Right(c, node.staging) && Right(c, node.lru) && Right(c, node.disk)
    requires WillHit(c, node, r) && Covered(node, r.key) && !r.stage.Ended?
    ensures !r.stage.AtRemove?
    ensures
      var stage := NextStage(node, r);
      LooksLeft(r.stage) > 0 && if stage.Ended? then stage.result.Ok? else LooksLeft(stage) < LooksLeft(r.stage)
  {
    hide Chunk;
    match r.stage
    case SliceStaging =>
    case SliceLru =>
    case SliceDisk =>
    case AtStaging =>
    case AtLru =>
    case AtDisk =>
    case PullDisk =>
  }

  lemma OneLook(c: Config, s: State, t: nat)
    requires Inv(c, s) && t in s.tasks
    requires
      var r := s.tasks[t];
      WillHit(c, s.nodes[r.node], r) && Covered(s.nodes[r.node], r.key) && !r.stage.Ended?
    ensures
      var r := s.tasks[t];
      var s' := Step(c, s, Look(t));
      && Inv(c, s') && s'.nodes == s.nodes && t in s'.tasks
      && s'.tasks[t] == r.(stage := s'.tasks[t].stage) && WillHit(c, s.nodes[r.node], s'.tasks[t])
      && (var stage := s'.tasks[t].stage;
          if stage.Ended? then stage.result.Ok? && ResultOk(c, r, stage.result) && LooksLeft(r.stage) > 0
          else LooksLeft(stage) < LooksLeft(r.stage))
  {
    hide NextStage, WillHit, Covered, SF.Inv, SF.ValuesGood, LooksLeft;
    var r := s.tasks[t];
    var node := s.nodes[r.node];
    assert NodeOk(c, node);
    LookHits(c, node, r);
    LookWillHit(c, node, r);
    LookStep(c, s, t);
    hide NodeOk;
    var s' := Looked(s, t);
    assert s'.nodes == s.nodes && s'.tasks[t] == r.(stage := NextStage(node, r));
    assert ReadOk(c, s'.nodes[r.node].flight, t, s'.tasks[t]);
  }

  // Left to itself, such a read ends in at most three lookups, successfully and with the right bytes.
  lemma {:induction false} LooksEnd(c: Config, s: State, t: nat) returns (looks: seq<Action>)
    requires Inv(c, s) && t in s.tasks
    requires
      var r := s.tasks[t];
      WillHit(c, s.nodes[r.node], r) && Covered(s.nodes[r.node], r.key) && !r.stage.Ended?
    ensures forall i | 0 <= i < |looks| :: looks[i] == Look(t)
    ensures
      var s' := Run(c, s, looks);
      t in s'.tasks && s'.tasks[t].stage.Ended? && s'.tasks[t].stage.result.Ok?
    decreases LooksLeft(s.tasks[t].stage)
  {
    hide Inv, Step, WillHit, Covered, LooksLeft, ResultOk;
    OneLook(c, s, t);
    var s1 := Step(c, s, Look(t));
    if s1.tasks[t].stage.Ended? {
      looks := [Look(t)];
      RunOne(c, s, Look(t));
    } else {
      var rest := LooksEnd(c, s1, t);
      looks := [Look(t)] + rest;
      assert looks[1..] == rest;
    }
  }

  function Looks(acts: seq<Action>, t: nat): nat {
    if acts == [] then 0 else (if acts[0] == Look(t) then 1 else 0) + Looks(acts[1..], t)
  }

  // What is left of the lookups of a read after some of them.
  ghost predicate Closer(stage: Stage, stage': Stage, looks: nat) {
    if stage'.Ended? then stage'.result.Ok? else !stage.Ended? && LooksLeft(stage') + looks <= LooksLeft(stage)
  }

  lemma CloserTrans(a: Stage, b: Stage, e: Stage, m: nat, n: nat)
    requires Closer(a, b, m) && Closer(b, e, n)
    ensures Closer(a, e, m + n)
  {
  }

  lemma StepCloser(c: Config, s: State, a: Action, t: nat)
    requires Inv(c, s) && t in s.tasks && a != Cancel(t)
    requires
      var r := s.tasks[t];
      WillHit(c, s.nodes[r.node], r) && Covered(s.nodes[r.node], r.key) && (r.stage.Ended? ==> r.stage.result.Ok?)
    ensures t in Step(c, s, a).tasks
    ensures
      var stage, stage' := s.tasks[t].stage, Step(c, s, a).tasks[t].stage;
      Closer(stage, stage', if a == Look(t) then 1 else 0)
  {
    hide Covered;
    var r := s.tasks[t];
    if a != Look(t) {
      assert Looking(r.stage);
      hide WillHit, Step;
      OnlyLookMoves(c, s, a, t);
    } else if !r.stage.Ended? {
      hide WillHit, Step;
      OneLook(c, s, t);
    }
  }

  // While a chunk is handed off, no read of it at its node ever reaches the singleflight, the peers or
  // the blob store, whatever else happens. A read that nobody cancels ends only successfully, and each
  // of its lookups brings it closer.
  lemma {:induction false} NoRefetch(c: Config, s: State, acts: seq<Action>, t: nat)
    requires Inv(c, s) && t in s.tasks
    requires
      var r := s.tasks[t];
      var node := s.nodes[r.node];
      WillHit(c, node, r) && Covered(node, r.key) && Stored(node, r.key) && Unspoiled(c, s, acts, r.node, r.key)
    ensures
      var s' := Run(c, s, acts);
      t in s'.tasks && s'.tasks[t].node in s'.nodes && WillHit(c, s'.nodes[s'.tasks[t].node], s'.tasks[t])
    ensures
      var stage := s.tasks[t].stage;
      (stage.Ended? ==> stage.result.Ok?) && Cancel(t) !in acts ==>
        Closer(stage, Run(c, s, acts).tasks[t].stage, Looks(acts, t))
    decreases |acts|
  {
    hide Stored, Covered, Step, WillHit, NodeOk, ReadOk, LooksLeft;
    if acts != [] {
      var r := s.tasks[t];
      StepInv(c, s, acts[0]);
      StepWillHit(c, s, acts[0], t);
      StepHandsOff(c, s, acts[0], r.node, r.key);
      if (r.stage.Ended? ==> r.stage.result.Ok?) && Cancel(t) !in acts {
        StepCloser(c, s, acts[0], t);
        assert Cancel(t) !in acts[1..];
      }
      NoRefetch(c, Step(c, s, acts[0]), acts[1..], t);
      if (r.stage.Ended? ==> r.stage.result.Ok?) && Cancel(t) !in acts {
        CloserTrans(r.stage, Step(c, s, acts[0]).tasks[t].stage, Run(c, s, acts).tasks[t].stage,
                    if acts[0] == Look(t) then 1 else 0, Looks(acts[1..], t));
      }
    }
  }

  // So after three lookups, however the rest of the cluster runs in between, it has the right bytes.
  lemma LocalHit(c: Config, s: State, acts: seq<Action>, t: nat)
    requires Inv(c, s) && t in s.tasks && !s.tasks[t].stage.Ended?
    requires
      var r := s.tasks[t];
      var node := s.nodes[r.node];
      WillHit(c, node, r) && Covered(node, r.key) && Stored(node, r.key) && Unspoiled(c, s, acts, r.node, r.key)
    requires Cancel(t) !in acts && Looks(acts, t) >= 3
    ensures
      var s' := Run(c, s, acts);
      && t in s'.tasks && s'.tasks[t].stage.Ended? && s'.tasks[t].stage.result.Ok?
      && ResultOk(c, s'.tasks[t], s'.tasks[t].stage.result)
  {
    NoRefetch(c, s, acts, t);
    RunInv(c, s, acts);
    var s' := Run(c, s, acts);
    hide Run, Unspoiled, NodeOk, Covered, Stored;
    var r := s'.tasks[t];
    StillLooks(c, s'.nodes[r.node], r);
    hide WillHit;
    assert ReadOk(c, s'.nodes[r.node].flight, t, r);
  }

  lemma StillLooks(c: Config, node: Node, r: Read)
    requires WillHit(c, node, r)
    ensures r.stage.Ended? || LooksLeft(r.stage) > 0
  {
  }

  // ---- Staging drains ----

  ghost predicate HasWriter(node: Node, k: ChunkKey) {
    exists w :: w in node.writers && node.writers[w].key == k
  }

  // Whatever is staged has a writer that will take it out again.
  ghost predicate Drains(node: Node) {
    forall k | k in node.staging :: HasWriter(node, k)
  }

  lemma DrainsKept(node: Node, j: ChunkKey, b: Bytes, writer: Option<nat>)
    requires Drains(node)
    ensures Drains(Kept(node, j, b, writer))
  {
    var node' := Kept(node, j, b, writer);
    if writer.Some? && writer.value !in node.writers {
      assert node'.writers[writer.value].key == j;
      forall k | k in node'.staging && k != j
        ensures HasWriter(node', k)
      {
        var w :| w in node.writers && node.writers[w].key == k;
        assert node'.writers[w].key == k;
      }
    }
  }

  lemma DrainsStep(node: Node, a: Action)
    requires Drains(node)
    ensures Drains(NodeStep(node, a))
  {
    var node' := NodeStep(node, a);
    forall k | k in node'.staging
      ensures HasWriter(node', k)
    {
      assert k in node.staging && HasWriter(node, k);
      var w :| w in node.writers && node.writers[w].key == k;
      assert w in node'.writers && node'.writers[w].key == k;
    }
  }

  lemma StepDrains(c: Config, s: State, a: Action)
    requires forall n | n in s.nodes :: Drains(s.nodes[n])
    ensures forall n | n in Step(c, s, a).nodes :: Drains(Step(c, s, a).nodes[n])
  {
    hide Drains, NodeStep;
    forall n | n in Step(c, s, a).nodes
      ensures Drains(Step(c, s, a).nodes[n])
    {
      NoNewNodes(c, s, a, n);
      var node, node' := s.nodes[n], Step(c, s, a).nodes[n];
      if OnNode(a) {
        if a.node == n {
          DrainsStep(node, a);
        }
      } else {
        ReadStepStores(c, s, a, n);
        hide Step, Kept;
        if node'.staging == node.staging && node'.disk == node.disk && node'.writers == node.writers {
          DrainsSame(node, node');
        } else if j, b, w :| node' == Kept(node, j, b, w) {
          DrainsKept(node, j, b, w);
        } else {
          DrainsSame(node, node');
        }
      }
    }
  }

  lemma DrainsSame(node: Node, node': Node)
    requires Drains(node) && node'.staging == node.staging && node'.writers == node.writers
    ensures Drains(node')
  {
    forall k | k in node'.staging
      ensures HasWriter(node', k)
    {
      assert HasWriter(node, k);
    }
  }

  lemma NoNewNodes(c: Config, s: State, a: Action, n: nat)
    requires n in Step(c, s, a).nodes
    ensures n in s.nodes
  {
    hide NextStage, NodeStep, Kept, Spawn, SF.Step, SF.Enabled, FollowedStage, JoinedStage, Conclude, Chunk;
  }

  lemma {:induction false} RunDrains(c: Config, s: State, acts: seq<Action>)
    requires forall n | n in s.nodes :: Drains(s.nodes[n])
    ensures forall n | n in Run(c, s, acts).nodes :: Drains(Run(c, s, acts).nodes[n])
    decreases |acts|
  {
    hide Drains, Step;
    if acts != [] {
      StepDrains(c, s, acts[0]);
      RunDrains(c, Step(c, s, acts[0]), acts[1..]);
    }
  }

  // In every reachable state every staged chunk has a background writer; so a node on which no writer is
  // left has nothing staged, and a wait for that ends.
  lemma StagingDrains(c: Config, nodes: set<nat>, acts: seq<Action>, n: nat)
    requires n in Run(c, Init(nodes), acts).nodes
    ensures
      var node := Run(c, Init(nodes), acts).nodes[n];
      && (forall k | k in node.staging :: exists w :: w in node.writers && node.writers[w].key == k)
      && (node.writers == map[] ==> node.staging == map[])
  {
    RunDrains(c, Init(nodes), acts);
    var node := Run(c, Init(nodes), acts).nodes[n];
    hide Run, Init;
    forall k | k in node.staging
      ensures exists w :: w in node.writers && node.writers[w].key == k
    {
      assert HasWriter(node, k);
    }
  }

  // ---- What the lookups find, and what a fetch leaves behind ----

  function AfterLooks(node: Node, r: Read, n: nat): Stage {
    if n == 0 then r.stage else NextStage(node, r.(stage := AfterLooks(node, r, n - 1)))
  }

  function LookTimes(t: nat, n: nat): seq<Action> {
    if n == 0 then [] else LookTimes(t, n - 1) + [Look(t)]
  }

  lemma {:induction false} RunSnoc(c: Config, s: State, acts: seq<Action>, a: Action)
    ensures Run(c, s, acts + [a]) == Step(c, Run(c, s, acts), a)
    decreases |acts|
  {
    hide Step;
    if acts == [] {
      assert [] + [a] == [a];
      RunOne(c, s, a);
    } else {
      assert (acts + [a])[1..] == acts[1..] + [a];
      RunSnoc(c, Step(c, s, acts[0]), acts[1..], a);
    }
  }

  // Lookups that never find a chunk of the wrong length change nothing but the stage of their read.
  lemma {:induction false} RunLooks(c: Config, s: State, t: nat, n: nat)
    requires t in s.tasks && s.tasks[t].node in s.nodes
    requires forall i: nat | i < n :: !AfterLooks(s.nodes[s.tasks[t].node], s.tasks[t], i).AtRemove?
    ensures Run(c, s, LookTimes(t, n)) == SetStage(s, t, AfterLooks(s.nodes[s.tasks[t].node], s.tasks[t], n))
  {
    hide NextStage;
    var r := s.tasks[t];
    var node := s.nodes[r.node];
    if n == 0 {
      assert s.tasks[t := r] == s.tasks;
    } else {
      RunLooks(c, s, t, n - 1);
      RunSnoc(c, s, LookTimes(t, n - 1), Look(t));
      var s1 := SetStage(s, t, AfterLooks(node, r, n - 1));
      assert SetNode(s1, r.node, node) == s1;
      assert Step(c, s1, Look(t)) == SetStage(s1, t, NextStage(node, s1.tasks[t]));
      assert s1.tasks[t := r.(stage := AfterLooks(node, r, n))] == s.tasks[t := r.(stage := AfterLooks(node, r, n))];
    }
  }

  // The stores that can serve a read.
  predicate HeldFor(node: Node, r: Read) {
    if r.mode.Serve? || r.mode.Pull? then r.key in node.disk
    else r.key in node.staging || r.key in node.lru || r.key in node.disk
  }

  // Where a read goes that the node's own stores cannot serve.
  function Missed(r: Read): Stage {
    match r.mode
    case Serve(wait) => if wait then AtFlight else Ended(Err)
    case Pull(_) => Pulling
    case _ => AtFlight
  }

  ghost predicate Settled(c: Config, node: Node, r: Read, stage: Stage) {
    if HeldFor(node, r) then stage.Ended? && stage.result.Ok? else stage == Missed(r)
  }

  lemma SixLooks(c: Config, node: Node, r: Read)
    requires Right(c, node.staging) && Right(c, node.lru) && Right(c, node.disk)
    requires r.expected == |Chunk(c, r.key)| && r.stage == FirstStage(r.mode)
    requires r.mode.Range? ==> 0 < r.mode.len && r.mode.take + r.mode.len <= r.expected
    ensures Settled(c, node, r, AfterLooks(node, r, 6))
    ensures forall i: nat | i < 6 :: !AfterLooks(node, r, i).AtRemove?
  {
    hide Chunk, AfterLooks, NextStage;
    Unfold(node, r, 0);
    Unfold(node, r, 1);
    Unfold(node, r, 2);
    var mid := AfterLooks(node, r, 3);
    ThreeLooks(c, node, r, AfterLooks(node, r, 0), AfterLooks(node, r, 1), AfterLooks(node, r, 2), mid);
    Unfold(node, r, 3);
    Unfold(node, r, 4);
    Unfold(node, r, 5);
    ThreeLooks(c, node, r, mid, AfterLooks(node, r, 4), AfterLooks(node, r, 5), AfterLooks(node, r, 6));
  }

  // Three lookups in a row: over all stores, or nothing where there is nothing left to look up.
  lemma ThreeLooks(c: Config, node: Node, r: Read, a: Stage, b: Stage, d: Stage, e: Stage)
    requires Right(c, node.staging) && Right(c, node.lru) && Right(c, node.disk)
    requires r.expected == |Chunk(c, r.key)| && (r.mode.Range? ==> r.mode.take + r.mode.len <= r.expected)
    requires b == NextStage(node, r.(stage := a)) && d == NextStage(node, r.(stage := b))
    requires e == NextStage(node, r.(stage := d))
    ensures a.SliceStaging? && r.mode.Range? ==> if HeldFor(node, r) then e.Ended? && e.result.Ok? else e == AtStaging
    ensures a.AtStaging? && (r.mode.Range? || r.mode.Whole?) ==>
      if HeldFor(node, r) then e.Ended? && e.result.Ok? else e == AtFlight
    ensures (a.AtDisk? && r.mode.Serve?) || (a.PullDisk? && r.mode.Pull?) ==> Settled(c, node, r, e)
    ensures a.Ended? || a.AtFlight? || a.Pulling? ==> e == d == b == a
    ensures a.SliceStaging? || a.AtStaging? || a.PullDisk? || (a.AtDisk? && r.mode.Serve?) ==>
      !b.AtRemove? && !d.AtRemove?
  {
    hide Chunk;
  }

  lemma Unfold(node: Node, r: Read, n: nat)
    ensures AfterLooks(node, r, 0) == r.stage
    ensures AfterLooks(node, r, n + 1) == NextStage(node, r.(stage := AfterLooks(node, r, n)))
  {
    hide NextStage;
  }

  // In every right state: the lookups of a new read of something that exists end it, successfully and with
  // the right bytes, if and only if one of the stores it may use has the chunk; otherwise they send it on.
  lemma LookupsHitIff(c: Config, s: State, t: nat)
    requires Inv(c, s) && t in s.tasks
    requires
      var r := s.tasks[t];
      && r.expected == |Chunk(c, r.key)| && r.stage == FirstStage(r.mode)
      && (r.mode.Range? ==> 0 < r.mode.len && r.mode.take + r.mode.len <= r.expected)
    ensures
      var r := s.tasks[t];
      var s' := Run(c, s, LookTimes(t, 6));
      && s'.nodes == s.nodes && t in s'.tasks && Settled(c, s.nodes[r.node], r, s'.tasks[t].stage)
      && (s'.tasks[t].stage.Ended? ==> ResultOk(c, r, s'.tasks[t].stage.result))
  {
    hide Chunk, Run, AfterLooks, LookTimes, Settled;
    var r := s.tasks[t];
    assert NodeOk(c, s.nodes[r.node]);
    SixLooks(c, s.nodes[r.node], r);
    RunLooks(c, s, t, 6);
    RunInv(c, s, LookTimes(t, 6));
    var s' := Run(c, s, LookTimes(t, 6));
    assert ReadOk(c, s'.nodes[r.node].flight, t, s'.tasks[t]);
  }

  // Once the stores of a node are cleared, or the chunk is evicted from disk and LRU and not staged, a new
  // read of it finds nothing on the node.
  lemma ClearedIsCold(c: Config, s: State, t: nat, clear: bool)
    requires Inv(c, s) && t in s.tasks && (clear || s.tasks[t].key !in s.nodes[s.tasks[t].node].staging)
    requires
      var r := s.tasks[t];
      && r.expected == |Chunk(c, r.key)| && r.stage == FirstStage(r.mode)
      && (r.mode.Range? ==> 0 < r.mode.len && r.mode.take + r.mode.len <= r.expected)
    ensures
      var r := s.tasks[t];
      var n, k := r.node, r.key;
      var forget := if clear then [ClearDisk(n), ClearStaging(n), ClearLru(n)] else [EvictDisk(n, k), EvictLru(n, k)];
      var s' := Run(c, Run(c, s, forget), LookTimes(t, 6));
      t in s'.tasks && s'.tasks[t].stage == Missed(r)
  {
    hide Chunk, NodeOk, ReadOk, LookTimes;
    var r := s.tasks[t];
    var n, k := r.node, r.key;
    var forget := if clear then [ClearDisk(n), ClearStaging(n), ClearLru(n)] else [EvictDisk(n, k), EvictLru(n, k)];
    RunInv(c, s, forget);
    Forgotten(c, s, n, k, clear);
    hide Run;
    LookupsHitIff(c, Run(c, s, forget), t);
  }

  lemma Forgotten(c: Config, s: State, n: nat, k: ChunkKey, clear: bool)
    requires n in s.nodes && (clear || k !in s.nodes[n].staging)
    ensures
      var forget := if clear then [ClearDisk(n), ClearStaging(n), ClearLru(n)] else [EvictDisk(n, k), EvictLru(n, k)];
      var s' := Run(c, s, forget);
      && s'.tasks == s.tasks && n in s'.nodes
      && k !in s'.nodes[n].staging && k !in s'.nodes[n].lru && k !in s'.nodes[n].disk
  {
    hide Step, Run;
    if clear {
      RunThree(c, s, ClearDisk(n), ClearStaging(n), ClearLru(n));
      StoresForget(c, s, n, k, ClearDisk(n));
      StoresForget(c, Step(c, s, ClearDisk(n)), n, k, ClearStaging(n));
      StoresForget(c, Step(c, Step(c, s, ClearDisk(n)), ClearStaging(n)), n, k, ClearLru(n));
    } else {
      RunTwo(c, s, EvictDisk(n, k), EvictLru(n, k));
      StoresForget(c, s, n, k, EvictDisk(n, k));
      StoresForget(c, Step(c, s, EvictDisk(n, k)), n, k, EvictLru(n, k));
    }
  }

  lemma StoresForget(c: Config, s: State, n: nat, k: ChunkKey, a: Action)
    requires n in s.nodes
    requires a in {ClearDisk(n), ClearStaging(n), ClearLru(n), EvictDisk(n, k), EvictLru(n, k)}
    ensures
      var s' := Step(c, s, a);
      && s'.tasks == s.tasks && n in s'.nodes
      && (k in s'.nodes[n].disk ==> k in s.nodes[n].disk && !a.ClearDisk? && !a.EvictDisk?)
      && (k in s'.nodes[n].lru ==> k in s.nodes[n].lru && !a.ClearLru? && !a.EvictLru?)
      && (k in s'.nodes[n].staging ==> k in s.nodes[n].staging && !a.ClearStaging?)
  {
  }

  lemma RunTwo(c: Config, s: State, a: Action, b: Action)
    ensures Run(c, s, [a, b]) == Step(c, Step(c, s, a), b)
  {
    hide Step;
    assert [a, b] == [a] + [b];
    RunOne(c, s, a);
    RunSnoc(c, s, [a], b);
  }

  lemma RunThree(c: Config, s: State, a: Action, b: Action, d: Action)
    ensures Run(c, s, [a, b, d]) == Step(c, Step(c, Step(c, s, a), b), d)
  {
    hide Step;
    assert [a, b, d] == [a, b] + [d];
    RunTwo(c, s, a, b);
    RunSnoc(c, s, [a, b], d);
  }

  // A whole-chunk read that expects another length than the chunk has is served by no store: it takes the
  // chunk off the disk and goes on.
  lemma WrongLengthRemoved(c: Config, s: State, t: nat)
    requires Inv(c, s) && t in s.tasks && s.tasks[t].mode.Whole? && s.tasks[t].stage.AtStaging?
    requires s.tasks[t].expected != |Chunk(c, s.tasks[t].key)|
    ensures
      var r := s.tasks[t];
      var node := s.nodes[r.node];
      Run(c, s, LookTimes(t, 4)) == SetStage(SetNode(s, r.node, node.(disk := node.disk - {r.key})), t, AtFlight)
  {
    hide Chunk, Run, AfterLooks;
    var r := s.tasks[t];
    var node := s.nodes[r.node];
    assert NodeOk(c, node);
    hide NodeOk, ReadOk;
    Unfold(node, r, 0);
    Unfold(node, r, 1);
    Unfold(node, r, 2);
    NoStoreFits(c, node, r);
    hide NextStage, Right, Step, Inv;
    assert AfterLooks(node, r, 3) == if r.key in node.disk then AtRemove else AtFlight;
    RunLooks(c, s, t, 3);
    RunSnoc(c, s, LookTimes(t, 3), Look(t));
    LastLook(c, s, t, AfterLooks(node, r, 3));
  }

  lemma NoStoreFits(c: Config, node: Node, r: Read)
    requires Right(c, node.staging) && Right(c, node.lru) && Right(c, node.disk)
    requires r.expected != |Chunk(c, r.key)| && r.mode.Whole?
    ensures NextStage(node, r.(stage := AtStaging)) == AtLru && NextStage(node, r.(stage := AtLru)) == AtDisk
    ensures NextStage(node, r.(stage := AtDisk)) == if r.key in node.disk then AtRemove else AtFlight
  {
    hide Chunk;
  }

  lemma LastLook(c: Config, s: State, t: nat, stage: Stage)
    requires t in s.tasks && s.tasks[t].node in s.nodes
    requires
      var r := s.tasks[t];
      stage == if r.key in s.nodes[r.node].disk then AtRemove else AtFlight
    ensures
      var r := s.tasks[t];
      var node := s.nodes[r.node];
      Step(c, SetStage(s, t, stage), Look(t)) ==
        SetStage(SetNode(s, r.node, node.(disk := node.disk - {r.key})), t, AtFlight)
  {
    var r := s.tasks[t];
    var node := s.nodes[r.node];
    var s1 := SetStage(s, t, stage);
    if stage.AtFlight? {
      assert node.disk - {r.key} == node.disk;
      assert SetNode(s1, r.node, node) == s1 && SetNode(s, r.node, node) == s;
    }
    assert s1.tasks[t := r.(stage := AtFlight)] == s.tasks[t := r.(stage := AtFlight)];
  }

  // The step in which a read gets its chunk from outside the node.
  ghost predicate Obtains(r: Read, r': Read) {
    || (r.stage.Leads() && !r.stage.Publishing? && r'.stage.Publishing? && r'.stage.result.Ok?)
    || (r.stage.Pulling? && r'.stage.Ended? && r'.stage.result.Ok?)
  }

  // The chunk is staged, and a writer is to bring it to the disk.
  ghost predicate OnItsWay(c: Config, node: Node, k: ChunkKey, w: nat) {
    && k in node.staging && node.staging[k] == Chunk(c, k)
    && w in node.writers && node.writers[w] == Writing(k, Chunk(c, k))
  }

  // Whatever a read obtains from the store is staged and on its way to the disk; so is what it obtains from
  // a peer, unless that goes to the LRU. No other step obtains anything.
  lemma FetchFeedsStores(c: Config, s: State, a: Action, t: nat)
    requires Inv(c, s) && t in s.tasks && t in Step(c, s, a).tasks && Obtains(s.tasks[t], Step(c, s, a).tasks[t])
    ensures
      var r := s.tasks[t];
      r.node in Step(c, s, a).nodes &&
      var node' := Step(c, s, a).nodes[r.node];
      match a
      case OriginAnswers(u, ok, w) => u == t && ok && OnItsWay(c, node', r.key, w)
      case PullAnswers(u, _, _, w) => u == t && OnItsWay(c, node', r.key, w)
      case PeerAnswers(u, _, Some(w)) => u == t && OnItsWay(c, node', r.key, w)
      case PeerAnswers(u, _, None) => u == t && r.key in node'.lru && node'.lru[r.key] == Chunk(c, r.key)
      case _ => false
  {
    hide Chunk, NodeOk, ReadOk, SF.Step, SF.Enabled, Conclude, NextStage, PeerAnswered, PullAnswered, OnItsWay;
    NodesStay(c, s, a);
    OnlyAnswersObtain(c, s, a, t);
    match a
    case PeerAnswers(_, u, keep) => PeerFeeds(c, s, t, u, keep);
    case PullAnswers(_, u, notFound, w) => PullFeeds(c, s, t, u, notFound, w);
    case OriginAnswers(_, ok, w) => OriginFeeds(c, s, t, ok, w);
  }

  lemma OnlyAnswersObtain(c: Config, s: State, a: Action, t: nat)
    requires Inv(c, s) && t in s.tasks && t in Step(c, s, a).tasks && Obtains(s.tasks[t], Step(c, s, a).tasks[t])
    ensures (a.OriginAnswers? || a.PullAnswers? || a.PeerAnswers?) && a.read == t && s.tasks[t].node in s.nodes
    ensures a.OriginAnswers? ==> s.tasks[t].stage.AtOrigin?
    ensures a.PullAnswers? || a.PeerAnswers? ==> a.server in s.tasks
  {
    hide Chunk, NodeOk, ReadOk, SF.Step, SF.Enabled, Conclude, Kept, Spawn, NextStage;
    if a == Look(t) {
      LookingStays(s, t);
    }
  }

  lemma LookingStays(s: State, t: nat)
    requires t in s.tasks && s.tasks[t].node in s.nodes && (s.tasks[t].stage.Leads() || s.tasks[t].stage.Pulling?)
    ensures NextStage(s.nodes[s.tasks[t].node], s.tasks[t]) == s.tasks[t].stage
  {
  }

  lemma OriginFeeds(c: Config, s: State, t: nat, ok: bool, w: nat)
    requires t in s.tasks && s.tasks[t].node in s.nodes && s.tasks[t].stage.AtOrigin?
    requires Obtains(s.tasks[t], OriginAnswered(c, s, t, ok, w).tasks[t])
    ensures ok && OnItsWay(c, OriginAnswered(c, s, t, ok, w).nodes[s.tasks[t].node], s.tasks[t].key, w)
  {
    hide Chunk;
  }

  lemma PeerFeeds(c: Config, s: State, t: nat, u: nat, keep: Option<nat>)
    requires Inv(c, s) && t in s.tasks && s.tasks[t].node in s.nodes && u in s.tasks
    requires Obtains(s.tasks[t], PeerAnswered(s, t, u, keep).tasks[t])
    ensures
      var k, node' := s.tasks[t].key, PeerAnswered(s, t, u, keep).nodes[s.tasks[t].node];
      match keep
      case Some(w) => OnItsWay(c, node', k, w)
      case None => k in node'.lru && node'.lru[k] == Chunk(c, k)
  {
    hide Chunk, NodeOk;
    assert ReadOk(c, s.nodes[s.tasks[u].node].flight, u, s.tasks[u]);
  }

  lemma PullFeeds(c: Config, s: State, t: nat, u: nat, notFound: bool, w: nat)
    requires Inv(c, s) && t in s.tasks && s.tasks[t].node in s.nodes && u in s.tasks
    requires Obtains(s.tasks[t], PullAnswered(s, t, u, notFound, w).tasks[t])
    ensures OnItsWay(c, PullAnswered(s, t, u, notFound, w).nodes[s.tasks[t].node], s.tasks[t].key, w)
  {
    hide Chunk, NodeOk;
    assert ReadOk(c, s.nodes[s.tasks[u].node].flight, u, s.tasks[u]);
  }

  // A leader asks its candidates one after the other, all of them, and only then the store.
  function AskTimes(t: nat, n: nat): seq<Action> {
    if n == 0 then [] else AskTimes(t, n - 1) + [Ask(t)] + [PeerFails(t)]
  }

  lemma {:induction false} PeersInTurn(c: Config, s: State, t: nat, n: nat)
    requires t in s.tasks && s.tasks[t].node in s.nodes && s.tasks[t].stage.AtPeers? && n <= |s.tasks[t].stage.todo|
    ensures
      var todo := s.tasks[t].stage.todo;
      var s' := Run(c, s, AskTimes(t, n));
      && s' == SetStage(s, t, AtPeers(todo[n..]))
      && Step(c, s', Ask(t)) == SetStage(s, t, if n < |todo| then Asking(todo[n], todo[n + 1..]) else AtOrigin)
  {
    var r := s.tasks[t];
    var todo := r.stage.todo;
    if n == 0 {
      assert s.tasks[t := r] == s.tasks && todo[0..] == todo;
    } else {
      hide Run, Step;
      PeersInTurn(c, s, t, n - 1);
      RunSnoc(c, s, AskTimes(t, n - 1), Ask(t));
      RunSnoc(c, s, AskTimes(t, n - 1) + [Ask(t)], PeerFails(t));
      TurnFails(c, s, t, todo[n - 1], todo[n..]);
    }
    hide Run, Step;
    TurnEnds(c, s, t, n);
  }

  lemma TurnFails(c: Config, s: State, t: nat, peer: nat, todo: seq<nat>)
    requires t in s.tasks && s.tasks[t].node in s.nodes
    ensures Step(c, SetStage(s, t, Asking(peer, todo)), PeerFails(t)) == SetStage(s, t, AtPeers(todo))
  {
    var r := s.tasks[t];
    assert SetStage(s, t, Asking(peer, todo)).tasks[t := r.(stage := AtPeers(todo))]
        == s.tasks[t := r.(stage := AtPeers(todo))];
  }

  lemma TurnEnds(c: Config, s: State, t: nat, n: nat)
    requires t in s.tasks && s.tasks[t].node in s.nodes && s.tasks[t].stage.AtPeers? && n <= |s.tasks[t].stage.todo|
    ensures
      var todo := s.tasks[t].stage.todo;
      Step(c, SetStage(s, t, AtPeers(todo[n..])), Ask(t)) ==
        SetStage(s, t, if n < |todo| then Asking(todo[n], todo[n + 1..]) else AtOrigin)
  {
    var r, todo := s.tasks[t], s.tasks[t].stage.todo;
    var s1 := SetStage(s, t, AtPeers(todo[n..]));
    if n < |todo| {
      assert todo[n..][0] == todo[n] && todo[n..][1..] == todo[n + 1..];
    }
    var next := r.(stage := if n < |todo| then Asking(todo[n], todo[n + 1..]) else AtOrigin);
    assert s1.tasks[t := next] == s.tasks[t := next];
  }

  predicate AsksPeers(mode: Mode) {
    mode.Range? || (mode.Whole? && !mode.bypassPeers)
  }

  // A read that enters where nobody leads becomes the leader. It asks the candidates it was given in their
  // order, as long as none answers, and after the last of them the store; a read that is to bypass the peers,
  // or is itself on behalf of one, goes to the store at once.
  lemma CandidatesInTurn(c: Config, s: State, t: nat, candidates: seq<nat>, n: nat)
    requires t in s.tasks && s.tasks[t].node in s.nodes && s.tasks[t].stage.AtFlight? && n <= |candidates|
    requires var f := s.nodes[s.tasks[t].node].flight; t !in f.tasks && s.tasks[t].key !in f.slots
    ensures
      var s1 := Step(c, s, JoinFlight(t, candidates));
      t in s1.tasks &&
      if AsksPeers(s.tasks[t].mode)
      then
        var s' := Run(c, s1, AskTimes(t, n) + [Ask(t)]);
        t in s'.tasks &&
        s'.tasks[t].stage == if n < |candidates| then Asking(candidates[n], candidates[n + 1..]) else AtOrigin
      else s1.tasks[t].stage == AtOrigin
  {
    hide SF.Step;
    if AsksPeers(s.tasks[t].mode) {
      var s1 := Step(c, s, JoinFlight(t, candidates));
      assert s1.tasks[t].stage == AtPeers(candidates);
      hide Step, Run;
      PeersInTurn(c, s1, t, n);
      RunSnoc(c, s1, AskTimes(t, n), Ask(t));
    }
  }

  lemma RunFirst(c: Config, s: State, a: Action, rest: seq<Action>)
    ensures Run(c, s, [a] + rest) == Run(c, Step(c, s, a), rest)
  {
    assert ([a] + rest)[1..] == rest;
  }
}
