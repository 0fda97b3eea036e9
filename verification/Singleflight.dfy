/** Singleflight in the fetcher (src/fetcher.rs): the first caller for a key leads the fetch, later
    callers wait on its broadcast channel. Tasks take atomic steps in any order; a leader may be
    cancelled at any time, and clear_local_state may wipe the map under everyone. */
module Singleflight {
  import opened Core

  datatype Msg = Value(data: Bytes) | Failure

  // A broadcast channel: its only sender is in the map or in one task's hands (Open), has sent its
  // one message and gone, or was dropped without sending.
  datatype Status = Open | Sent(msg: Msg) | Closed

  datatype Chan = Chan(key: ChunkKey, status: Status)

  datatype Outcome = Answered(msg: Msg) | Got(msg: Msg) | Dropped | GaveUp

  datatype Task =
    | Registered(key: ChunkKey, chan: nat) // slot inserted, gauge not yet raised
    | Leading(key: ChunkKey, chan: nat)    // the guard is armed
    | Removed(key: ChunkKey, chan: nat, msg: Msg) // sender taken out of the map, gauge not yet lowered
    | Sending(key: ChunkKey, chan: nat, msg: Msg)
    | Waiting(key: ChunkKey, chan: nat)
    | Done(key: ChunkKey, outcome: Outcome)
  {
    predicate Leads() {
      Registered? || Leading?
    }

    predicate Holds() {
      Removed? || Sending?
    }
  }

  datatype State = State(slots: map<ChunkKey, nat>, chans: seq<Chan>, tasks: map<nat, Task>, gauge: int)

  datatype Action =
    | Enter(task: nat, key: ChunkKey)
    | RaiseGauge(task: nat)
    | Finish(task: nat, msg: Msg) // disarm with the result, or drop of the armed guard with an error
    | LowerGauge(task: nat)
    | Send(task: nat)
    | Receive(task: nat)
    | GiveUp(task: nat)           // a follower times out or is cancelled
    | ClearSlot(key: ChunkKey)    // the map is wiped piece by piece
    | ClearGauge
  {
    predicate Clears() {
      ClearSlot? || ClearGauge?
    }
  }

  const Init := State(map[], [], map[], 0)

  predicate Enabled(s: State, a: Action) {
    match a
    case Enter(t, _) => t !in s.tasks
    case RaiseGauge(t) => t in s.tasks && s.tasks[t].Registered?
    case Finish(t, _) => t in s.tasks && s.tasks[t].Leading?
    case LowerGauge(t) => t in s.tasks && s.tasks[t].Removed?
    case Send(t) => t in s.tasks && s.tasks[t].Sending? && s.tasks[t].chan < |s.chans|
    case Receive(t) =>
      t in s.tasks && s.tasks[t].Waiting? && s.tasks[t].chan < |s.chans| && !s.chans[s.tasks[t].chan].status.Open?
    case GiveUp(t) => t in s.tasks && s.tasks[t].Waiting?
    case ClearSlot(k) => k in s.slots && s.slots[k] < |s.chans|
    case ClearGauge => true
  }

  // One atomic step; an action that is not enabled changes nothing.
  function Step(s: State, a: Action): State {
    if !Enabled(s, a) then s
    else
      match a
      case Enter(t, k) =>
        if k in s.slots then s.(tasks := s.tasks[t := Waiting(k, s.slots[k])])
        else
          var c := |s.chans|;
          s.(slots := s.slots[k := c], chans := s.chans + [Chan(k, Open)], tasks := s.tasks[t := Registered(k, c)])
      case RaiseGauge(t) =>
        s.(tasks := s.tasks[t := Leading(s.tasks[t].key, s.tasks[t].chan)], gauge := s.gauge + 1)
      case Finish(t, m) =>
        var k := s.tasks[t].key;
        // the guard removes whatever slot its key has, its own or not
        if k in s.slots then s.(slots := s.slots - {k}, tasks := s.tasks[t := Removed(k, s.slots[k], m)])
        else s.(tasks := s.tasks[t := Done(k, Answered(m))])
      case LowerGauge(t) =>
        s.(tasks := s.tasks[t := Sending(s.tasks[t].key, s.tasks[t].chan, s.tasks[t].msg)], gauge := s.gauge - 1)
      case Send(t) =>
        var task := s.tasks[t];
        s.(chans := s.chans[task.chan := Chan(s.chans[task.chan].key, Sent(task.msg))],
           tasks := s.tasks[t := Done(task.key, Answered(task.msg))])
      case Receive(t) =>
        var st := s.chans[s.tasks[t].chan].status;
        s.(tasks := s.tasks[t := Done(s.tasks[t].key, if st.Sent? then Got(st.msg) else Dropped)])
      case GiveUp(t) => s.(tasks := s.tasks[t := Done(s.tasks[t].key, GaveUp)])
      case ClearSlot(k) =>
        // the only sender is dropped
        s.(slots := s.slots - {k}, chans := s.chans[s.slots[k] := Chan(s.chans[s.slots[k]].key, Closed)])
      case ClearGauge => s.(gauge := 0)
  }

  function Run(s: State, acts: seq<Action>): State
    decreases |acts|
  {
    if acts == [] then s else Run(Step(s, acts[0]), acts[1..])
  }

  // ---- Every run, clears and cancellations included ----

  ghost predicate InSlot(s: State, c: nat)
    requires c < |s.chans|
  {
    s.chans[c].key in s.slots && s.slots[s.chans[c].key] == c
  }

  ghost predicate Led(s: State, k: ChunkKey, c: nat) {
    exists t :: t in s.tasks && s.tasks[t].Leads() && s.tasks[t].key == k && s.tasks[t].chan == c
  }

  ghost predicate Held(s: State, c: nat) {
    exists t :: t in s.tasks && s.tasks[t].Holds() && s.tasks[t].chan == c
  }

  // Every slot's channel is open and is this key's.
  ghost predicate SlotsOpen(s: State) {
    forall k | k in s.slots :: s.slots[k] < |s.chans| && s.chans[s.slots[k]] == Chan(k, Open)
  }

  // Whoever created a slot is still at work.
  ghost predicate SlotsLed(s: State) {
    forall k | k in s.slots :: Led(s, k, s.slots[k])
  }

  ghost predicate TasksPlaced(s: State) {
    forall t | t in s.tasks && !s.tasks[t].Done? ::
      s.tasks[t].chan < |s.chans| && s.chans[s.tasks[t].chan].key == s.tasks[t].key
  }

  // A sender in a task's hands is out of the map and unused.
  ghost predicate HoldersOwn(s: State) {
    forall t | t in s.tasks && s.tasks[t].Holds() ::
      && s.tasks[t].chan < |s.chans| && s.chans[s.tasks[t].chan].status.Open? && !InSlot(s, s.tasks[t].chan)
  }

  ghost predicate HoldersApart(s: State) {
    forall t, u | t in s.tasks && u in s.tasks && s.tasks[t].Holds() && s.tasks[u].Holds() && t != u ::
      s.tasks[t].chan != s.tasks[u].chan
  }

  // An open channel still has its sender somewhere.
  ghost predicate OpenOwned(s: State) {
    forall c | 0 <= c < |s.chans| && s.chans[c].status.Open? :: InSlot(s, c) || Held(s, c)
  }

  ghost predicate Inv(s: State) {
    SlotsOpen(s) && SlotsLed(s) && TasksPlaced(s) && HoldersOwn(s) && HoldersApart(s) && OpenOwned(s)
  }

  lemma StepSlotsOpen(s: State, a: Action)
    requires SlotsOpen(s) && HoldersOwn(s)
    ensures SlotsOpen(Step(s, a))
  {
    if a.Send? && Enabled(s, a) {
      assert s.tasks[a.task].Holds();
    }
  }

  lemma StepSlotsLed(s: State, a: Action)
    requires SlotsLed(s)
    ensures SlotsLed(Step(s, a))
  {
    var s' := Step(s, a);
    forall k | k in s'.slots
      ensures Led(s', k, s'.slots[k])
    {
      if k in s.slots {
        assert Led(s, k, s.slots[k]);
        var t :| t in s.tasks && s.tasks[t].Leads() && s.tasks[t].key == k && s.tasks[t].chan == s.slots[k];
        assert t in s'.tasks && s'.tasks[t].Leads() && s'.tasks[t].key == k && s'.tasks[t].chan == s.slots[k];
      } else {
        assert s'.tasks[a.task] == Registered(k, |s.chans|);
      }
    }
  }

  lemma StepTasksPlaced(s: State, a: Action)
    requires SlotsOpen(s) && TasksPlaced(s)
    ensures TasksPlaced(Step(s, a))
  {
    var s' := Step(s, a);
    forall t | t in s'.tasks && !s'.tasks[t].Done?
      ensures s'.tasks[t].chan < |s'.chans| && s'.chans[s'.tasks[t].chan].key == s'.tasks[t].key
    {
      if t in s.tasks {
        assert !s.tasks[t].Done?;
      }
    }
  }

  lemma StepHoldersOwn(s: State, a: Action)
    requires SlotsOpen(s) && TasksPlaced(s) && HoldersOwn(s) && HoldersApart(s)
    ensures HoldersOwn(Step(s, a))
  {
    var s' := Step(s, a);
    forall t | t in s'.tasks && s'.tasks[t].Holds()
      ensures s'.tasks[t].chan < |s'.chans| && s'.chans[s'.tasks[t].chan].status.Open? && !InSlot(s', s'.tasks[t].chan)
    {
      assert t in s.tasks;
      if s.tasks[t].Holds() {
        assert s.tasks[t].chan == s'.tasks[t].chan;
        if a.Send? && Enabled(s, a) {
          assert a.task != t && s.tasks[a.task].Holds();
        }
      } else {
        assert a.Finish? && a.task == t;
      }
    }
  }

  lemma StepHoldersApart(s: State, a: Action)
    requires SlotsOpen(s) && HoldersOwn(s) && HoldersApart(s)
    ensures HoldersApart(Step(s, a))
  {
    var s' := Step(s, a);
    forall t, u | t in s'.tasks && u in s'.tasks && s'.tasks[t].Holds() && s'.tasks[u].Holds() && t != u
      ensures s'.tasks[t].chan != s'.tasks[u].chan
    {
      assert t in s.tasks && u in s.tasks;
      if a.Finish? && Enabled(s, a) && (t == a.task || u == a.task) {
        var k := s.tasks[a.task].key;
        assert InSlot(s, s.slots[k]);
      }
    }
  }

  lemma SlotStaysOwned(s: State, a: Action, c: nat)
    requires c < |s.chans| && InSlot(s, c) && c < |Step(s, a).chans| && Step(s, a).chans[c].status.Open?
    ensures InSlot(Step(s, a), c) || Held(Step(s, a), c)
  {
    var s' := Step(s, a);
    if a.Finish? && Enabled(s, a) && s.tasks[a.task].key == s.chans[c].key {
      assert s'.tasks[a.task].Holds() && s'.tasks[a.task].chan == c;
    }
  }

  lemma HeldStaysOwned(s: State, a: Action, c: nat)
    requires c < |s.chans| && Held(s, c) && c < |Step(s, a).chans| && Step(s, a).chans[c].status.Open?
    ensures Held(Step(s, a), c)
  {
    var t :| t in s.tasks && s.tasks[t].Holds() && s.tasks[t].chan == c;
    var s' := Step(s, a);
    assert t in s'.tasks && s'.tasks[t].Holds() && s'.tasks[t].chan == c;
  }

  // Channels are only ever added, and an open one was open before or is in a slot.
  lemma StepChans(s: State, a: Action, c: nat)
    requires c < |Step(s, a).chans| && Step(s, a).chans[c].status.Open?
    ensures c < |s.chans| ==> s.chans[c].status.Open?
    ensures c >= |s.chans| ==> InSlot(Step(s, a), c)
  {
  }

  lemma StepOpenOwned(s: State, a: Action)
    requires OpenOwned(s)
    ensures OpenOwned(Step(s, a))
  {
    hide Step, InSlot, Held;
    var s' := Step(s, a);
    forall c | 0 <= c < |s'.chans| && s'.chans[c].status.Open?
      ensures InSlot(s', c) || Held(s', c)
    {
      StepChans(s, a, c);
      if c < |s.chans| {
        if InSlot(s, c) {
          SlotStaysOwned(s, a, c);
        } else {
          HeldStaysOwned(s, a, c);
        }
      }
    }
  }

  lemma StepInv(s: State, a: Action)
    requires Inv(s)
    ensures Inv(Step(s, a))
  {
    hide SlotsOpen, SlotsLed, TasksPlaced, HoldersOwn, HoldersApart, OpenOwned, Step;
    StepSlotsOpen(s, a);
    StepSlotsLed(s, a);
    StepTasksPlaced(s, a);
    StepHoldersOwn(s, a);
    StepHoldersApart(s, a);
    StepOpenOwned(s, a);
  }

  lemma {:induction false} RunInv(s: State, acts: seq<Action>)
    requires Inv(s)
    ensures Inv(Run(s, acts))
    decreases |acts|
  {
    if acts != [] {
      StepInv(s, acts[0]);
      RunInv(Step(s, acts[0]), acts[1..]);
    }
  }

  // A follower whose channel is still open is owed a message by some other task: one that leads the
  // fetch behind that very channel, or one about to send on it.
  ghost predicate NobodyStranded(s: State) {
    forall t | t in s.tasks && s.tasks[t].Waiting? ::
      var c := s.tasks[t].chan;
      c < |s.chans| && (s.chans[c].status.Open? ==> Held(s, c) || (InSlot(s, c) && Led(s, s.tasks[t].key, c)))
  }

  ghost predicate Quiet(s: State) {
    forall t | t in s.tasks :: !s.tasks[t].Leads() && !s.tasks[t].Holds()
  }

  // In every run no follower is stranded; and once no leader is left, every follower still waiting
  // has its result, an error or a closed channel to receive.
  lemma NeverStranded(acts: seq<Action>)
    ensures NobodyStranded(Run(Init, acts))
    ensures
      var s := Run(Init, acts);
      Quiet(s) ==> forall t | t in s.tasks && s.tasks[t].Waiting? :: Enabled(s, Receive(t))
  {
    RunInv(Init, acts);
  }

  lemma StepSettled(s: State, a: Action, c: nat)
    requires HoldersOwn(s) && SlotsOpen(s) && c < |s.chans| && !s.chans[c].status.Open?
    ensures c < |Step(s, a).chans| && Step(s, a).chans[c] == s.chans[c]
  {
    if a.Send? && Enabled(s, a) {
      assert s.tasks[a.task].Holds();
    }
  }

  // A channel carries at most one message: once settled, it never changes again. (The source gives
  // it room for one.)
  lemma {:induction false} SettledForGood(s: State, acts: seq<Action>, c: nat)
    requires Inv(s) && c < |s.chans| && !s.chans[c].status.Open?
    ensures c < |Run(s, acts).chans| && Run(s, acts).chans[c] == s.chans[c]
    decreases |acts|
  {
    hide Step, SlotsOpen, SlotsLed, TasksPlaced, HoldersOwn, HoldersApart, OpenOwned;
    if acts != [] {
      StepInv(s, acts[0]);
      StepSettled(s, acts[0], c);
      SettledForGood(Step(s, acts[0]), acts[1..], c);
    }
  }

  // ---- What followers receive ----

  ghost predicate MsgGood(good: (ChunkKey, Bytes) -> bool, k: ChunkKey, m: Msg) {
    m.Value? ==> good(k, m.data)
  }

  ghost predicate SentGood(good: (ChunkKey, Bytes) -> bool, s: State) {
    forall c | 0 <= c < |s.chans| && s.chans[c].status.Sent? :: MsgGood(good, s.chans[c].key, s.chans[c].status.msg)
  }

  ghost predicate TaskGood(good: (ChunkKey, Bytes) -> bool, t: Task) {
    && (t.Holds() ==> MsgGood(good, t.key, t.msg))
    && (t.Done? && t.outcome.Answered? ==> MsgGood(good, t.key, t.outcome.msg))
    && (t.Done? && t.outcome.Got? ==> MsgGood(good, t.key, t.outcome.msg))
  }

  ghost predicate ValuesGood(good: (ChunkKey, Bytes) -> bool, s: State) {
    SentGood(good, s) && forall t | t in s.tasks :: TaskGood(good, s.tasks[t])
  }

  ghost predicate Produces(good: (ChunkKey, Bytes) -> bool, s: State, a: Action) {
    a.Finish? && Enabled(s, a) ==> MsgGood(good, s.tasks[a.task].key, a.msg)
  }

  lemma StepKeepsSent(good: (ChunkKey, Bytes) -> bool, s: State, a: Action)
    requires TasksPlaced(s) && ValuesGood(good, s)
    ensures SentGood(good, Step(s, a))
  {
    if a.Send? && Enabled(s, a) {
      assert s.tasks[a.task].Holds() && TaskGood(good, s.tasks[a.task]);
    }
  }

  lemma StepKeepsTask(good: (ChunkKey, Bytes) -> bool, s: State, a: Action, t: nat)
    requires TasksPlaced(s) && ValuesGood(good, s) && Produces(good, s, a) && t in Step(s, a).tasks
    ensures TaskGood(good, Step(s, a).tasks[t])
  {
    if t in s.tasks {
      assert TaskGood(good, s.tasks[t]);
      if a == Receive(t) && Enabled(s, a) {
        var c := s.tasks[t].chan;
        assert s.chans[c].key == s.tasks[t].key;
      }
    }
  }

  // If leaders only ever produce good values for their key, followers only ever receive good values
  // for theirs: even when a clear makes a leader answer another leader's followers.
  lemma StepKeepsValues(good: (ChunkKey, Bytes) -> bool, s: State, a: Action)
    requires Inv(s) && ValuesGood(good, s) && Produces(good, s, a)
    ensures ValuesGood(good, Step(s, a))
  {
    hide Step, SentGood, TaskGood, Produces;
    StepKeepsSent(good, s, a);
    forall t | t in Step(s, a).tasks
      ensures TaskGood(good, Step(s, a).tasks[t])
    {
      StepKeepsTask(good, s, a, t);
    }
  }

  // ---- Runs without a clear ----

  ghost predicate OneLeaderPerKey(s: State) {
    && (forall t, u | t in s.tasks && u in s.tasks && s.tasks[t].Leads() && s.tasks[u].Leads()
                      && s.tasks[t].key == s.tasks[u].key :: t == u)
    && (forall k :: k in s.slots <==> exists t :: t in s.tasks && s.tasks[t].Leads() && s.tasks[t].key == k)
  }

  ghost function Raising(tasks: map<nat, Task>): set<nat> {
    set t | t in tasks && tasks[t].Registered?
  }

  ghost function Lowering(tasks: map<nat, Task>): set<nat> {
    set t | t in tasks && tasks[t].Removed?
  }

  // The gauge counts the slots, up to the half-steps in progress.
  ghost predicate GaugeExact(s: State) {
    s.gauge == |s.slots| - |Raising(s.tasks)| + |Lowering(s.tasks)|
  }

  lemma CountChange(r: set<nat>, r': set<nat>, t: nat)
    requires forall u | u != t :: u in r <==> u in r'
    ensures |r'| == |r| - (if t in r then 1 else 0) + (if t in r' then 1 else 0)
  {
    if t in r && t !in r' {
      assert r == r' + {t};
    } else if t !in r && t in r' {
      assert r' == r + {t};
    } else {
      assert r == r';
    }
  }

  lemma PhaseCounts(tasks: map<nat, Task>, t: nat, task: Task)
    ensures |Raising(tasks[t := task])| ==
      |Raising(tasks)| - (if t in tasks && tasks[t].Registered? then 1 else 0) + (if task.Registered? then 1 else 0)
    ensures |Lowering(tasks[t := task])| ==
      |Lowering(tasks)| - (if t in tasks && tasks[t].Removed? then 1 else 0) + (if task.Removed? then 1 else 0)
  {
    CountChange(Raising(tasks), Raising(tasks[t := task]), t);
    CountChange(Lowering(tasks), Lowering(tasks[t := task]), t);
  }

  // Every leader's slot is its own.
  ghost predicate LeadersInSlot(s: State) {
    forall t | t in s.tasks && s.tasks[t].Leads() ::
      s.tasks[t].key in s.slots && s.slots[s.tasks[t].key] == s.tasks[t].chan
  }

  ghost predicate LeadersApart(s: State) {
    forall t, u | t in s.tasks && u in s.tasks && s.tasks[t].Leads() && s.tasks[u].Leads() && t != u ::
      s.tasks[t].chan != s.tasks[u].chan
  }

  ghost predicate InvNoClear(s: State) {
    Inv(s) && LeadersInSlot(s) && LeadersApart(s) && GaugeExact(s)
  }

  lemma StepLeaders(s: State, a: Action)
    requires SlotsOpen(s) && LeadersInSlot(s) && LeadersApart(s) && !a.Clears()
    ensures LeadersInSlot(Step(s, a)) && LeadersApart(Step(s, a))
  {
    var s' := Step(s, a);
    forall t | t in s'.tasks && s'.tasks[t].Leads()
      ensures s'.tasks[t].key in s'.slots && s'.slots[s'.tasks[t].key] == s'.tasks[t].chan
      ensures t in s.tasks ==> s.tasks[t].Leads() && s.tasks[t].chan == s'.tasks[t].chan < |s.chans|
      ensures t !in s.tasks ==> s'.tasks[t].chan == |s.chans|
    {
      if a.Finish? && Enabled(s, a) && t in s.tasks {
        assert s.tasks[t].Leads() && t != a.task;
        assert s.tasks[a.task].Leads() && s.tasks[a.task].chan != s.tasks[t].chan;
      }
    }
  }

  // A step of a task changes that task only, and the slots only on entry and on finishing.
  lemma StepOneTask(s: State, a: Action)
    requires !a.Clears() && Enabled(s, a)
    ensures a.task in Step(s, a).tasks && Step(s, a).tasks == s.tasks[a.task := Step(s, a).tasks[a.task]]
    ensures !a.Enter? && !a.Finish? ==> Step(s, a).slots == s.slots
  {
  }

  lemma EnterGauge(s: State, a: Action)
    requires a.Enter? && Enabled(s, a)
    ensures
      var s' := Step(s, a);
      var opens := a.key !in s.slots;
      && s'.gauge == s.gauge && |s'.slots| == |s.slots| + (if opens then 1 else 0)
      && (s'.tasks[a.task].Registered? <==> opens) && !s'.tasks[a.task].Removed?
  {
    if a.key !in s.slots {
      OneMoreSlot(s.slots, a.key, |s.chans|);
    }
  }

  lemma OneMoreSlot(slots: map<ChunkKey, nat>, k: ChunkKey, c: nat)
    requires k !in slots
    ensures |slots[k := c]| == |slots| + 1
  {
    assert slots[k := c].Keys == slots.Keys + {k};
  }

  lemma FinishGauge(s: State, a: Action)
    requires a.Finish? && Enabled(s, a) && LeadersInSlot(s)
    ensures
      var s' := Step(s, a);
      s'.gauge == s.gauge && |s'.slots| == |s.slots| - 1 && s'.tasks[a.task].Removed?
  {
    var k := s.tasks[a.task].key;
    assert s.tasks[a.task].Leads();
    assert s.slots.Keys == Step(s, a).slots.Keys + {k};
  }

  lemma OtherGauge(s: State, a: Action)
    requires !a.Clears() && !a.Enter? && !a.Finish? && Enabled(s, a)
    ensures
      var s' := Step(s, a);
      && !s'.tasks[a.task].Registered? && !s'.tasks[a.task].Removed?
      && s'.gauge == s.gauge + (if s.tasks[a.task].Registered? then 1 else 0)
         - (if s.tasks[a.task].Removed? then 1 else 0)
  {
  }

  lemma GaugeStep(s: State, a: Action)
    requires GaugeExact(s) && LeadersInSlot(s) && !a.Clears() && Enabled(s, a)
    ensures GaugeExact(Step(s, a))
  {
    hide Step, Raising, Lowering, LeadersInSlot;
    var s' := Step(s, a);
    StepOneTask(s, a);
    PhaseCounts(s.tasks, a.task, s'.tasks[a.task]);
    if a.Enter? {
      EnterGauge(s, a);
    } else if a.Finish? {
      FinishGauge(s, a);
    } else {
      OtherGauge(s, a);
    }
  }

  lemma StepNoClear(s: State, a: Action)
    requires InvNoClear(s) && !a.Clears()
    ensures InvNoClear(Step(s, a))
  {
    hide GaugeExact, Step, LeadersInSlot, LeadersApart, SlotsOpen;
    StepInv(s, a);
    StepLeaders(s, a);
    if Enabled(s, a) {
      GaugeStep(s, a);
    } else {
      DisabledStep(s, a);
    }
  }

  lemma DisabledStep(s: State, a: Action)
    requires !Enabled(s, a)
    ensures Step(s, a) == s
  {
  }

  lemma {:induction false} RunNoClear(s: State, acts: seq<Action>)
    requires InvNoClear(s) && forall i | 0 <= i < |acts| :: !acts[i].Clears()
    ensures InvNoClear(Run(s, acts))
    decreases |acts|
  {
    if acts != [] {
      StepNoClear(s, acts[0]);
      RunNoClear(Step(s, acts[0]), acts[1..]);
    }
  }

  function ClearCount(acts: seq<Action>): nat {
    if acts == [] then 0 else (if acts[0].Clears() then 1 else 0) + ClearCount(acts[1..])
  }

  lemma {:induction false} NoneClears(acts: seq<Action>)
    requires ClearCount(acts) == 0
    ensures forall i | 0 <= i < |acts| :: !acts[i].Clears()
  {
    if acts != [] {
      NoneClears(acts[1..]);
      assert forall i | 0 < i < |acts| :: acts[i] == acts[1..][i - 1];
    }
  }

  ghost predicate Exact(s: State) {
    OneLeaderPerKey(s) && GaugeExact(s)
  }

  // A clear while a leader is at work: a second leader for the key starts beside it.
  lemma ClearAllowsTwoLeaders(k: ChunkKey)
    ensures !OneLeaderPerKey(Run(Init, [Enter(0, k), RaiseGauge(0), ClearSlot(k), Enter(1, k)]))
  {
    var acts := [Enter(0, k), RaiseGauge(0), ClearSlot(k), Enter(1, k)];
    var s1 := Step(Init, acts[0]);
    var s2 := Step(s1, acts[1]);
    var s3 := Step(s2, acts[2]);
    var s4 := Step(s3, acts[3]);
    assert s4.tasks[0].Leading? && s4.tasks[1].Registered?;
    assert Run(s3, acts[3..]) == s4;
    assert Run(s2, acts[2..]) == s4 by {
      assert acts[2..][1..] == acts[3..];
    }
    assert Run(s1, acts[1..]) == s4 by {
      assert acts[1..][1..] == acts[2..];
    }
  }

  // The exact condition: at most one leader per key, a slot exactly while it is led, and a truthful
  // gauge, in all runs with up to n clears, if and only if n is zero.
  lemma ExactIffNeverCleared(n: nat)
    ensures (forall acts | ClearCount(acts) <= n :: Exact(Run(Init, acts))) <==> n == 0
  {
    if n == 0 {
      forall acts | ClearCount(acts) <= n
        ensures Exact(Run(Init, acts))
      {
        NoneClears(acts);
        assert Raising(Init.tasks) == {} && Lowering(Init.tasks) == {};
        RunNoClear(Init, acts);
        LedFromInv(Run(Init, acts));
      }
    } else {
      var k := ChunkKey("", "", 0);
      var acts := [Enter(0, k), RaiseGauge(0), ClearSlot(k), Enter(1, k)];
      ClearAllowsTwoLeaders(k);
      assert ClearCount(acts) == 1 by {
        assert ClearCount(acts[3..]) == 0;
        assert acts[2..][1..] == acts[3..] && acts[1..][1..] == acts[2..];
        assert ClearCount(acts[2..]) == 1;
        assert ClearCount(acts[1..]) == 1;
      }
      assert !Exact(Run(Init, acts));
    }
  }

  lemma LedFromInv(s: State)
    requires InvNoClear(s)
    ensures OneLeaderPerKey(s)
  {
    forall k
      ensures k in s.slots <==> exists t :: t in s.tasks && s.tasks[t].Leads() && s.tasks[t].key == k
    {
      if k in s.slots {
        assert Led(s, k, s.slots[k]);
      }
    }
  }

  // A clear that does harm: of a slot that is held, of the gauge while it counts something.
  predicate Breaks(s: State, a: Action) {
    (a.ClearSlot? && a.key in s.slots) || (a.ClearGauge? && s.gauge != 0)
  }

  lemma EmptyClear(s: State, a: Action)
    requires a.Clears() && !Breaks(s, a)
    ensures Step(s, a) == s
  {
  }

  lemma HarmfulClear(s: State, a: Action)
    requires InvNoClear(s) && Breaks(s, a)
    ensures !Exact(Step(s, a))
  {
    hide LeadersApart, LeadersInSlot, TasksPlaced, HoldersOwn, HoldersApart, OpenOwned;
    var s' := Step(s, a);
    if a.ClearSlot? {
      var k := a.key;
      assert Led(s, k, s.slots[k]);
      var t :| t in s.tasks && s.tasks[t].Leads() && s.tasks[t].key == k;
      assert t in s'.tasks && s'.tasks[t].Leads() && s'.tasks[t].key == k && k !in s'.slots;
    }
  }

  // The condition at the step: from a state of a run that was never broken, a step keeps one leader per
  // key, a slot exactly while it is led and a truthful gauge, if and only if it is not a harmful clear.
  lemma ExactIffNotBroken(s: State, a: Action)
    requires InvNoClear(s)
    ensures Exact(Step(s, a)) <==> !Breaks(s, a)
    ensures !Breaks(s, a) ==> InvNoClear(Step(s, a))
  {
    if Breaks(s, a) {
      HarmfulClear(s, a);
    } else {
      hide Step, Breaks, GaugeExact, LeadersInSlot, LeadersApart;
      if a.Clears() {
        EmptyClear(s, a);
      } else {
        StepNoClear(s, a);
      }
      LedFromInv(Step(s, a));
    }
  }

  // No action of the run does harm.
  predicate Orderly(s: State, acts: seq<Action>)
    decreases |acts|
  {
    acts == [] || (!Breaks(s, acts[0]) && Orderly(Step(s, acts[0]), acts[1..]))
  }

  lemma {:induction false} RunOrderly(s: State, acts: seq<Action>)
    requires InvNoClear(s) && Orderly(s, acts)
    ensures InvNoClear(Run(s, acts))
    decreases |acts|
  {
    hide Step, Breaks, InvNoClear;
    if acts != [] {
      ExactIffNotBroken(s, acts[0]);
      RunOrderly(Step(s, acts[0]), acts[1..]);
    }
  }

  // Over runs: everything is exact as long as no clear does harm, and no longer.
  lemma ExactUntilBroken(acts: seq<Action>, a: Action)
    requires Orderly(Init, acts)
    ensures Exact(Run(Init, acts))
    ensures Exact(Step(Run(Init, acts), a)) <==> !Breaks(Run(Init, acts), a)
  {
    assert InvNoClear(Init) by {
      assert Raising(Init.tasks) == {} && Lowering(Init.tasks) == {};
    }
    hide Step, Breaks, Run;
    RunOrderly(Init, acts);
    LedFromInv(Run(Init, acts));
    ExactIffNotBroken(Run(Init, acts), a);
  }
}
