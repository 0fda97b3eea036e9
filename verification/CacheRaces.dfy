/** The disk cache under concurrent calls (src/cache.rs). An insert renames its file into place before it
    takes the lock, a removal deletes the file before it does, and clear_all sweeps the directory after it
    has let go of it. When can a tracked chunk lose its file? */
module CacheRaces {
  import opened Core
  import R = Recency
  import opened Caches

  datatype Call =
    | Storing(key: ChunkKey, size: nat) // insert: the file is in place, the lock not yet taken
    | Removing(key: ChunkKey)           // remove: the file is deleted, the entry not yet dropped

  datatype State = State(cap: nat, order: seq<R.Item<NoValue>>, files: set<ChunkKey>, calls: map<nat, Call>)

  datatype Action =
    | Rename(call: nat, key: ChunkKey, size: nat)
    | Commit(call: nat)                 // the bookkeeping of an insert, evictions included
    | Delete(call: nat, key: ChunkKey)
    | Drop(call: nat)
    | Touch(key: ChunkKey)              // a hit
    | Forget(key: ChunkKey)             // reconcile_with_disk drops an entry it has found without a file
    | Clear                             // clear_all under the lock
    | Sweep(key: ChunkKey)              // clear_all deletes a file it finds in the directory

  function Init(cap: nat): State {
    State(cap, [], {}, map[])
  }

  function Keys(l: seq<R.Item<NoValue>>): set<ChunkKey> {
    set x | x in l :: x.key
  }

  predicate Tracked(s: State, k: ChunkKey) {
    k in Keys(s.order)
  }

  function Committed(s: State, k: ChunkKey, n: nat): State {
    var order' := R.Put(s.order, R.Item(k, n, NoValue), s.cap);
    s.(order := order', files := s.files - (Keys(s.order) + {k} - Keys(order')))
  }

  // One atomic step; an action that does not apply changes nothing.
  function Step(s: State, a: Action): State {
    match a
    case Rename(t, k, n) =>
      if t in s.calls then s else s.(files := s.files + {k}, calls := s.calls[t := Storing(k, n)])
    case Commit(t) =>
      if t in s.calls && s.calls[t].Storing?
      then Committed(s, s.calls[t].key, s.calls[t].size).(calls := s.calls - {t})
      else s
    case Delete(t, k) =>
      if t in s.calls then s else s.(files := s.files - {k}, calls := s.calls[t := Removing(k)])
    case Drop(t) =>
      if t in s.calls && s.calls[t].Removing?
      then s.(order := R.Without(s.order, {s.calls[t].key}), calls := s.calls - {t})
      else s
    case Touch(k) => s.(order := R.Used(s.order, k))
    case Forget(k) => s.(order := R.Without(s.order, {k}))
    case Clear => s.(order := [], files := s.files - Keys(s.order))
    case Sweep(k) => s.(files := s.files - {k})
  }

  function Run(s: State, acts: seq<Action>): State
    decreases |acts|
  {
    if acts == [] then s else Run(Step(s, acts[0]), acts[1..])
  }

  predicate Stores(s: State, t: nat, k: ChunkKey) {
    t in s.calls && s.calls[t].Storing? && s.calls[t].key == k
  }

  // An insert whose entry will stay: one that is larger than the whole cache evicts itself.
  predicate StoresForGood(s: State, t: nat, k: ChunkKey) {
    Stores(s, t, k) && s.calls[t].size <= s.cap
  }

  predicate Removes(s: State, t: nat, k: ChunkKey) {
    t in s.calls && s.calls[t] == Removing(k)
  }

  ghost predicate BeingStored(s: State, k: ChunkKey) {
    exists t :: Stores(s, t, k)
  }

  ghost predicate BeingStoredForGood(s: State, k: ChunkKey) {
    exists t :: StoresForGood(s, t, k)
  }

  ghost predicate BeingRemoved(s: State, k: ChunkKey) {
    exists t :: Removes(s, t, k)
  }

  // No tracked chunk is without its file, unless it is just being removed.
  ghost predicate HasFile(s: State, k: ChunkKey) {
    Tracked(s, k) ==> k in s.files || BeingRemoved(s, k)
  }

  ghost predicate Intact(s: State) {
    forall k :: HasFile(s, k)
  }

  // The calls that must not meet: an insert of a chunk that is tracked or being inserted already; a removal
  // or a sweep of one that is being inserted; a sweep of a tracked one.
  ghost predicate Risky(s: State, a: Action) {
    match a
    case Rename(t, k, n) =>
      t !in s.calls && if n <= s.cap then Tracked(s, k) || BeingStored(s, k) else BeingStoredForGood(s, k)
    case Delete(t, k) => t !in s.calls && BeingStoredForGood(s, k)
    case Sweep(k) => BeingStoredForGood(s, k) || (Tracked(s, k) && !BeingRemoved(s, k))
    case _ => false
  }

  ghost predicate Prudent(s: State, acts: seq<Action>)
    decreases |acts|
  {
    acts == [] || (!Risky(s, acts[0]) && Prudent(Step(s, acts[0]), acts[1..]))
  }

  // ---- What prudent runs keep ----

  // An insert that will stay is the only one of its chunk, which is not tracked yet, and has its file.
  ghost predicate Alone(s: State, t: nat, k: ChunkKey) {
    k in s.files && !Tracked(s, k) && forall u | Stores(s, u, k) :: u == t
  }

  ghost predicate KeyOk(s: State, k: ChunkKey) {
    HasFile(s, k) && forall t | StoresForGood(s, t, k) :: Alone(s, t, k)
  }

  ghost predicate Safe(s: State) {
    R.Distinct(s.order) && forall k :: KeyOk(s, k)
  }

  lemma WithoutKeys(l: seq<R.Item<NoValue>>, ks: set<ChunkKey>)
    requires R.Distinct(l)
    ensures R.Distinct(R.Without(l, ks)) && Keys(R.Without(l, ks)) == Keys(l) - ks
  {
    R.WithoutDistinct(l, ks);
    R.WithoutMembers(l, ks);
  }

  lemma UsedKeys(l: seq<R.Item<NoValue>>, k: ChunkKey)
    requires R.Distinct(l)
    ensures R.Distinct(R.Used(l, k)) && Keys(R.Used(l, k)) == Keys(l)
  {
    var f := R.Find(l, k);
    if f.Some? {
      var w := R.Without(l, {k});
      WithoutKeys(l, {k});
      R.AppendDistinct(l, f.value);
      assert forall x | x in w + [f.value] :: x in w || x == f.value;
      assert f.value in w + [f.value] && forall x | x in w :: x in w + [f.value];
      assert Keys(w + [f.value]) == Keys(w) + {k};
    }
  }

  // A put tracks the new chunk if it fits, and otherwise nothing at all; it tracks nothing else anew.
  lemma PutKeys(l: seq<R.Item<NoValue>>, x: R.Item<NoValue>, cap: nat)
    requires R.Distinct(l)
    ensures
      var r := R.Put(l, x, cap);
      && R.Distinct(r) && Keys(r) <= Keys(l) + {x.key}
      && (x.key in Keys(r) <==> x.size <= cap) && (x.size > cap ==> r == [])
  {
    hide R.Put, R.Total;
    PutDistinct(l, x, cap);
    PutMembers(l, x, cap);
    if x.size > cap {
      PutTooLarge(l, x, cap);
    }
    R.NewEntryKeptIffItFits(l, x, cap);
    assert x.key in Keys(R.Put(l, x, cap)) <==> R.HasKey(R.Put(l, x, cap), x.key);
  }

  lemma PutDistinct(l: seq<R.Item<NoValue>>, x: R.Item<NoValue>, cap: nat)
    requires R.Distinct(l)
    ensures R.Distinct(R.Put(l, x, cap))
  {
    hide R.Without, R.Evicted, R.Total;
    R.AppendDistinct(l, x);
    R.EvictedIsLongestSuffix(R.Without(l, {x.key}) + [x], cap);
  }

  lemma PutMembers(l: seq<R.Item<NoValue>>, x: R.Item<NoValue>, cap: nat)
    ensures Keys(R.Put(l, x, cap)) <= Keys(l) + {x.key}
  {
    hide R.Without, R.Evicted, R.Total;
    var all, r := R.Without(l, {x.key}) + [x], R.Put(l, x, cap);
    R.WithoutMembers(l, {x.key});
    R.EvictedIsLongestSuffix(all, cap);
    assert forall y | y in r :: y in all;
    assert forall y | y in all :: y in l || y == x;
  }

  lemma PutTooLarge(l: seq<R.Item<NoValue>>, x: R.Item<NoValue>, cap: nat)
    requires x.size > cap
    ensures R.Put(l, x, cap) == []
  {
    var all, r := R.Without(l, {x.key}) + [x], R.Put(l, x, cap);
    R.EvictedIsLongestSuffix(all, cap);
    hide R.Without, R.Evicted;
    if r != [] {
      AtLeastLast(r);
    }
  }

  lemma AtLeastLast(l: seq<R.Item<NoValue>>)
    requires l != []
    ensures R.Total(l) >= l[|l| - 1].size
  {
    var n := |l| - 1;
    assert l == l[..n] + [l[n]];
    R.TotalConcat(l[..n], [l[n]]);
    assert R.Total([l[n]]) == l[n].size;
  }

  lemma CommitKeepsKey(s: State, t: nat, j: ChunkKey)
    requires Safe(s) && t in s.calls && s.calls[t].Storing?
    ensures KeyOk(Step(s, Commit(t)), j)
  {
    var k, n := s.calls[t].key, s.calls[t].size;
    var s' := Step(s, Commit(t));
    PutKeys(s.order, R.Item(k, n, NoValue), s.cap);
    hide R.Put, R.Distinct;
    assert KeyOk(s, j) && KeyOk(s, k);
    assert n <= s.cap ==> StoresForGood(s, t, k);
    assert forall u, i | Stores(s', u, i) :: Stores(s, u, i);
    assert forall u | Removes(s, u, j) :: Removes(s', u, j);
    forall u | StoresForGood(s', u, j)
      ensures Alone(s', u, j)
    {
      assert StoresForGood(s, u, j) && Alone(s, u, j);
      assert Stores(s, t, k) && u != t;
    }
  }

  lemma OtherKeepsKey(s: State, a: Action, j: ChunkKey)
    requires Safe(s) && !Risky(s, a) && !a.Commit?
    ensures KeyOk(Step(s, a), j)
  {
    var s' := Step(s, a);
    assert KeyOk(s, j);
    match a
    case Rename(t, k, n) => RenameKeepsKey(s, t, k, n, j);
    case Delete(t, k) =>
      assert forall u | Removes(s, u, j) :: Removes(s', u, j);
      assert t !in s.calls ==> Removes(s', t, k);
      assert forall u, i | Stores(s', u, i) :: Stores(s, u, i);
      assert forall u | StoresForGood(s', u, j) :: StoresForGood(s, u, j);
    case Drop(t) => if s' != s { WithoutKeys(s.order, {s.calls[t].key}); DropKeepsKey(s, t, j); }
    case Touch(k) =>
      UsedKeys(s.order, k);
      SameCalls(s, s', j);
    case Forget(k) =>
      WithoutKeys(s.order, {k});
      SameCalls(s, s', j);
    case Clear => SameCalls(s, s', j);
    case Sweep(k) =>
      SameCalls(s, s', j);
  }

  lemma SameCalls(s: State, s': State, j: ChunkKey)
    requires s'.calls == s.calls && s'.cap == s.cap && KeyOk(s, j)
    requires Tracked(s', j) ==> Tracked(s, j)
    requires j in s.files && j !in s'.files ==>
      !BeingStoredForGood(s, j) && (Tracked(s', j) ==> BeingRemoved(s, j))
    ensures KeyOk(s', j)
  {
    assert forall u | Removes(s, u, j) :: Removes(s', u, j);
    forall t | StoresForGood(s', t, j)
      ensures Alone(s', t, j)
    {
      assert StoresForGood(s, t, j) && Alone(s, t, j);
      assert forall u | Stores(s', u, j) :: Stores(s, u, j);
    }
  }

  lemma RenameKeepsKey(s: State, t: nat, k: ChunkKey, n: nat, j: ChunkKey)
    requires Safe(s) && !Risky(s, Rename(t, k, n))
    ensures KeyOk(Step(s, Rename(t, k, n)), j)
  {
    var s' := Step(s, Rename(t, k, n));
    assert KeyOk(s, j);
    if t !in s.calls {
      assert forall u | Removes(s, u, j) :: Removes(s', u, j);
      forall u | StoresForGood(s', u, j)
        ensures Alone(s', u, j)
      {
        if u != t {
          assert StoresForGood(s, u, j) && Alone(s, u, j);
          assert Stores(s, u, j);
        }
        assert forall v | Stores(s', v, j) && v != t :: Stores(s, v, j);
      }
    }
  }

  lemma DropKeepsKey(s: State, t: nat, j: ChunkKey)
    requires Safe(s) && t in s.calls && s.calls[t].Removing?
    requires Keys(Step(s, Drop(t)).order) == Keys(s.order) - {s.calls[t].key}
    ensures KeyOk(Step(s, Drop(t)), j)
  {
    var s' := Step(s, Drop(t));
    assert KeyOk(s, j);
    assert forall u | Removes(s, u, j) && u != t :: Removes(s', u, j);
    forall u | StoresForGood(s', u, j)
      ensures Alone(s', u, j)
    {
      assert StoresForGood(s, u, j) && Alone(s, u, j);
      assert forall v | Stores(s', v, j) :: Stores(s, v, j);
    }
  }

  lemma StepDistinct(s: State, a: Action)
    requires R.Distinct(s.order)
    ensures R.Distinct(Step(s, a).order)
  {
    match a
    case Commit(t) =>
      if t in s.calls && s.calls[t].Storing? {
        PutKeys(s.order, R.Item(s.calls[t].key, s.calls[t].size, NoValue), s.cap);
      }
    case Drop(t) => if t in s.calls { WithoutKeys(s.order, {s.calls[t].key}); }
    case Touch(k) => UsedKeys(s.order, k);
    case Forget(k) => WithoutKeys(s.order, {k});
    case _ =>
  }

  lemma StepSafe(s: State, a: Action)
    requires Safe(s) && !Risky(s, a)
    ensures Safe(Step(s, a))
  {
    hide KeyOk, Risky;
    StepDistinct(s, a);
    forall j
      ensures KeyOk(Step(s, a), j)
    {
      if a.Commit? {
        if a.call in s.calls && s.calls[a.call].Storing? {
          CommitKeepsKey(s, a.call, j);
        } else {
          assert Step(s, a) == s && KeyOk(s, j);
        }
      } else {
        OtherKeepsKey(s, a, j);
      }
    }
  }

  lemma {:induction false} RunSafe(s: State, acts: seq<Action>)
    requires Safe(s) && Prudent(s, acts)
    ensures Safe(Run(s, acts))
    decreases |acts|
  {
    hide Safe, Risky, Step;
    if acts != [] {
      StepSafe(s, acts[0]);
      RunSafe(Step(s, acts[0]), acts[1..]);
    }
  }

  // ---- What goes wrong otherwise ----

  lemma {:induction false} RunConcat(s: State, a: seq<Action>, b: seq<Action>)
    ensures Run(s, a + b) == Run(Run(s, a), b)
    ensures Prudent(s, a) && Prudent(Run(s, a), b) ==> Prudent(s, a + b)
    decreases |a|
  {
    hide Step, Risky;
    if a == [] {
      assert a + b == b;
    } else {
      assert (a + b)[1..] == a[1..] + b;
      RunConcat(Step(s, a[0]), a[1..], b);
    }
  }

  lemma One(s: State, a: Action)
    requires !Risky(s, a)
    ensures Run(s, [a]) == Step(s, a) && Prudent(s, [a])
  {
    hide Step, Risky;
    assert [a][1..] == [];
    assert Run(Step(s, a), []) == Step(s, a);
  }

  ghost predicate Breaks(s: State, acts: seq<Action>) {
    Prudent(s, acts) && !Intact(Run(s, acts))
  }

  lemma Then(s: State, a: Action, acts: seq<Action>)
    requires !Risky(s, a) && Breaks(Step(s, a), acts)
    ensures Breaks(s, [a] + acts)
  {
    hide Step, Risky, Intact;
    One(s, a);
    RunConcat(s, [a], acts);
  }

  ghost function Removals(s: State, k: ChunkKey): set<nat> {
    set t | t in s.calls && s.calls[t] == Removing(k)
  }

  // The file is gone: once all removals are through, the insert tracks a chunk without one.
  lemma {:induction false} FileGone(s: State, t: nat, k: ChunkKey) returns (acts: seq<Action>)
    requires R.Distinct(s.order) && StoresForGood(s, t, k) && k !in s.files
    ensures Breaks(s, acts)
    decreases |Removals(s, k)|
  {
    if BeingRemoved(s, k) {
      var u :| Removes(s, u, k);
      var s1 := Step(s, Drop(u));
      StepDistinct(s, Drop(u));
      assert Removals(s1, k) == Removals(s, k) - {u} && u in Removals(s, k);
      var rest := FileGone(s1, t, k);
      Then(s, Drop(u), rest);
      acts := [Drop(u)] + rest;
    } else {
      PutKeys(s.order, R.Item(k, s.calls[t].size, NoValue), s.cap);
      One(s, Commit(t));
      var s1 := Step(s, Commit(t));
      assert forall u | Removes(s1, u, k) :: Removes(s, u, k);
      assert !HasFile(s1, k);
      acts := [Commit(t)];
    }
  }

  lemma {:induction false} AboveAll(ids: set<nat>) returns (b: nat)
    ensures forall i | i in ids :: i < b
    decreases |ids|
  {
    if ids == {} {
      b := 0;
    } else {
      var i :| i in ids;
      var b' := AboveAll(ids - {i});
      b := if i < b' then b' else i + 1;
      assert forall j | j in ids :: j == i || j in ids - {i};
    }
  }

  // A chunk nobody has to do with.
  lemma FreshKey(s: State, k: ChunkKey) returns (x: ChunkKey)
    ensures x != k && !Tracked(s, x) && !BeingStored(s, x)
  {
    var offsets :=
      (set y | y in Keys(s.order) :: y.offset) + (set t | t in s.calls :: s.calls[t].key.offset) + {k.offset};
    var b := AboveAll(offsets);
    x := ChunkKey("", "", b);
    assert forall y | y in Keys(s.order) :: y.offset in offsets;
    assert forall t | t in s.calls :: s.calls[t].key.offset in offsets;
  }

  // The chunk is tracked already: its eviction deletes the file the insert has just put in place.
  lemma TrackedAlready(s: State, t: nat, k: ChunkKey) returns (acts: seq<Action>)
    requires R.Distinct(s.order) && StoresForGood(s, t, k) && Tracked(s, k)
    ensures Breaks(s, acts)
  {
    var x := FreshKey(s, k);
    var v := AboveAll(s.calls.Keys);
    var a, e := Rename(v, x, s.cap + 1), Commit(v);
    var s1 := Step(s, a);
    var s2 := Step(s1, e);
    assert forall u | StoresForGood(s, u, x) :: Stores(s, u, x);
    PutKeys(s.order, R.Item(x, s.cap + 1, NoValue), s.cap);
    assert s2.order == [] && k !in s2.files && StoresForGood(s2, t, k);
    var rest := FileGone(s2, t, k);
    hide Step, Risky, Breaks;
    ThenBoth(s, a, e, rest);
    acts := [a] + ([e] + rest);
  }

  lemma ThenBoth(s: State, a: Action, e: Action, rest: seq<Action>)
    requires !Risky(s, a) && e.Commit? && Breaks(Step(Step(s, a), e), rest)
    ensures Breaks(s, [a] + ([e] + rest))
  {
    hide Step, Breaks;
    Then(Step(s, a), e, rest);
    Then(s, a, [e] + rest);
  }

  // Two inserts of one chunk: the second finds the chunk tracked by the first, or its file gone with it.
  lemma TwoInserts(s: State, t: nat, u: nat, k: ChunkKey) returns (acts: seq<Action>)
    requires R.Distinct(s.order) && StoresForGood(s, t, k) && Stores(s, u, k) && u != t
    ensures Breaks(s, acts)
  {
    var a := Commit(u);
    var s1 := Step(s, a);
    PutKeys(s.order, R.Item(k, s.calls[u].size, NoValue), s.cap);
    assert StoresForGood(s1, t, k);
    var rest;
    if s.calls[u].size <= s.cap {
      rest := TrackedAlready(s1, t, k);
    } else {
      rest := FileGone(s1, t, k);
    }
    hide Step, Breaks;
    Then(s, a, rest);
    acts := [a] + rest;
  }

  lemma Doomed(s: State, k: ChunkKey) returns (acts: seq<Action>)
    requires R.Distinct(s.order) && !KeyOk(s, k)
    ensures Breaks(s, acts)
  {
    if !HasFile(s, k) {
      acts := [];
    } else {
      var t :| StoresForGood(s, t, k) && !Alone(s, t, k);
      if k !in s.files {
        acts := FileGone(s, t, k);
      } else if Tracked(s, k) {
        acts := TrackedAlready(s, t, k);
      } else {
        var u :| Stores(s, u, k) && u != t;
        acts := TwoInserts(s, t, u, k);
      }
    }
  }

  // A risky action leaves a chunk that is not as it should be.
  lemma RiskyHarms(s: State, a: Action) returns (k: ChunkKey)
    requires Safe(s) && Risky(s, a)
    ensures !KeyOk(Step(s, a), k)
  {
    var s' := Step(s, a);
    k := a.key;
    assert KeyOk(s, k);
    match a
    case Rename(t, _, n) =>
      assert Stores(s', t, k);
      if n <= s.cap {
        assert StoresForGood(s', t, k);
        if !Tracked(s, k) {
          var u :| Stores(s, u, k);
          assert Stores(s', u, k) && u != t;
        }
      } else {
        var u :| StoresForGood(s, u, k);
        assert StoresForGood(s', u, k) && u != t;
      }
    case Delete(t, _) =>
      var u :| StoresForGood(s, u, k);
      assert StoresForGood(s', u, k) && k !in s'.files;
    case Sweep(_) =>
      if BeingStoredForGood(s, k) {
        var u :| StoresForGood(s, u, k);
        assert StoresForGood(s', u, k) && k !in s'.files;
      } else {
        assert forall u | Removes(s', u, k) :: Removes(s, u, k);
      }
  }

  // From here on nothing goes wrong, as long as no further call is risky.
  ghost predicate StaysIntact(s: State) {
    forall acts | Prudent(s, acts) :: Intact(Run(s, acts))
  }

  // The exact condition, for every call from every state of a run without risky calls: tracked chunks keep
  // their files in all prudent runs from then on, if and only if the call is not risky.
  lemma IntactIffPrudent(s: State, a: Action)
    requires Safe(s)
    ensures StaysIntact(Step(s, a)) <==> !Risky(s, a)
  {
    hide Step, Risky, KeyOk, HasFile;
    StepDistinct(s, a);
    if Risky(s, a) {
      var k := RiskyHarms(s, a);
      var acts := Doomed(Step(s, a), k);
    } else {
      StepSafe(s, a);
      SafeStays(Step(s, a));
    }
  }

  lemma SafeStays(s: State)
    requires Safe(s)
    ensures StaysIntact(s)
  {
    hide Run, Prudent, Safe;
    forall acts | Prudent(s, acts)
      ensures Intact(Run(s, acts))
    {
      RunSafe(s, acts);
      SafeIntact(Run(s, acts));
    }
  }

  lemma SafeIntact(s: State)
    requires Safe(s)
    ensures Intact(s)
  {
    hide HasFile;
    forall k
      ensures HasFile(s, k)
    {
      assert KeyOk(s, k);
    }
  }

  // So a cache that starts empty keeps the file of every tracked chunk up to its first risky call, after
  // which some prudent run loses one.
  lemma IntactUntilRisky(cap: nat, acts: seq<Action>, a: Action)
    requires Prudent(Init(cap), acts)
    ensures Intact(Run(Init(cap), acts))
    ensures StaysIntact(Step(Run(Init(cap), acts), a)) <==> !Risky(Run(Init(cap), acts), a)
  {
    assert Safe(Init(cap)) by {
      assert forall t, k :: !Stores(Init(cap), t, k);
    }
    hide Step, Risky, Run, Safe, Init;
    RunSafe(Init(cap), acts);
    SafeIntact(Run(Init(cap), acts));
    IntactIffPrudent(Run(Init(cap), acts), a);
  }
}
