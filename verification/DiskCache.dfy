/** The on-disk chunk cache (src/cache.rs) and the in-memory cache of peer-fetched chunks
    (PeerLru in src/fetcher.rs), proved against the recency list. */
module Caches {
  import opened Core
  import opened Recency

  function SaturatingSub(a: nat, b: nat): nat {
    if a >= b then a - b else 0
  }

  datatype NoValue = NoValue

  datatype Entry = Entry(size: nat, lastAccess: nat)

  ghost function Elements(ks: seq<ChunkKey>): set<ChunkKey> {
    set k | k in ks
  }

  // The bookkeeping of DiskCache: entries by key, keys by access number, and the last number given.
  datatype Books = Books(entries: map<ChunkKey, Entry>, lru: map<nat, ChunkKey>, clock: nat)

  function Untracked(b: Books, key: ChunkKey): Books
    requires key in b.entries
  {
    Books(b.entries - {key}, b.lru - {b.entries[key].lastAccess}, b.clock)
  }

  function Tracked(b: Books, key: ChunkKey, size: nat): Books {
    Books(b.entries[key := Entry(size, b.clock + 1)], b.lru[b.clock + 1 := key], b.clock + 1)
  }

  // The two maps are mutual inverses.
  ghost predicate Inverse(b: Books) {
    && (forall k | k in b.entries ::
          && b.entries[k].lastAccess in b.lru && b.lru[b.entries[k].lastAccess] == k
          && b.entries[k].lastAccess <= b.clock)
    && (forall t | t in b.lru :: b.lru[t] in b.entries && b.entries[b.lru[t]].lastAccess == t)
  }

  // The list names every tracked key ...
  ghost predicate Listed(b: Books, order: seq<Item<NoValue>>) {
    forall k | k in b.entries :: HasKey(order, k)
  }

  // ... and nothing else, with the right sizes ...
  ghost predicate Sized(b: Books, order: seq<Item<NoValue>>) {
    forall i | 0 <= i < |order| :: order[i].key in b.entries && b.entries[order[i].key].size == order[i].size
  }

  // ... by ascending access number.
  ghost predicate Ascending(b: Books, order: seq<Item<NoValue>>) {
    && Sized(b, order)
    && forall i, j | 0 <= i < j < |order| :: b.entries[order[i].key].lastAccess < b.entries[order[j].key].lastAccess
  }

  ghost predicate Refines(b: Books, order: seq<Item<NoValue>>) {
    Inverse(b) && Listed(b, order) && Ascending(b, order)
  }

  lemma AscendingDistinct(b: Books, order: seq<Item<NoValue>>)
    requires Ascending(b, order)
    ensures Distinct(order)
  {
  }

  lemma UntrackInverse(b: Books, key: ChunkKey)
    requires Inverse(b) && key in b.entries
    ensures Inverse(Untracked(b, key))
  {
  }

  lemma UntrackListed(b: Books, order: seq<Item<NoValue>>, i: nat)
    requires Listed(b, order) && i < |order| && order[i].key in b.entries
    ensures Listed(Untracked(b, order[i].key), order[..i] + order[i + 1..])
  {
    var rest := order[..i] + order[i + 1..];
    forall k | k in b.entries && k != order[i].key
      ensures HasKey(rest, k)
    {
      assert HasKey(order, k);
      var j :| 0 <= j < |order| && order[j].key == k;
      assert rest[if j < i then j else j - 1].key == k;
    }
  }

  lemma UntrackAscending(b: Books, order: seq<Item<NoValue>>, i: nat)
    requires Ascending(b, order) && i < |order|
    ensures Ascending(Untracked(b, order[i].key), order[..i] + order[i + 1..])
  {
    AscendingDistinct(b, order);
    var rest := order[..i] + order[i + 1..];
    assert forall j | 0 <= j < |rest| :: rest[j] == order[if j < i then j else j + 1];
    assert Sized(Untracked(b, order[i].key), rest);
  }

  lemma RefinesUntrack(b: Books, order: seq<Item<NoValue>>, key: ChunkKey)
    requires Refines(b, order) && key in b.entries
    ensures Refines(Untracked(b, key), Without(order, {key}))
    ensures Total(Without(order, {key})) == Total(order) - b.entries[key].size
    ensures Find(order, key) == Some(Item(key, b.entries[key].size, NoValue))
  {
    hide Inverse, Total, Without, Find;
    assert HasKey(order, key);
    var i :| 0 <= i < |order| && order[i].key == key;
    assert order[i].value.NoValue? && order[i].size == b.entries[key].size;
    hide Listed, Sized, Ascending;
    UntrackInverse(b, key);
    UntrackListed(b, order, i);
    UntrackAscending(b, order, i);
    AscendingDistinct(b, order);
    FindAt(order, i);
    WithoutAt(order, i);
    UntrackTotal(order, i);
  }

  lemma UntrackTotal(order: seq<Item<NoValue>>, i: nat)
    requires Distinct(order) && i < |order|
    ensures Total(Without(order, {order[i].key})) == Total(order) - order[i].size
  {
    UsedTotal(order, order[i]);
    TotalConcat(Without(order, {order[i].key}), [order[i]]);
  }

  lemma TrackListed(b: Books, order: seq<Item<NoValue>>, key: ChunkKey, size: nat)
    requires Listed(b, order)
    ensures Listed(Tracked(b, key, size), order + [Item(key, size, NoValue)])
  {
    var order' := order + [Item(key, size, NoValue)];
    assert order'[|order|].key == key;
    forall k | k in b.entries
      ensures HasKey(order', k)
    {
      assert HasKey(order, k);
      var j :| 0 <= j < |order| && order[j].key == k;
      assert order'[j].key == k;
    }
  }

  lemma TrackAscending(b: Books, order: seq<Item<NoValue>>, key: ChunkKey, size: nat)
    requires Inverse(b) && Ascending(b, order) && key !in b.entries
    ensures Ascending(Tracked(b, key, size), order + [Item(key, size, NoValue)])
  {
    var order' := order + [Item(key, size, NoValue)];
    assert forall i | 0 <= i < |order| :: order'[i] == order[i] && order[i].key != key;
    assert Sized(Tracked(b, key, size), order');
  }

  lemma TrackInverse(b: Books, key: ChunkKey, size: nat)
    requires Inverse(b) && key !in b.entries
    ensures Inverse(Tracked(b, key, size))
  {
  }

  lemma RefinesTrack(b: Books, order: seq<Item<NoValue>>, key: ChunkKey, size: nat)
    requires Refines(b, order) && key !in b.entries
    ensures Refines(Tracked(b, key, size), order + [Item(key, size, NoValue)])
    ensures Total(order + [Item(key, size, NoValue)]) == Total(order) + size
  {
    hide Inverse, Listed, Sized, Ascending;
    TrackInverse(b, key, size);
    TrackListed(b, order, key, size);
    TrackAscending(b, order, key, size);
    TotalConcat(order, [Item(key, size, NoValue)]);
  }

  lemma RefinesAbsent(b: Books, order: seq<Item<NoValue>>, key: ChunkKey)
    requires Refines(b, order) && key !in b.entries
    ensures Without(order, {key}) == order && Find(order, key) == None
  {
    forall x | x in order
      ensures x.key !in {key}
    {
      var i :| 0 <= i < |order| && order[i] == x;
    }
    WithoutNone(order, {key});
  }

  // While the list is not empty there is a least access number, and it belongs to the head.
  lemma OldestIsHead(b: Books, order: seq<Item<NoValue>>)
    requires Refines(b, order) && order != []
    ensures order[0].key in b.entries
    ensures
      var t := b.entries[order[0].key].lastAccess;
      t in b.lru && b.lru[t] == order[0].key && forall u | u in b.lru :: t <= u
    ensures Without(order, {order[0].key}) == order[1..]
  {
    var t := b.entries[order[0].key].lastAccess;
    forall u | u in b.lru
      ensures t <= u
    {
      assert HasKey(order, b.lru[u]);
      var j :| 0 <= j < |order| && order[j].key == b.lru[u];
    }
    AscendingDistinct(b, order);
    WithoutAt(order, 0);
  }

  /** DiskCache: `entries` by key and `lru` by access number, kept in step; `order` is the recency
      list they refine. */
  lemma OneMoreGone(files: map<ChunkKey, Bytes>, all: set<ChunkKey>, left: set<ChunkKey>, key: ChunkKey)
    requires key in left && left <= all
    ensures files - (all - left) - {key} == files - (all - (left - {key}))
  {
    assert all - (left - {key}) == (all - left) + {key};
  }

  class DiskCache {
    var entries: map<ChunkKey, Entry>
    var lru: map<nat, ChunkKey>
    var clock: nat
    var bytes: nat
    var files: map<ChunkKey, Bytes>
    const maxBytes: nat
    ghost var order: seq<Item<NoValue>>

    ghost predicate Valid()
      reads this
    {
      Refines(Books(entries, lru, clock), order) && bytes == Total(order)
    }

    constructor (maxBytes: nat)
      ensures Valid() && order == [] && this.maxBytes == maxBytes && files == map[]
    {
      entries, lru, clock, bytes, files := map[], map[], 0, 0, map[];
      this.maxBytes := maxBytes;
      order := [];
    }

    // The lines every removal shares: entry, access number, byte count.
    method Untrack(key: ChunkKey) returns (size: nat)
      requires Valid() && key in entries
      modifies this`entries, this`lru, this`bytes, this`order
      ensures Valid() && order == Without(old(order), {key})
      ensures entries == old(entries) - {key} && size == old(entries)[key].size
      ensures bytes == old(bytes) - size && |entries| == |old(entries)| - 1
    {
      hide Inverse, Listed, Ascending;
      RefinesUntrack(Books(entries, lru, clock), order, key);
      var e := entries[key];
      lru := lru - {e.lastAccess};
      entries := entries - {key};
      bytes := SaturatingSub(bytes, e.size);
      order := Without(order, {key});
      size := e.size;
      assert old(entries).Keys == entries.Keys + {key};
    }

    // A new access number for a key that has none.
    method Track(key: ChunkKey, size: nat)
      requires Valid() && key !in entries
      modifies this`entries, this`lru, this`bytes, this`order, this`clock
      ensures Valid() && order == old(order) + [Item(key, size, NoValue)]
      ensures entries == old(entries)[key := Entry(size, clock)] && bytes == old(bytes) + size
    {
      hide Inverse, Listed, Ascending;
      RefinesTrack(Books(entries, lru, clock), order, key, size);
      clock := clock + 1;
      entries := entries[key := Entry(size, clock)];
      lru := lru[clock := key];
      bytes := bytes + size;
      order := order + [Item(key, size, NoValue)];
    }

    method EvictIfNeeded()
      requires Valid()
      modifies this`entries, this`lru, this`bytes, this`order, this`files
      ensures Valid() && order == Evicted(old(order), maxBytes)
      ensures bytes <= maxBytes
      // exactly the files of the evicted entries are deleted
      ensures entries.Keys <= old(entries).Keys && files == old(files) - (old(entries).Keys - entries.Keys)
    {
      hide Inverse, Listed, Ascending;
      assert files == old(files) - (old(entries).Keys - entries.Keys);
      while bytes > maxBytes
        invariant Valid() && Evicted(order, maxBytes) == Evicted(old(order), maxBytes)
        invariant entries.Keys <= old(entries).Keys && files == old(files) - (old(entries).Keys - entries.Keys)
        decreases |order|
      {
        OldestIsHead(Books(entries, lru, clock), order);
        if lru == map[] {
          break;
        }
        var oldest :| oldest in lru && forall t | t in lru :: oldest <= t;
        var key := lru[oldest];
        ghost var before := entries.Keys;
        files := files - {key};
        var _ := Untrack(key);
        OneMoreGone(old(files), old(entries).Keys, before, key);
      }
    }

    // rename() of the finished file, then the bookkeeping under the lock.
    method Insert(key: ChunkKey, data: Bytes)
      requires Valid()
      modifies this
      ensures Valid() && order == Put(old(order), Item(key, |data|, NoValue), maxBytes)
      ensures bytes <= maxBytes
      // the new file is there if its entry is, evicted files are gone, the others are as they were
      ensures key in entries ==> key in files && files[key] == data
      ensures forall k | k != key :: k in entries ==> k in old(entries)
      ensures forall k | k != key :: k in files <==> k in old(files) && (k in old(entries) ==> k in entries)
      ensures forall k | k != key && k in files :: files[k] == old(files)[k]
      ensures key !in entries ==> key !in files
      // so no tracked chunk ever lacks its file through an insert
      ensures old(entries).Keys <= old(files).Keys ==> entries.Keys <= files.Keys
    {
      hide Inverse, Listed, Ascending;
      files := files[key := data];
      if key in entries {
        var _ := Untrack(key);
      } else {
        RefinesAbsent(Books(entries, lru, clock), order, key);
      }
      Track(key, |data|);
      EvictIfNeeded();
    }

    method TouchLru(key: ChunkKey) returns (hit: bool)
      requires Valid()
      modifies this`entries, this`lru, this`bytes, this`order, this`clock
      ensures Valid() && hit == (key in old(entries)) && entries.Keys == old(entries).Keys
      ensures order == Used(old(order), key)
    {
      hide Inverse, Listed, Ascending;
      if key !in entries {
        RefinesAbsent(Books(entries, lru, clock), order, key);
        return false;
      }
      RefinesUntrack(Books(entries, lru, clock), order, key);
      var size := Untrack(key);
      Track(key, size);
      return true;
    }

    method TryGet(key: ChunkKey) returns (r: Option<Bytes>)
      requires Valid()
      modifies this`entries, this`lru, this`bytes, this`order, this`clock
      ensures Valid()
      ensures r == if key in old(entries) && key in files then Some(files[key]) else None
      ensures order == if r.Some? then Used(old(order), key) else old(order)
    {
      hide Inverse, Listed, Ascending;
      if key !in entries || key !in files {
        return None;
      }
      var hit := TouchLru(key);
      r := if hit then Some(files[key]) else None;
    }

    method TryGetRange(key: ChunkKey, offset: nat, len: nat) returns (r: Option<Bytes>)
      requires Valid()
      modifies this`entries, this`lru, this`bytes, this`order, this`clock
      ensures Valid()
      ensures r.Some? && len > 0 ==>
        key in old(entries) && key in files && offset + len <= |files[key]|
        && r.value == files[key][offset..offset + len]
      ensures len == 0 ==> r == Some([])
      ensures r.None? <==>
        len > 0 && !(key in old(entries) && offset + len <= old(entries)[key].size
                     && key in files && offset + len <= |files[key]|)
      ensures order == if r.Some? && len > 0 then Used(old(order), key) else old(order)
    {
      hide Inverse, Listed, Ascending;
      if len == 0 {
        return Some([]);
      }
      if key !in entries || offset + len > entries[key].size || key !in files || offset + len > |files[key]| {
        return None;
      }
      var hit := TouchLru(key);
      r := if hit then Some(files[key][offset..offset + len]) else None;
    }

    method Remove(key: ChunkKey)
      requires Valid()
      modifies this
      ensures Valid() && order == Without(old(order), {key})
      ensures files == old(files) - {key}
    {
      hide Inverse, Listed, Ascending;
      files := files - {key};
      if key in entries {
        var _ := Untrack(key);
      } else {
        RefinesAbsent(Books(entries, lru, clock), order, key);
      }
    }

    // First half of reconcile_with_disk: the tracked keys whose file has vanished.
    method Missing() returns (missing: seq<ChunkKey>)
      ensures forall k :: k in missing <==> k in entries && k !in files
    {
      missing := [];
      var todo := entries.Keys;
      while todo != {}
        invariant todo <= entries.Keys
        invariant forall k :: k in missing <==> k in entries && k !in todo && k !in files
        decreases todo
      {
        var k :| k in todo;
        todo := todo - {k};
        if k !in files {
          missing := missing + [k];
        }
      }
    }

    // Second half, under the lock: by now some of the keys may be gone.
    method DropMissing(missing: seq<ChunkKey>) returns (dropped: nat, reclaimed: nat)
      requires Valid()
      modifies this`entries, this`lru, this`bytes, this`order
      ensures Valid() && order == Without(old(order), Elements(missing))
      ensures reclaimed == old(bytes) - bytes && dropped == |old(entries)| - |entries|
    {
      hide Inverse, Listed, Ascending;
      dropped, reclaimed := 0, 0;
      WithoutNone(order, {});
      assert Elements(missing[..0]) == {};
      for i := 0 to |missing|
        invariant Valid() && order == Without(old(order), Elements(missing[..i]))
        invariant reclaimed + bytes == old(bytes) && dropped + |entries| == |old(entries)|
      {
        var k := missing[i];
        assert Elements(missing[..i + 1]) == Elements(missing[..i]) + {k};
        WithoutUnion(old(order), Elements(missing[..i]), {k});
        if k in entries {
          var size := Untrack(k);
          dropped, reclaimed := dropped + 1, reclaimed + size;
        } else {
          RefinesAbsent(Books(entries, lru, clock), order, k);
        }
      }
      assert missing[..|missing|] == missing;
    }

    method ReconcileWithDisk() returns (dropped: nat, reclaimed: nat)
      requires Valid()
      modifies this`entries, this`lru, this`bytes, this`order
      ensures Valid() && order == Without(old(order), old(entries).Keys - files.Keys)
      ensures reclaimed == old(bytes) - bytes && dropped == |old(entries)| - |entries|
    {
      var missing := Missing();
      assert Elements(missing) == entries.Keys - files.Keys;
      dropped, reclaimed := DropMissing(missing);
    }

    // Returns how many tracked chunks had a file to delete, and their bytes; stray files go as well.
    method ClearAll() returns (removedFiles: nat, removedBytes: nat)
      requires Valid()
      modifies this
      ensures Valid() && order == [] && bytes == 0 && entries == map[] && files == map[]
      ensures removedFiles == |old(entries).Keys * old(files).Keys|
      ensures removedBytes == Total(Without(old(order), old(entries).Keys - old(files).Keys))
    {
      hide Inverse, Listed, Ascending, Total, Without;
      removedFiles, removedBytes := 0, 0;
      ghost var present, missing := entries.Keys * files.Keys, entries.Keys - files.Keys;
      while entries != map[]
        invariant Valid() && entries.Keys <= present + missing
        invariant forall k | k in entries :: k in files <==> k in present
        invariant removedFiles + |entries.Keys * present| == |present|
        invariant removedBytes + Total(Without(order, missing)) == Total(Without(old(order), missing))
        decreases |entries|
      {
        var k :| k in entries;
        BytesWithout(Books(entries, lru, clock), order, k, missing);
        CountWithout(entries.Keys, present, k);
        if k in files {
          removedFiles, removedBytes := removedFiles + 1, removedBytes + entries[k].size;
          files := files - {k};
        }
        var _ := Untrack(k);
      }
      NothingTracked(Books(entries, lru, clock), order, missing);
      lru, bytes, files := map[], 0, map[];
    }
  }

  lemma CountWithout(keys: set<ChunkKey>, present: set<ChunkKey>, k: ChunkKey)
    requires k in keys
    ensures |(keys - {k}) * present| == |keys * present| - if k in present then 1 else 0
    ensures keys * present == present ==> |keys * present| == |present|
  {
    if k in present {
      assert keys * present == (keys - {k}) * present + {k};
    } else {
      assert keys * present == (keys - {k}) * present;
    }
  }

  lemma NothingTracked(b: Books, order: seq<Item<NoValue>>, missing: set<ChunkKey>)
    requires Refines(b, order) && b.entries == map[]
    ensures order == [] && Total(Without(order, missing)) == Total(order) == 0 && Refines(b.(lru := map[]), [])
  {
    HeadTracked(b, order);
  }

  lemma HeadTracked(b: Books, order: seq<Item<NoValue>>)
    ensures Sized(b, order) && order != [] ==> order[0].key in b.entries
  {
  }

  // Dropping a key takes its bytes out of what is counted, unless its file is missing.
  lemma BytesWithout(b: Books, order: seq<Item<NoValue>>, k: ChunkKey, missing: set<ChunkKey>)
    requires Refines(b, order) && k in b.entries
    ensures Total(Without(order, missing)) ==
      Total(Without(Without(order, {k}), missing)) + if k in missing then 0 else b.entries[k].size
  {
    RefinesUntrack(b, order, k);
    AscendingDistinct(b, order);
    hide Refines, Total;
    WithoutUnion(order, {k}, missing);
    WithoutUnion(order, missing, {k});
    assert {k} + missing == missing + {k};
    if k in missing {
      assert missing + {k} == missing;
    } else {
      var x := Item(k, b.entries[k].size, NoValue);
      WithoutMembers(order, missing);
      WithoutDistinct(order, missing);
      var rest := Without(order, missing);
      assert x in rest;
      UsedTotal(rest, x);
      TotalConcat(Without(rest, {k}), [x]);
      TotalOne(x);
    }
  }

  lemma TotalOne<V>(x: Item<V>)
    ensures Total([x]) == x.size
  {
    assert [x] == [x] + [];
  }

  lemma {:induction false} FindAt<V>(l: seq<Item<V>>, i: nat)
    requires Distinct(l) && i < |l|
    ensures Find(l, l[i].key) == Some(l[i])
  {
    if i > 0 {
      assert l[1..][i - 1] == l[i];
      FindAt(l[1..], i - 1);
    }
  }

  /** PeerLru: the list itself is the representation, with a running byte count. */
  class PeerLru {
    var inner: seq<Item<Bytes>>
    var bytes: nat
    const capBytes: nat

    ghost predicate Valid()
      reads this
    {
      && Bounded(inner, capBytes) && bytes == Total(inner)
      && forall i | 0 <= i < |inner| :: inner[i].size == |inner[i].value|
    }

    constructor (cap: nat)
      ensures Valid() && inner == [] && capBytes == cap
    {
      inner, bytes, capBytes := [], 0, cap;
    }

    method Get(key: ChunkKey) returns (r: Option<Bytes>)
      requires Valid()
      modifies this`inner
      ensures Valid() && inner == Used(old(inner), key)
      ensures r.Some? <==> HasKey(old(inner), key)
      ensures r.Some? ==> Item(key, |r.value|, r.value) in inner
    {
      match Find(inner, key)
      case None => return None;
      case Some(x) =>
        ApplyBounded(inner, Use(key), capBytes);
        UsedTotal(inner, x);
        ghost var l := inner;
        WithoutMembers(l, {key});
        inner := Used(inner, key);
        assert forall i | 0 <= i < |inner| :: inner[i] in l;
        return Some(x.value);
    }

    // An oversized value is refused and disturbs nothing; an accepted one is never evicted by its own insert.
    method Put(key: ChunkKey, value: Bytes)
      requires Valid()
      modifies this
      ensures Valid() && bytes <= capBytes
      ensures |value| > capBytes ==> inner == old(inner)
      ensures |value| <= capBytes ==>
        inner == Recency.Put(old(inner), Item(key, |value|, value), capBytes) && HasKey(inner, key)
    {
      if |value| > capBytes {
        return;
      }
      var x := Item(key, |value|, value);
      NewEntryKeptIffItFits(inner, x, capBytes);
      ApplyBounded(inner, Op.Insert(x), capBytes);
      ghost var l := inner;
      var prev := Find(inner, key);
      if prev.Some? {
        UsedTotal(inner, prev.value);
        TotalConcat(Without(inner, {key}), [prev.value]);
        bytes := SaturatingSub(bytes, prev.value.size);
      } else {
        forall y | y in inner
          ensures y.key !in {key}
        {
          var i :| 0 <= i < |inner| && inner[i] == y;
        }
        WithoutNone(inner, {key});
      }
      inner := Without(inner, {key}) + [x];
      TotalConcat(Without(l, {key}), [x]);
      bytes := bytes + |value|;
      ghost var all := inner;
      WithoutMembers(l, {key});
      while bytes > capBytes
        invariant bytes == Total(inner) && Evicted(inner, capBytes) == Evicted(all, capBytes)
        invariant forall y | y in inner :: y in all
        decreases |inner|
      {
        if inner == [] {
          break;
        }
        bytes := SaturatingSub(bytes, inner[0].size);
        inner := inner[1..];
      }
      assert inner == Recency.Put(l, x, capBytes);
      forall i | 0 <= i < |inner|
        ensures inner[i].size == |inner[i].value|
      {
        assert inner[i] in all;
      }
    }

    method Clear()
      modifies this
      ensures Valid() && inner == []
    {
      inner, bytes := [], 0;
    }
  }
}
