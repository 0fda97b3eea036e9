/** A byte-bounded LRU cache as a list of entries, from least to most recently used. Both caches of
    the daemon are proved against it. */
module Recency {
  import opened Core

  datatype Item<V> = Item(key: ChunkKey, size: nat, value: V)

  function Total<V>(l: seq<Item<V>>): nat {
    if l == [] then 0 else l[0].size + Total(l[1..])
  }

  ghost predicate Distinct<V>(l: seq<Item<V>>) {
    forall i, j | 0 <= i < j < |l| :: l[i].key != l[j].key
  }

  ghost predicate HasKey<V>(l: seq<Item<V>>, k: ChunkKey) {
    exists i :: 0 <= i < |l| && l[i].key == k
  }

  function Find<V>(l: seq<Item<V>>, k: ChunkKey): (r: Option<Item<V>>)
    ensures r.Some? <==> HasKey(l, k)
    ensures r.Some? ==> r.value in l && r.value.key == k
  {
    if l == [] then None
    else if l[0].key == k then Some(l[0])
    else
      assert HasKey(l, k) ==> HasKey(l[1..], k);
      Find(l[1..], k)
  }

  function Without<V>(l: seq<Item<V>>, ks: set<ChunkKey>): seq<Item<V>> {
    if l == [] then []
    else if l[0].key in ks then Without(l[1..], ks)
    else [l[0]] + Without(l[1..], ks)
  }

  lemma {:induction false} WithoutMembers<V>(l: seq<Item<V>>, ks: set<ChunkKey>)
    ensures forall x | x in Without(l, ks) :: x in l && x.key !in ks
    ensures forall x | x in l && x.key !in ks :: x in Without(l, ks)
  {
    if l != [] {
      WithoutMembers(l[1..], ks);
      assert l == [l[0]] + l[1..];
    }
  }

  // Drop from the old end until the rest fits.
  function Evicted<V>(l: seq<Item<V>>, cap: nat): seq<Item<V>> {
    if l == [] || Total(l) <= cap then l else Evicted(l[1..], cap)
  }

  function Put<V>(l: seq<Item<V>>, x: Item<V>, cap: nat): seq<Item<V>> {
    Evicted(Without(l, {x.key}) + [x], cap)
  }

  function Used<V>(l: seq<Item<V>>, k: ChunkKey): seq<Item<V>> {
    match Find(l, k)
    case None => l
    case Some(x) => Without(l, {k}) + [x]
  }

  lemma {:induction false} TotalConcat<V>(a: seq<Item<V>>, b: seq<Item<V>>)
    ensures Total(a + b) == Total(a) + Total(b)
  {
    if a == [] {
      assert a + b == b;
    } else {
      assert (a + b)[1..] == a[1..] + b;
      TotalConcat(a[1..], b);
    }
  }

  lemma TotalSuffix<V>(l: seq<Item<V>>, m: nat)
    requires m <= |l|
    ensures Total(l[m..]) <= Total(l)
  {
    assert l == l[..m] + l[m..];
    TotalConcat(l[..m], l[m..]);
  }

  lemma {:induction false} WithoutNone<V>(l: seq<Item<V>>, ks: set<ChunkKey>)
    requires forall x | x in l :: x.key !in ks
    ensures Without(l, ks) == l
  {
    if l != [] {
      WithoutNone(l[1..], ks);
    }
  }

  // Removing the key of entry i removes that entry.
  lemma {:induction false} WithoutAt<V>(l: seq<Item<V>>, i: nat)
    requires Distinct(l) && i < |l|
    ensures Without(l, {l[i].key}) == l[..i] + l[i + 1..]
  {
    if i == 0 {
      forall x | x in l[1..]
        ensures x.key != l[0].key
      {
        var j :| 0 <= j < |l[1..]| && l[1..][j] == x;
        assert l[j + 1] == x;
      }
      WithoutNone(l[1..], {l[0].key});
    } else {
      WithoutAt(l[1..], i - 1);
      assert l[1..][i - 1] == l[i];
      assert [l[0]] + (l[1..][..i - 1] + l[1..][i..]) == l[..i] + l[i + 1..];
    }
  }

  lemma {:induction false} WithoutDistinct<V>(l: seq<Item<V>>, ks: set<ChunkKey>)
    requires Distinct(l)
    ensures Distinct(Without(l, ks))
    ensures Total(Without(l, ks)) <= Total(l)
  {
    if l != [] {
      WithoutDistinct(l[1..], ks);
      var r := Without(l[1..], ks);
      WithoutMembers(l[1..], ks);
      forall j | 0 <= j < |r|
        ensures r[j].key != l[0].key
      {
        assert r[j] in l[1..];
      }
    }
  }

  // Removing two sets of keys one after the other.
  lemma {:induction false} WithoutUnion<V>(l: seq<Item<V>>, a: set<ChunkKey>, b: set<ChunkKey>)
    ensures Without(Without(l, a), b) == Without(l, a + b)
  {
    if l != [] {
      WithoutUnion(l[1..], a, b);
    }
  }

  // Eviction keeps the longest recent part that fits: it drops the shortest possible old prefix.
  lemma {:induction false} EvictedIsLongestSuffix<V>(l: seq<Item<V>>, cap: nat)
    ensures
      var r := Evicted(l, cap);
      && |r| <= |l| && r == l[|l| - |r|..] && Total(r) <= cap
      && forall m: nat | m < |l| - |r| :: Total(l[m..]) > cap
  {
    if l != [] && Total(l) > cap {
      EvictedIsLongestSuffix(l[1..], cap);
      var r := Evicted(l, cap);
      forall m: nat | m < |l| - |r|
        ensures Total(l[m..]) > cap
      {
        if m > 0 {
          assert l[m..] == l[1..][m - 1..];
        }
      }
    }
  }

  // Which entries an insert leaves: entry i of what was there (without the inserted key) survives
  // exactly when it and everything more recent fit together; so the new entry goes only if it alone
  // exceeds the cap.
  lemma PutSurvivors<V>(l: seq<Item<V>>, x: Item<V>, cap: nat, i: nat)
    requires Distinct(l) && i <= |Without(l, {x.key})|
    ensures
      var all := Without(l, {x.key}) + [x];
      HasKey(Put(l, x, cap), all[i].key) <==> Total(all[i..]) <= cap
  {
    hide Evicted, Total, Without, Distinct;
    var all := Without(l, {x.key}) + [x];
    var r := Put(l, x, cap);
    AppendDistinct(l, x);
    EvictedIsLongestSuffix(all, cap);
    var n := |all| - |r|;
    SuffixKeys(all, n, i);
    if i >= n {
      TotalSuffix(all[n..], i - n);
      assert all[n..][i - n..] == all[i..];
    }
  }

  lemma SuffixKeys<V>(l: seq<Item<V>>, n: nat, i: nat)
    requires Distinct(l) && n <= |l| && i < |l|
    ensures HasKey(l[n..], l[i].key) <==> i >= n
  {
    if i >= n {
      assert l[n..][i - n] == l[i];
    }
    forall j | 0 <= j < |l[n..]| && l[n..][j].key == l[i].key
      ensures i >= n
    {
      assert l[n..][j] == l[j + n];
    }
  }

  lemma NewEntryKeptIffItFits<V>(l: seq<Item<V>>, x: Item<V>, cap: nat)
    requires Distinct(l)
    ensures HasKey(Put(l, x, cap), x.key) <==> x.size <= cap
  {
    var w := Without(l, {x.key});
    PutSurvivors(l, x, cap, |w|);
    assert (w + [x])[|w|..] == [x];
    assert Total([x]) == x.size;
  }

  // ---- Runs ----

  datatype Op<V> = Insert(item: Item<V>) | Use(key: ChunkKey) | Drop(keys: set<ChunkKey>)

  function Apply<V>(l: seq<Item<V>>, op: Op<V>, cap: nat): seq<Item<V>> {
    match op
    case Insert(x) => Put(l, x, cap)
    case Use(k) => Used(l, k)
    case Drop(ks) => Without(l, ks)
  }

  function Run<V>(l: seq<Item<V>>, ops: seq<Op<V>>, cap: nat): seq<Item<V>>
    decreases |ops|
  {
    if ops == [] then l else Run(Apply(l, ops[0], cap), ops[1..], cap)
  }

  ghost predicate Bounded<V>(l: seq<Item<V>>, cap: nat) {
    Distinct(l) && Total(l) <= cap
  }

  lemma AppendDistinct<V>(l: seq<Item<V>>, x: Item<V>)
    requires Distinct(l)
    ensures Distinct(Without(l, {x.key}) + [x])
  {
    WithoutDistinct(l, {x.key});
    WithoutMembers(l, {x.key});
    var w := Without(l, {x.key});
    assert forall j | 0 <= j < |w| :: w[j] in w;
  }

  lemma {:induction false} UsedTotal<V>(l: seq<Item<V>>, x: Item<V>)
    requires Distinct(l) && x in l
    ensures Total(Without(l, {x.key}) + [x]) == Total(l)
  {
    var i :| 0 <= i < |l| && l[i] == x;
    WithoutAt(l, i);
    TotalConcat(l[..i] + l[i + 1..], [x]);
    TotalConcat(l[..i], l[i + 1..]);
    assert l[i..] == [x] + l[i + 1..];
    TotalConcat(l[..i], l[i..]);
    assert l[..i] + l[i..] == l;
  }

  lemma ApplyBounded<V>(l: seq<Item<V>>, op: Op<V>, cap: nat)
    requires Bounded(l, cap)
    ensures Bounded(Apply(l, op, cap), cap)
  {
    match op
    case Insert(x) =>
      AppendDistinct(l, x);
      EvictedIsLongestSuffix(Without(l, {x.key}) + [x], cap);
    case Use(k) =>
      if Find(l, k).Some? {
        AppendDistinct(l, Find(l, k).value);
        UsedTotal(l, Find(l, k).value);
      }
    case Drop(ks) =>
      WithoutDistinct(l, ks);
  }

  // Over any run the cache stays within its cap and lists no key twice.
  lemma {:induction false} RunBounded<V>(l: seq<Item<V>>, ops: seq<Op<V>>, cap: nat)
    requires Bounded(l, cap)
    ensures Bounded(Run(l, ops, cap), cap)
    decreases |ops|
  {
    if ops != [] {
      ApplyBounded(l, ops[0], cap);
      RunBounded(Apply(l, ops[0], cap), ops[1..], cap);
    }
  }

  // ---- A larger cache holds everything a smaller one holds ----

  ghost predicate SuffixOf<V>(a: seq<Item<V>>, b: seq<Item<V>>) {
    |a| <= |b| && a == b[|b| - |a|..]
  }

  // Reading a chunk through the cache: a hit refreshes it, a miss fetches and inserts it.
  function Access<V>(l: seq<Item<V>>, x: Item<V>, cap: nat): seq<Item<V>> {
    if Find(l, x.key).Some? then Used(l, x.key) else Put(l, x, cap)
  }

  function Accesses<V>(l: seq<Item<V>>, xs: seq<Item<V>>, cap: nat): seq<Item<V>>
    decreases |xs|
  {
    if xs == [] then l else Accesses(Access(l, xs[0], cap), xs[1..], cap)
  }

  // The chunks of the blobs do not change: a key always comes with the same contents.
  ghost predicate Immutable<V(!new)>(content: ChunkKey -> Item<V>, xs: seq<Item<V>>) {
    forall x | x in xs :: content(x.key) == x
  }

  lemma AccessIsPut<V(!new)>(content: ChunkKey -> Item<V>, l: seq<Item<V>>, x: Item<V>, cap: nat)
    requires Bounded(l, cap) && Immutable(content, l) && content(x.key) == x
    ensures Access(l, x, cap) == Put(l, x, cap)
    ensures Bounded(Put(l, x, cap), cap) && Immutable(content, Put(l, x, cap))
  {
    if Find(l, x.key).Some? {
      UsedTotal(l, x);
    }
    var all := Without(l, {x.key}) + [x];
    EvictedIsLongestSuffix(all, cap);
    ApplyBounded(l, Insert(x), cap);
    WithoutMembers(l, {x.key});
    forall y | y in Put(l, x, cap)
      ensures content(y.key) == y
    {
      assert y in all;
    }
  }

  lemma {:induction false} WithoutSuffix<V>(a: seq<Item<V>>, b: seq<Item<V>>, ks: set<ChunkKey>)
    requires SuffixOf(a, b)
    ensures SuffixOf(Without(a, ks), Without(b, ks))
  {
    if |a| < |b| {
      assert SuffixOf(a, b[1..]);
      WithoutSuffix(a, b[1..], ks);
    }
  }

  lemma EvictedSuffix<V>(a: seq<Item<V>>, b: seq<Item<V>>, small: nat, large: nat)
    requires SuffixOf(a, b) && small <= large
    ensures SuffixOf(Evicted(a, small), Evicted(b, large))
  {
    hide Evicted, Total;
    EvictedIsLongestSuffix(a, small);
    EvictedIsLongestSuffix(b, large);
    var r, q := Evicted(a, small), Evicted(b, large);
    SuffixTrans(r, a, b);
    var m := |b| - |r|;
    assert Total(b[m..]) <= large;
    assert m >= |b| - |q|;
    SuffixesNest(r, q, b);
  }

  lemma SuffixTrans<V>(r: seq<Item<V>>, a: seq<Item<V>>, b: seq<Item<V>>)
    requires SuffixOf(r, a) && SuffixOf(a, b)
    ensures SuffixOf(r, b)
  {
    assert b[|b| - |a|..][|a| - |r|..] == b[|b| - |r|..];
  }

  lemma SuffixesNest<V>(r: seq<Item<V>>, q: seq<Item<V>>, b: seq<Item<V>>)
    requires SuffixOf(r, b) && SuffixOf(q, b) && |r| <= |q|
    ensures SuffixOf(r, q)
  {
    assert b[|b| - |q|..][|q| - |r|..] == b[|b| - |r|..];
  }

  lemma {:induction false} LargerCacheIncludesSmaller<V(!new)>(
      content: ChunkKey -> Item<V>, a: seq<Item<V>>, b: seq<Item<V>>, xs: seq<Item<V>>, small: nat, large: nat)
    requires small <= large && Immutable(content, xs) && Immutable(content, b)
    requires Bounded(a, small) && Bounded(b, large) && SuffixOf(a, b)
    ensures SuffixOf(Accesses(a, xs, small), Accesses(b, xs, large))
    decreases |xs|
  {
    if xs != [] {
      var x := xs[0];
      AccessIsPut(content, a, x, small);
      AccessIsPut(content, b, x, large);
      WithoutSuffix(a, b, {x.key});
      var wa, wb := Without(a, {x.key}), Without(b, {x.key});
      assert (wb + [x])[|wb| - |wa|..] == wb[|wb| - |wa|..] + [x];
      EvictedSuffix(wa + [x], wb + [x], small, large);
      LargerCacheIncludesSmaller(content, Access(a, x, small), Access(b, x, large), xs[1..], small, large);
    }
  }
}
