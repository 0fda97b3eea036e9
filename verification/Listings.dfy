/** Listings and lookups of the FUSE layer (ensure_dir_listed and lookup in src/fuse_fs.rs): how a
    listing is merged into the inode table, what it drops, and what any sequence of them keeps. */
module Listings {
  import opened Core
  import opened Inodes
  import Paths

  datatype Blob = Blob(name: string, size: nat)

  // The table, and the inodes some listing has dropped so far.
  datatype Snapshot = Snapshot(tree: Tree, dropped: set<nat>)

  // A merge in progress: the table and the names seen.
  datatype Merge = Merge(tree: Tree, seen: set<string>)

  // ---- What a listing does ----

  // One entry of a listing: added unless it is new and the directory is full.
  function Observed(m: Merge, d: nat, name: string, kind: Kind): Merge {
    if |KidsOf(m.tree, d)| >= MAX_CHILDREN_PER_DIR && Entry(d, name) !in m.tree.index then m
    else Merge(Added(m.tree, d, name, kind), m.seen + {name})
  }

  function ObservedPrefixes(m: Merge, d: nat, ps: seq<string>): Merge {
    if ps == [] then m
    else
      var m', rel := ObservedPrefixes(m, d, ps[..|ps| - 1]), Paths.TrimEnd(ps[|ps| - 1]);
      if rel == "" then m' else Observed(m', d, rel, Dir(false))
  }

  function ObservedBlobs(m: Merge, d: nat, bs: seq<Blob>): Merge {
    if bs == [] then m
    else
      var m', b := ObservedBlobs(m, d, bs[..|bs| - 1]), bs[|bs| - 1];
      if b.name == "" || '/' in b.name then m' else Observed(m', d, b.name, File(b.size))
  }

  // The delta-delete.
  function DroppedAll(s: Snapshot, d: nat, stale: seq<nat>): Snapshot {
    if stale == [] then s
    else
      var s', c := DroppedAll(s, d, stale[..|stale| - 1]), stale[|stale| - 1];
      if c in s.tree.byIno
      then Snapshot(Dropped(s'.tree, d, s.tree.byIno[c].name, c), s'.dropped + {c})
      else s'
  }

  function Loaded(t: Tree, d: nat): Tree {
    if d in t.byIno then t.(byIno := t.byIno[d := t.byIno[d].(kind := Dir(true))]) else t
  }

  function Listing(t: Tree, d: nat, ps: seq<string>, bs: seq<Blob>): Merge {
    ObservedBlobs(ObservedPrefixes(Merge(t, {}), d, ps), d, bs)
  }

  // The whole merge of a listing of d: subdirectories, then files, then the names that are gone.
  function Listed(s: Snapshot, d: nat, ps: seq<string>, bs: seq<Blob>): Snapshot {
    var m := Listing(s.tree, d, ps, bs);
    var s' := DroppedAll(Snapshot(m.tree, s.dropped), d, Stale(m.tree, KidsOf(m.tree, d), m.seen));
    Snapshot(Loaded(s'.tree, d), s'.dropped)
  }

  // The names of a listing that can be children of the listed directory, below its prefix.
  ghost function ListedNames(prefixes: seq<string>, blobs: seq<Blob>): set<string> {
    (set i | 0 <= i < |prefixes| && Paths.TrimEnd(prefixes[i]) != "" :: Paths.TrimEnd(prefixes[i]))
    + (set i | 0 <= i < |blobs| && blobs[i].name != "" && '/' !in blobs[i].name :: blobs[i].name)
  }

  lemma NextPrefix(prefixes: seq<string>, i: nat)
    requires i < |prefixes|
    ensures
      var rel := Paths.TrimEnd(prefixes[i]);
      var before := ListedNames(prefixes[..i], []);
      ListedNames(prefixes[..i + 1], []) == if rel == "" then before else before + {rel}
  {
    var a, b := prefixes[..i], prefixes[..i + 1];
    assert b == a + [prefixes[i]];
    forall n
      ensures n in ListedNames(b, []) <==> n in ListedNames(a, []) || (n == Paths.TrimEnd(prefixes[i]) && n != "")
    {
      if n in ListedNames(a, []) {
        var j :| 0 <= j < |a| && Paths.TrimEnd(a[j]) == n && n != "";
        assert b[j] == a[j];
      }
      if n == Paths.TrimEnd(prefixes[i]) && n != "" {
        assert b[i] == prefixes[i];
      }
    }
  }

  lemma NextBlob(prefixes: seq<string>, blobs: seq<Blob>, i: nat)
    requires i < |blobs|
    ensures
      var rel := blobs[i].name;
      var before := ListedNames(prefixes, blobs[..i]);
      ListedNames(prefixes, blobs[..i + 1]) == if rel == "" || '/' in rel then before else before + {rel}
  {
    var a, b := blobs[..i], blobs[..i + 1];
    assert b == a + [blobs[i]];
    var x := set j | 0 <= j < |a| && a[j].name != "" && '/' !in a[j].name :: a[j].name;
    var y := set j | 0 <= j < |b| && b[j].name != "" && '/' !in b[j].name :: b[j].name;
    forall n
      ensures n in y <==> n in x || (n == blobs[i].name && n != "" && '/' !in n)
    {
      if n in x {
        var j :| 0 <= j < |a| && a[j].name == n && n != "" && '/' !in n;
        assert b[j] == a[j];
      }
      if n == blobs[i].name && n != "" && '/' !in n {
        assert b[i] == blobs[i];
      }
    }
  }

  // The state of a merge in progress.
  ghost predicate Merging(t0: Tree, t: Tree, dropped: set<nat>, d: nat, seen: set<string>, listed: set<string>) {
    && ExtendsIndex(t0, t, d) && ExtendsNodes(t0, t)
    && (d !in dropped ==> Capped(Names(t0, d), seen, listed) && Names(t, d) == Names(t0, d) + seen)
  }

  lemma StartMerging(t: Tree, dropped: set<nat>, d: nat)
    ensures Merging(t, t, dropped, d, {}, ListedNames([], []))
    ensures forall ps: seq<string>, bs: seq<Blob> | ps == [] && bs == [] :: ListedNames(ps, bs) == {}
  {
  }

  lemma NameIsEntry(t: Tree, d: nat, n: string)
    ensures n in Names(t, d) <==> Entry(d, n) in t.index
  {
  }

  lemma LiveKids(t: Tree, dropped: set<nat>, d: nat)
    requires Consistent(t, dropped) && IsDir(t, d) && d !in dropped
    ensures |KidsOf(t, d)| == |Names(t, d)|
  {
    assert Matches(t, d);
    hide Rooted, ListsOk, Numbered;
    KidsCount(t, d);
  }

  lemma ConsistentNumbered(t: Tree, dropped: set<nat>)
    requires Consistent(t, dropped)
    ensures Numbered(t)
  {
  }

  lemma AddedStaysDir(t: Tree, d: nat, name: string, kind: Kind)
    requires Numbered(t) && IsDir(t, d)
    ensures IsDir(Added(t, d, name, kind), d)
  {
  }

  ghost predicate InMerge(t0: Tree, m: Merge, dropped: set<nat>, d: nat, listed: set<string>) {
    Consistent(m.tree, dropped) && IsDir(m.tree, d) && Merging(t0, m.tree, dropped, d, m.seen, listed)
  }

  lemma ObservedOk(t0: Tree, m: Merge, dropped: set<nat>, d: nat, listed: set<string>, name: string, kind: Kind)
    requires InMerge(t0, m, dropped, d, listed)
    ensures InMerge(t0, Observed(m, d, name, kind), dropped, d, listed + {name})
  {
    hide Consistent, Numbered, ExtendsIndex, ExtendsNodes, Capped, Added, Names, KidsOf, IsDir;
    var t := m.tree;
    ConsistentNumbered(t, dropped);
    var had := Names(t0, d);
    NameIsEntry(t, d, name);
    if d !in dropped {
      LiveKids(t, dropped, d);
    }
    if |KidsOf(t, d)| >= MAX_CHILDREN_PER_DIR && Entry(d, name) !in t.index {
      if d !in dropped {
        CappedReject(had, m.seen, listed, name);
      }
    } else {
      AddedStaysDir(t, d, name, kind);
      AddedOk(t, dropped, d, name, kind);
      ExtendsAdded(t0, t, d, name, kind);
      AddedNames(t, d, name, kind);
      if d !in dropped {
        CappedAccept(had, m.seen, listed, name);
        assert Names(t, d) + {name} == had + (m.seen + {name});
      }
    }
  }

  lemma {:induction false} PrefixesOk(t: Tree, dropped: set<nat>, d: nat, ps: seq<string>)
    requires Consistent(t, dropped) && IsDir(t, d)
    ensures InMerge(t, ObservedPrefixes(Merge(t, {}), d, ps), dropped, d, ListedNames(ps, []))
  {
    hide Consistent, Merging, ListedNames, Observed;
    if ps == [] {
      StartMerging(t, dropped, d);
    } else {
      var init := ps[..|ps| - 1];
      PrefixesOk(t, dropped, d, init);
      NextPrefix(ps, |ps| - 1);
      assert ps[..|ps| - 1 + 1] == ps;
      var rel := Paths.TrimEnd(ps[|ps| - 1]);
      if rel != "" {
        ObservedOk(t, ObservedPrefixes(Merge(t, {}), d, init), dropped, d, ListedNames(init, []), rel, Dir(false));
      }
    }
  }

  lemma {:induction false} ListingOk(t: Tree, dropped: set<nat>, d: nat, ps: seq<string>, bs: seq<Blob>)
    requires Consistent(t, dropped) && IsDir(t, d)
    ensures InMerge(t, Listing(t, d, ps, bs), dropped, d, ListedNames(ps, bs))
  {
    hide Consistent, Merging, ListedNames, Observed;
    if bs == [] {
      PrefixesOk(t, dropped, d, ps);
    } else {
      var init, b := bs[..|bs| - 1], bs[|bs| - 1];
      ListingOk(t, dropped, d, ps, init);
      NextBlob(ps, bs, |bs| - 1);
      assert bs[..|bs| - 1 + 1] == bs;
      if b.name != "" && '/' !in b.name {
        ObservedOk(t, Listing(t, d, ps, init), dropped, d, ListedNames(ps, init), b.name, File(b.size));
      }
    }
  }

  // What the delta-delete is about to drop.
  ghost predicate Droppable(t: Tree, dropped: set<nat>, d: nat, stale: seq<nat>) {
    && (forall k | k in stale :: IsChild(t, d, k) && d < k)
    && (d !in dropped ==> Distinct(stale) && forall k | k in stale :: Indexed(t, d, k))
  }

  lemma StaleFacts(t: Tree, dropped: set<nat>, d: nat, seen: set<string>)
    requires Consistent(t, dropped) && IsDir(t, d)
    ensures Droppable(t, dropped, d, Stale(t, KidsOf(t, d), seen))
    ensures Shed(t, t, d, [])
  {
    var stale := Stale(t, KidsOf(t, d), seen);
    forall k | k in stale
      ensures IsChild(t, d, k) && d < k
    {
      assert IsChild(t, d, k) && ParentOk(t, k);
    }
    if d !in dropped {
      assert Matches(t, d);
      StaleDistinct(t, t.children[d], seen);
      assert forall k | k in stale :: k in t.children[d] && Indexed(t, d, k);
    }
  }

  lemma DropStep(t1: Tree, t: Tree, dropped0: set<nat>, dropped: set<nat>, d: nat, stale: seq<nat>, i: nat)
    requires Droppable(t1, dropped0, d, stale) && i < |stale|
    requires Shed(t1, t, d, stale[..i]) && Consistent(t, dropped) && dropped0 <= dropped
    requires d !in dropped0 ==> d !in dropped
    ensures
      var c := stale[i];
      && c in t1.byIno && c in t.byIno && d != c
      && Consistent(Dropped(t, d, t.byIno[c].name, c), dropped + {c})
      && Shed(t1, Dropped(t, d, t.byIno[c].name, c), d, stale[..i] + [c])
  {
    var c := stale[i];
    assert c in stale;
    assert IsChild(t1, d, c) && IsChild(t, d, c);
    if d !in dropped {
      assert c !in stale[..i];
      StillIndexed(t1, t, d, stale[..i], c);
    }
    hide Consistent, Indexed, Distinct;
    DroppedOk(t, dropped, d, c);
    ShedStep(t1, t, d, stale[..i], c);
  }

  lemma {:induction false} DroppedAllOk(s: Snapshot, d: nat, stale: seq<nat>, i: nat)
    requires Consistent(s.tree, s.dropped) && Droppable(s.tree, s.dropped, d, stale) && i <= |stale|
    ensures
      var s' := DroppedAll(s, d, stale[..i]);
      && Consistent(s'.tree, s'.dropped) && s'.dropped == s.dropped + (set c | c in stale[..i])
      && Shed(s.tree, s'.tree, d, stale[..i]) && (d !in s.dropped ==> d !in s'.dropped)
  {
    if i == 0 {
      ShedNothing(s.tree, d);
    } else {
      hide Consistent, Shed;
      DroppedAllOk(s, d, stale, i - 1);
      var s' := DroppedAll(s, d, stale[..i - 1]);
      assert stale[..i] == stale[..i - 1] + [stale[i - 1]] && stale[..i][..i - 1] == stale[..i - 1];
      DropStep(s.tree, s'.tree, s.dropped, s'.dropped, d, stale, i - 1);
      ShedKeepsNodes(s.tree, s'.tree, d, stale[..i - 1]);
    }
  }

  lemma ShedNothing(t: Tree, d: nat)
    ensures forall none: seq<nat> | none == [] :: Shed(t, t, d, none)
  {
  }

  lemma ShedKeepsNodes(t1: Tree, t: Tree, d: nat, gone: seq<nat>)
    requires Shed(t1, t, d, gone)
    ensures t.byIno == t1.byIno && t.next == t1.next
  {
  }

  // What a whole listing of d does.
  ghost predicate ListedAs(t0: Tree, dropped0: set<nat>, t: Tree, dropped: set<nat>, d: nat, listed: set<string>) {
    && Consistent(t, dropped) && dropped0 <= dropped && ExtendsNodes(t0, t)
    && EntriesKept(t0, t, d)
    && (d !in dropped0 ==> d !in dropped && Shows(Names(t0, d), Names(t, d), listed))
  }

  // The directory shows nothing that is not listed, keeps what is listed, and shows exactly what is
  // listed if and only if that was all known or fits under the cap.
  ghost predicate Shows(had: set<string>, shown: set<string>, listed: set<string>) {
    && listed * had <= shown <= listed
    && (shown == listed <==> listed <= had || |had + listed| <= MAX_CHILDREN_PER_DIR)
  }

  lemma MergedNames(t0: Tree, dropped: set<nat>, t1: Tree, t2: Tree, d: nat, seen: set<string>, listed: set<string>)
    requires Consistent(t1, dropped) && IsDir(t1, d) && d !in dropped && Merging(t0, t1, dropped, d, seen, listed)
    requires Shed(t1, t2, d, Stale(t1, KidsOf(t1, d), seen))
    ensures Shows(Names(t0, d), Names(t2, d), listed)
  {
    assert Matches(t1, d);
    hide Rooted, ListsOk, Numbered, Names, Stale, Shed;
    ShedNames(t1, t2, d, seen);
    SeenAllIff(Names(t0, d), seen, listed);
  }

  // The entries after a listing.
  ghost predicate EntriesKept(t0: Tree, t: Tree, d: nat) {
    // other directories keep their entries
    && (forall e: Entry | e.dir != d
        :: (e in t.index <==> e in t0.index) && (e in t.index ==> t.index[e] == t0.index[e]))
    // surviving names keep their inode, new ones get a new inode
    && (forall e | e in t.index && e.dir == d
        :: if e in t0.index then t.index[e] == t0.index[e] else t.index[e] >= t0.next)
  }

  lemma MergedEntries(t0: Tree, t1: Tree, t2: Tree, d: nat, gone: seq<nat>)
    requires ExtendsIndex(t0, t1, d) && ExtendsNodes(t0, t1) && Shed(t1, t2, d, gone)
    ensures EntriesKept(t0, t2, d) && ExtendsNodes(t0, t2)
  {
    hide NamesOf;
  }

  lemma Merged(t0: Tree, dropped0: set<nat>, t1: Tree, t2: Tree, dropped: set<nat>, d: nat,
               seen: set<string>, listed: set<string>)
    requires Consistent(t1, dropped0) && IsDir(t1, d) && Merging(t0, t1, dropped0, d, seen, listed)
    requires Consistent(t2, dropped) && dropped0 <= dropped && (d !in dropped0 ==> d !in dropped)
    requires Shed(t1, t2, d, Stale(t1, KidsOf(t1, d), seen))
    ensures ListedAs(t0, dropped0, t2, dropped, d, listed) && IsDir(t2, d)
  {
    hide Consistent, Stale, Names, Shows, ExtendsNodes, ExtendsIndex, EntriesKept;
    MergedEntries(t0, t1, t2, d, Stale(t1, KidsOf(t1, d), seen));
    if d !in dropped0 {
      MergedNames(t0, dropped0, t1, t2, d, seen, listed);
    }
  }

  lemma MarkLoaded(t: Tree, t': Tree, dropped: set<nat>, d: nat)
    requires Consistent(t, dropped) && IsDir(t, d) && t' == t.(byIno := t.byIno[d := t.byIno[d].(kind := Dir(true))])
    ensures Consistent(t', dropped)
  {
    SameShapeOk(t, t', dropped);
  }

  lemma LoadedListed(t0: Tree, dropped0: set<nat>, t: Tree, t': Tree, dropped: set<nat>, d: nat, listed: set<string>)
    requires ListedAs(t0, dropped0, t, dropped, d, listed) && Consistent(t', dropped)
    requires IsDir(t, d) && t' == t.(byIno := t.byIno[d := t.byIno[d].(kind := Dir(true))])
    ensures ListedAs(t0, dropped0, t', dropped, d, listed)
  {
    hide Consistent, Shows, Names, ExtendsNodes;
    SameNames(t, t', d);
    LoadedNodes(t0, t, t', d);
  }

  lemma SameNames(t: Tree, t': Tree, d: nat)
    requires t'.index == t.index
    ensures Names(t', d) == Names(t, d)
  {
  }

  lemma LoadedNodes(t0: Tree, t: Tree, t': Tree, d: nat)
    requires ExtendsNodes(t0, t) && IsDir(t, d) && t' == t.(byIno := t.byIno[d := t.byIno[d].(kind := Dir(true))])
    ensures ExtendsNodes(t0, t')
  {
  }

  // What a listing of any directory does to a consistent table.
  lemma ListedOk(s: Snapshot, d: nat, ps: seq<string>, bs: seq<Blob>)
    requires Consistent(s.tree, s.dropped) && IsDir(s.tree, d)
    ensures
      var s' := Listed(s, d, ps, bs);
      ListedAs(s.tree, s.dropped, s'.tree, s'.dropped, d, ListedNames(ps, bs))
  {
    hide Consistent, Merging, Stale, Shed, ListedAs, DroppedAll, Listing, Droppable;
    ListingOk(s.tree, s.dropped, d, ps, bs);
    var m := Listing(s.tree, d, ps, bs);
    var stale := Stale(m.tree, KidsOf(m.tree, d), m.seen);
    var s1 := Snapshot(m.tree, s.dropped);
    StaleFacts(m.tree, s.dropped, d, m.seen);
    DroppedAllOk(s1, d, stale, |stale|);
    assert stale[..|stale|] == stale;
    var s2 := DroppedAll(s1, d, stale);
    Merged(s.tree, s.dropped, m.tree, s2.tree, s2.dropped, d, m.seen, ListedNames(ps, bs));
    MarkLoaded(s2.tree, Loaded(s2.tree, d), s2.dropped, d);
    LoadedListed(s.tree, s.dropped, s2.tree, Loaded(s2.tree, d), s2.dropped, d, ListedNames(ps, bs));
  }

  // ---- What a listed name is ----

  predicate Plain(name: string) {
    name != "" && '/' !in name
  }

  // The size of the last entry of that name.
  function LastSize(bs: seq<Blob>, name: string): Option<nat> {
    if bs == [] then None
    else if bs[|bs| - 1].name == name then Some(bs[|bs| - 1].size)
    else LastSize(bs[..|bs| - 1], name)
  }

  ghost function KindOf(t: Tree, e: Entry): Option<Kind> {
    if e in t.index && t.index[e] in t.byIno then Some(t.byIno[t.index[e]].kind) else None
  }

  // What the listing makes of a name it shows: a directory stays one; a new name that is listed as a
  // subdirectory becomes one; any other file has the size it was last listed with, or that it had.
  ghost predicate RightKind(t0: Tree, d: nat, ps: seq<string>, bs: seq<Blob>, name: string, kind: Option<Kind>) {
    var was := KindOf(t0, Entry(d, name));
    if was.Some? && was.value.Dir? then kind == was
    else if was.None? && name in ListedNames(ps, []) then kind == Some(Dir(false))
    else if LastSize(bs, name).Some? then kind == Some(File(LastSize(bs, name).value))
    else kind == was
  }

  ghost predicate Full(t: Tree, d: nat) {
    |KidsOf(t, d)| >= MAX_CHILDREN_PER_DIR
  }

  // A listing in progress: the name is what it should be, or was refused because the directory is full.
  ghost predicate KindSoFar(t0: Tree, t: Tree, d: nat, ps: seq<string>, bs: seq<Blob>, name: string) {
    var e := Entry(d, name);
    && (e in t.index ==> RightKind(t0, d, ps, bs, name, KindOf(t, e)))
    && (e in t0.index ==> e in t.index)
    && (e !in t.index && name in ListedNames(ps, []) ==> Full(t, d))
  }

  // Adding a name settles its kind, and that of no other.
  lemma AddedKind(t: Tree, d: nat, other: string, kind: Kind, name: string)
    requires Numbered(t) && IndexOk(t)
    ensures
      var t', e := Added(t, d, other, kind), Entry(d, name);
      && (e in t'.index <==> e in t.index || other == name)
      && KindOf(t', e) ==
         (if other != name then KindOf(t, e)
          else if e in t.index then
            if kind.File? && KindOf(t, e).value.File? then Some(kind) else KindOf(t, e)
          else Some(kind))
      && |KidsOf(t', d)| >= |KidsOf(t, d)|
  {
    var e, o := Entry(d, name), Entry(d, other);
    if e in t.index {
      assert IsChild(t, d, t.index[e]);
    }
    if o in t.index {
      assert IsChild(t, d, t.index[o]);
    }
  }

  lemma ObservedKind(m: Merge, d: nat, other: string, kind: Kind, name: string)
    requires Numbered(m.tree) && IndexOk(m.tree)
    ensures
      var t, t', e := m.tree, Observed(m, d, other, kind).tree, Entry(d, name);
      && (e in t'.index <==> e in t.index || (other == name && !Full(t, d)))
      && KindOf(t', e) ==
         (if other != name then KindOf(t, e)
          else if e in t.index then
            if kind.File? && KindOf(t, e).value.File? then Some(kind) else KindOf(t, e)
          else if Full(t, d) then None
          else Some(kind))
      && (Full(t, d) ==> Full(t', d))
  {
    hide Added, Numbered, IndexOk;
    IndexedKind(m.tree, Entry(d, name));
    AddedKind(m.tree, d, other, kind, name);
    hide KindOf;
  }

  lemma IndexedKind(t: Tree, e: Entry)
    requires IndexOk(t)
    ensures KindOf(t, e).Some? <==> e in t.index
  {
    if e in t.index {
      assert IsChild(t, e.dir, t.index[e]);
    }
  }

  lemma {:induction false} PrefixesKind(t: Tree, dropped: set<nat>, d: nat, ps: seq<string>, name: string)
    requires Consistent(t, dropped) && IsDir(t, d)
    ensures KindSoFar(t, ObservedPrefixes(Merge(t, {}), d, ps).tree, d, ps, [], name)
  {
    hide Consistent, Numbered, IndexOk, ListedNames, Observed, Merging, KindOf, Full;
    ConsistentParts(t, dropped);
    IndexedKind(t, Entry(d, name));
    if ps == [] {
      StartMerging(t, dropped, d);
    } else {
      var init, rel := ps[..|ps| - 1], Paths.TrimEnd(ps[|ps| - 1]);
      PrefixesKind(t, dropped, d, init, name);
      PrefixesOk(t, dropped, d, init);
      NextPrefix(ps, |ps| - 1);
      assert ps[..|ps| - 1 + 1] == ps;
      if rel != "" {
        var m := ObservedPrefixes(Merge(t, {}), d, init);
        ConsistentParts(m.tree, dropped);
        IndexedKind(m.tree, Entry(d, name));
        ObservedKind(m, d, rel, Dir(false), name);
      }
    }
  }

  lemma {:induction false} ListingKind(t: Tree, dropped: set<nat>, d: nat, ps: seq<string>, bs: seq<Blob>, name: string)
    requires Consistent(t, dropped) && IsDir(t, d) && Plain(name)
    ensures KindSoFar(t, Listing(t, d, ps, bs).tree, d, ps, bs, name)
  {
    hide Consistent, Numbered, IndexOk, ListedNames, Observed, Merging, KindOf, Full;
    ConsistentParts(t, dropped);
    IndexedKind(t, Entry(d, name));
    if bs == [] {
      PrefixesKind(t, dropped, d, ps, name);
    } else {
      var init, b := bs[..|bs| - 1], bs[|bs| - 1];
      ListingKind(t, dropped, d, ps, init, name);
      ListingOk(t, dropped, d, ps, init);
      if Plain(b.name) {
        var m := Listing(t, d, ps, init);
        ConsistentParts(m.tree, dropped);
        IndexedKind(m.tree, Entry(d, name));
        ObservedKind(m, d, b.name, File(b.size), name);
      }
    }
  }

  // The delta-delete and the flag leave the kind of every name that is still there.
  lemma DroppedKind(t: Tree, t': Tree, d: nat, gone: seq<nat>, name: string)
    requires IndexOk(t) && Shed(t, t', d, gone) && Entry(d, name) in t'.index
    requires forall k | IsChild(t, d, k) :: k != d
    ensures Entry(d, name) in t.index && KindOf(Loaded(t', d), Entry(d, name)) == KindOf(t, Entry(d, name))
  {
    var e := Entry(d, name);
    assert e in t.index && t.index[e] == t'.index[e];
    assert IsChild(t, d, t.index[e]);
  }

  lemma NoOwnChild(t: Tree, dropped: set<nat>, d: nat)
    requires Consistent(t, dropped)
    ensures forall k | IsChild(t, d, k) :: k != d
  {
    forall k | IsChild(t, d, k)
      ensures k != d
    {
      assert ParentOk(t, k);
    }
  }

  // After a listing every plain name that the directory shows is what it was listed as.
  lemma ListedKind(s: Snapshot, d: nat, ps: seq<string>, bs: seq<Blob>, name: string)
    requires Consistent(s.tree, s.dropped) && IsDir(s.tree, d) && Plain(name)
    ensures
      var t, e := Listed(s, d, ps, bs).tree, Entry(d, name);
      && (e in t.index ==> RightKind(s.tree, d, ps, bs, name, KindOf(t, e)))
      && d in t.byIno && t.byIno[d].kind == Dir(true)
  {
    hide Consistent, Merging, Stale, Shed, DroppedAll, Listing, Droppable, RightKind, IndexOk, Numbered;
    ListingOk(s.tree, s.dropped, d, ps, bs);
    ListingKind(s.tree, s.dropped, d, ps, bs, name);
    var m := Listing(s.tree, d, ps, bs);
    var stale := Stale(m.tree, KidsOf(m.tree, d), m.seen);
    StaleFacts(m.tree, s.dropped, d, m.seen);
    var s1 := Snapshot(m.tree, s.dropped);
    DroppedAllOk(s1, d, stale, |stale|);
    assert stale[..|stale|] == stale;
    var t2 := DroppedAll(s1, d, stale).tree;
    ShedKeepsNodes(m.tree, t2, d, stale);
    ConsistentParts(m.tree, s.dropped);
    NoOwnChild(m.tree, s.dropped, d);
    if Entry(d, name) in t2.index {
      DroppedKind(m.tree, t2, d, stale, name);
    }
  }

  /** Inner: the three maps behind the lock. */
  class Inner {
    var byIno: map<nat, Node>
    var byParentName: map<Entry, nat>
    var children: map<nat, seq<nat>>
    var nextIno: nat
    ghost var dropped: set<nat>

    ghost function Value(): Tree
      reads this
    {
      Tree(byIno, byParentName, children, nextIno)
    }

    ghost predicate Valid()
      reads this
    {
      Consistent(Value(), dropped)
    }

    constructor ()
      ensures Snapshot(Value(), dropped) == Init && Valid()
    {
      byIno := map[ROOT_INO := Node(ROOT_INO, ROOT_INO, "", Dir(false))];
      byParentName := map[];
      children := map[ROOT_INO := []];
      nextIno := 2;
      dropped := {};
      new;
      InitConsistent();
    }

    method UpsertDir(parent: nat, name: string)
      requires Valid() && IsDir(Value(), parent)
      modifies this
      ensures Value() == Added(old(Value()), parent, name, Dir(false)) && dropped == old(dropped) && Valid()
      // a name that is there is left alone; a new one becomes a directory that has not been listed, and the
      // last child of its parent
      ensures
        var e := Entry(parent, name);
        if e in old(byParentName) then Value() == old(Value())
        else
          && nextIno == old(nextIno) + 1 && byParentName == old(byParentName)[e := old(nextIno)]
          && byIno == old(byIno)[old(nextIno) := Node(old(nextIno), parent, name, Dir(false))]
          && parent in children && children[parent] == KidsOf(old(Value()), parent) + [old(nextIno)]
          && old(nextIno) in children
    {
      AddedOk(Value(), dropped, parent, name, Dir(false));
      hide Consistent;
      if Entry(parent, name) in byParentName {
        return;
      }
      var ino := nextIno;
      nextIno := nextIno + 1;
      byIno := byIno[ino := Node(ino, parent, name, Dir(false))];
      byParentName := byParentName[Entry(parent, name) := ino];
      children := children[parent := (if parent in children then children[parent] else []) + [ino]];
      if ino !in children {
        children := children[ino := []];
      }
    }

    method UpsertFile(parent: nat, name: string, size: nat)
      requires Valid() && IsDir(Value(), parent)
      modifies this
      ensures Value() == Added(old(Value()), parent, name, File(size)) && dropped == old(dropped) && Valid()
      // the name is a file of that size now, unless it is a directory
      ensures
        var e := Entry(parent, name);
        if e in old(byParentName) && old(byParentName)[e] in old(byIno) && old(byIno)[old(byParentName)[e]].kind.Dir?
        then Value() == old(Value())
        else e in byParentName && byParentName[e] in byIno && byIno[byParentName[e]].kind == File(size)
      // a new one gets a new inode and becomes the last child of its parent
      ensures Entry(parent, name) !in old(byParentName) ==>
        && nextIno == old(nextIno) + 1 && byParentName == old(byParentName)[Entry(parent, name) := old(nextIno)]
        && byIno == old(byIno)[old(nextIno) := Node(old(nextIno), parent, name, File(size))]
        && parent in children && children[parent] == KidsOf(old(Value()), parent) + [old(nextIno)]
    {
      AddedOk(Value(), dropped, parent, name, File(size));
      hide Consistent;
      if Entry(parent, name) in byParentName {
        var existing := byParentName[Entry(parent, name)];
        if existing in byIno && byIno[existing].kind.File? {
          byIno := byIno[existing := byIno[existing].(kind := File(size))];
        }
        return;
      }
      var ino := nextIno;
      nextIno := nextIno + 1;
      byIno := byIno[ino := Node(ino, parent, name, File(size))];
      byParentName := byParentName[Entry(parent, name) := ino];
      children := children[parent := (if parent in children then children[parent] else []) + [ino]];
    }

    // One entry of a listing.
    method Observe(d: nat, name: string, kind: Kind, seen: set<string>) returns (seen': set<string>)
      requires kind == Dir(false) || kind.File?
      requires Valid() && IsDir(Value(), d)
      modifies this
      ensures Valid() && dropped == old(dropped)
      ensures Merge(Value(), seen') == Observed(Merge(old(Value()), seen), d, name, kind)
    {
      hide Consistent;
      var cur := if d in children then |children[d]| else 0;
      if cur >= MAX_CHILDREN_PER_DIR && Entry(d, name) !in byParentName {
        return seen;
      }
      if kind.Dir? {
        UpsertDir(d, name);
      } else {
        UpsertFile(d, name, kind.size);
      }
      return seen + {name};
    }

    // The delta-delete at the end of a listing.
    method DropStale(d: nat, seen: set<string>)
      requires Valid() && IsDir(Value(), d)
      modifies this
      ensures Valid()
      ensures
        var t := old(Value());
        Snapshot(Value(), dropped) == DroppedAll(Snapshot(t, old(dropped)), d, Stale(t, KidsOf(t, d), seen))
    {
      hide Consistent, Stale, Shed, Without, Droppable;
      ghost var s := Snapshot(Value(), dropped);
      var stale := Stale(Tree(byIno, byParentName, children, nextIno), if d in children then children[d] else [], seen);
      StaleFacts(s.tree, s.dropped, d, seen);
      assert forall c | c in stale :: c in byIno;
      for i := 0 to |stale|
        invariant Snapshot(Value(), dropped) == DroppedAll(s, d, stale[..i]) && byIno == s.tree.byIno
      {
        var c := stale[i];
        assert c in stale && stale[..i + 1][..i] == stale[..i];
        var name := byIno[c].name;
        byParentName := byParentName - {Entry(d, name)};
        if d in children {
          children := children[d := Without(children[d], c)];
        }
        children := children - {c};
        dropped := dropped + {c};
      }
      assert stale[..|stale|] == stale;
      DroppedAllOk(s, d, stale, |stale|);
    }

    // The merge of a listing of directory d.
    method MergeListing(d: nat, prefixes: seq<string>, blobs: seq<Blob>)
      requires Valid() && IsDir(Value(), d)
      modifies this
      ensures Snapshot(Value(), dropped) == Listed(Snapshot(old(Value()), old(dropped)), d, prefixes, blobs)
      ensures Valid()
      ensures ListedAs(old(Value()), old(dropped), Value(), dropped, d, ListedNames(prefixes, blobs))
      ensures d in byIno && byIno[d].kind == Dir(true)
      // every name the directory shows is what it was listed as, with the size it was last listed with
      ensures forall name | Plain(name) && Entry(d, name) in byParentName ::
        RightKind(old(Value()), d, prefixes, blobs, name, KindOf(Value(), Entry(d, name)))
    {
      hide Consistent, Merging, Stale, ListedAs, Observed, ListedNames;
      ghost var t := Value();
      var seen: set<string> := {};
      for i := 0 to |prefixes|
        invariant Valid() && dropped == old(dropped) && IsDir(Value(), d)
        invariant Merge(Value(), seen) == ObservedPrefixes(Merge(t, {}), d, prefixes[..i])
      {
        var rel := Paths.TrimEnd(prefixes[i]);
        assert prefixes[..i + 1][..i] == prefixes[..i];
        PrefixesOk(t, dropped, d, prefixes[..i + 1]);
        if rel == "" {
          continue;
        }
        seen := Observe(d, rel, Dir(false), seen);
      }
      assert prefixes[..|prefixes|] == prefixes;
      for i := 0 to |blobs|
        invariant Valid() && dropped == old(dropped) && IsDir(Value(), d)
        invariant Merge(Value(), seen) == Listing(t, d, prefixes, blobs[..i])
      {
        var rel := blobs[i].name;
        assert blobs[..i + 1][..i] == blobs[..i];
        ListingOk(t, dropped, d, prefixes, blobs[..i + 1]);
        if rel == "" || '/' in rel {
          continue;
        }
        seen := Observe(d, rel, File(blobs[i].size), seen);
      }
      assert blobs[..|blobs|] == blobs;
      DropStale(d, seen);
      if d in byIno {
        byIno := byIno[d := byIno[d].(kind := Dir(true))];
      }
      ListedOk(Snapshot(t, old(dropped)), d, prefixes, blobs);
      ListedKinds(Snapshot(t, old(dropped)), d, prefixes, blobs);
      ListedConsistent(Snapshot(t, old(dropped)), d, prefixes, blobs);
    }

    // A lookup that asked the blob store about a name and was told its size.
    method LookupHead(parent: nat, name: string, size: nat) returns (ino: nat)
      requires Valid() && IsDir(Value(), parent)
      modifies this
      ensures Valid() && dropped == old(dropped) && Value() == Added(old(Value()), parent, name, File(size))
      ensures Entry(parent, name) in byParentName && ino == byParentName[Entry(parent, name)]
      ensures ino in byIno && byIno[ino].parent == parent && byIno[ino].name == name
      ensures byIno[ino].kind == File(size) || (byIno[ino].kind.Dir? && Value() == old(Value()))
    {
      UpsertFile(parent, name, size);
      ino := byParentName[Entry(parent, name)];
      assert IsChild(Value(), parent, ino);
    }
  }

  lemma ListedKinds(s: Snapshot, d: nat, ps: seq<string>, bs: seq<Blob>)
    requires Consistent(s.tree, s.dropped) && IsDir(s.tree, d)
    ensures
      var t := Listed(s, d, ps, bs).tree;
      && d in t.byIno && t.byIno[d].kind == Dir(true)
      && forall name | Plain(name) && Entry(d, name) in t.index ::
           RightKind(s.tree, d, ps, bs, name, KindOf(t, Entry(d, name)))
  {
    hide Listed, RightKind, KindOf, Consistent;
    ListedKind(s, d, ps, bs, "x");
    forall name | Plain(name) && Entry(d, name) in Listed(s, d, ps, bs).tree.index
      ensures RightKind(s.tree, d, ps, bs, name, KindOf(Listed(s, d, ps, bs).tree, Entry(d, name)))
    {
      ListedKind(s, d, ps, bs, name);
    }
  }

  lemma ListedConsistent(s: Snapshot, d: nat, ps: seq<string>, bs: seq<Blob>)
    requires
      var s' := Listed(s, d, ps, bs);
      ListedAs(s.tree, s.dropped, s'.tree, s'.dropped, d, ListedNames(ps, bs))
    ensures Consistent(Listed(s, d, ps, bs).tree, Listed(s, d, ps, bs).dropped)
  {
  }

  const Init := Snapshot(
    Tree(map[ROOT_INO := Node(ROOT_INO, ROOT_INO, "", Dir(false))], map[], map[ROOT_INO := []], 2), {})

  lemma InitConsistent()
    ensures Consistent(Init.tree, Init.dropped)
  {
    assert ParentOk(Init.tree, ROOT_INO);
  }

  // ---- Any sequence of listings and lookups ----

  datatype Op = List(dir: nat, prefixes: seq<string>, blobs: seq<Blob>) | Head(dir: nat, name: string, size: nat)

  // A directory is listed, or the blob store knows a file in it; anything else is refused.
  function Apply(s: Snapshot, op: Op): Snapshot {
    if !IsDir(s.tree, op.dir) then s
    else
      match op
      case List(d, ps, bs) => Listed(s, d, ps, bs)
      case Head(d, name, size) => Snapshot(Added(s.tree, d, name, File(size)), s.dropped)
  }

  function Run(s: Snapshot, ops: seq<Op>): Snapshot
    decreases |ops|
  {
    if ops == [] then s else Run(Apply(s, ops[0]), ops[1..])
  }

  lemma NothingYet(t: Tree, d: nat)
    ensures ExtendsIndex(t, t, d) && ExtendsNodes(t, t)
  {
  }

  lemma ExtendsTrans(a: Tree, b: Tree, c: Tree)
    requires ExtendsNodes(a, b) && ExtendsNodes(b, c)
    ensures ExtendsNodes(a, c)
  {
  }

  lemma ApplyOk(s: Snapshot, op: Op)
    requires Consistent(s.tree, s.dropped)
    ensures Consistent(Apply(s, op).tree, Apply(s, op).dropped) && ExtendsNodes(s.tree, Apply(s, op).tree)
    ensures s.dropped <= Apply(s, op).dropped
  {
    hide Consistent, ExtendsNodes, ExtendsIndex, Added, Listed;
    NothingYet(s.tree, op.dir);
    if IsDir(s.tree, op.dir) {
      match op
      case List(d, ps, bs) => ListedOk(s, d, ps, bs);
      case Head(d, name, size) =>
        AddedOk(s.tree, s.dropped, d, name, File(size));
        ConsistentNumbered(s.tree, s.dropped);
        ExtendsAdded(s.tree, s.tree, d, name, File(size));
    }
  }

  // Over any sequence of listings and lookups the three maps stay consistent, no inode number is lost or
  // given out twice, and one once given out means the same name in the same directory for ever.
  lemma {:induction false} InodesAreForever(s: Snapshot, ops: seq<Op>)
    requires Consistent(s.tree, s.dropped)
    ensures Consistent(Run(s, ops).tree, Run(s, ops).dropped) && ExtendsNodes(s.tree, Run(s, ops).tree)
    decreases |ops|
  {
    hide Consistent, ExtendsNodes, Apply;
    if ops == [] {
      NothingYet(s.tree, 0);
    } else {
      ApplyOk(s, ops[0]);
      InodesAreForever(Apply(s, ops[0]), ops[1..]);
      ExtendsTrans(s.tree, Apply(s, ops[0]).tree, Run(s, ops).tree);
    }
  }

  // ---- Dropped directories ----

  // The name n is in the index of c, but no child of c bears it.
  ghost predicate Haunted(t: Tree, c: nat, n: string) {
    && c in t.byIno && Entry(c, n) in t.index
    && forall k | k in KidsOf(t, c) :: k in t.byIno && t.byIno[k].name != n
  }

  // c is in no child list.
  ghost predicate Unlisted(t: Tree, c: nat) {
    c in t.byIno && forall d | d in t.children :: c !in t.children[d]
  }

  lemma HauntedDisagrees(t: Tree, c: nat, n: string)
    requires IndexOk(t) && Haunted(t, c, n)
    ensures !Agrees(t, c)
  {
    assert IsChild(t, c, t.index[Entry(c, n)]);
  }

  lemma AddedHaunted(t: Tree, c: nat, n: string, d: nat, name: string, kind: Kind)
    requires Numbered(t) && Haunted(t, c, n)
    ensures Haunted(Added(t, d, name, kind), c, n)
  {
    var t' := Added(t, d, name, kind);
    forall k | k in KidsOf(t', c)
      ensures k in t'.byIno && t'.byIno[k].name != n
    {
      if k in KidsOf(t, c) {
        assert t.byIno[k].name != n;
      }
    }
  }

  lemma AddedUnlisted(t: Tree, c: nat, d: nat, name: string, kind: Kind)
    requires Numbered(t) && Unlisted(t, c)
    ensures Unlisted(Added(t, d, name, kind), c)
  {
  }

  lemma AddedAgrees(t: Tree, c: nat, d: nat, name: string, kind: Kind)
    requires Numbered(t) && c in t.byIno && Agrees(t, c)
    ensures Agrees(Added(t, d, name, kind), c)
  {
    hide Agrees, Created, Refreshed;
    if Entry(d, name) in t.index {
      RefreshedShape(t, t.index[Entry(d, name)], kind);
      SameShapeAgrees(t, Refreshed(t, t.index[Entry(d, name)], kind), c);
    } else {
      CreatedAgrees(t, d, name, kind, c);
    }
  }

  // The fate of a dropped directory: haunted by a name, or in agreement and out of every list.
  datatype Fate = Haunts(name: string) | AtPeace

  ghost predicate Shares(t: Tree, c: nat, f: Fate) {
    match f
    case Haunts(n) => Haunted(t, c, n)
    case AtPeace => c in t.byIno && Agrees(t, c) && Unlisted(t, c)
  }

  lemma AddedShares(t: Tree, c: nat, f: Fate, d: nat, name: string, kind: Kind)
    requires Numbered(t) && Shares(t, c, f)
    ensures Shares(Added(t, d, name, kind), c, f)
  {
    hide Added, Agrees, Haunted, Unlisted;
    match f
    case Haunts(n) => AddedHaunted(t, c, n, d, name, kind);
    case AtPeace =>
      UnlistedKnown(t, c);
      AddedAgrees(t, c, d, name, kind);
      AddedUnlisted(t, c, d, name, kind);
      UnlistedKnown(Added(t, d, name, kind), c);
  }

  lemma UnlistedKnown(t: Tree, c: nat)
    ensures Unlisted(t, c) ==> c in t.byIno
  {
  }

  // The delta-delete may drop a child k of d.
  ghost predicate Spares(t: Tree, c: nat, f: Fate, d: nat, k: nat)
    requires k in t.byIno
  {
    match f
    case Haunts(n) => c == d ==> t.byIno[k].name != n
    case AtPeace => k != c && (c == d ==> Indexed(t, d, k))
  }

  lemma DroppedShares(t: Tree, c: nat, f: Fate, d: nat, k: nat)
    requires IsChild(t, d, k) && IndexOk(t) && Shares(t, c, f) && Spares(t, c, f, d, k)
    ensures Shares(Dropped(t, d, t.byIno[k].name, k), c, f)
  {
    if f.AtPeace? {
      DroppedAgrees(t, d, k, c);
    }
  }

  // What is stale can be dropped without changing the fate of c.
  ghost predicate AllSpare(t: Tree, c: nat, f: Fate, d: nat, stale: seq<nat>) {
    && (forall k | k in stale :: k in t.byIno && Spares(t, c, f, d, k))
    && (f.AtPeace? && c == d ==> Distinct(stale))
  }

  lemma StaleSpares(t: Tree, c: nat, f: Fate, d: nat, seen: set<string>)
    requires ListsOk(t) && Shares(t, c, f)
    ensures AllSpare(t, c, f, d, Stale(t, KidsOf(t, d), seen))
  {
    if f.AtPeace? && c == d {
      StaleDistinct(t, KidsOf(t, d), seen);
    }
  }

  lemma {:induction false} DroppedAllShares(s: Snapshot, d: nat, stale: seq<nat>, i: nat, c: nat, f: Fate)
    requires Consistent(s.tree, s.dropped) && Droppable(s.tree, s.dropped, d, stale) && i <= |stale|
    requires Shares(s.tree, c, f) && AllSpare(s.tree, c, f, d, stale)
    ensures Shares(DroppedAll(s, d, stale[..i]).tree, c, f)
  {
    if i > 0 {
      hide Shares, Consistent, Spares, AllSpare, Droppable, Shed, Dropped;
      DroppedAllShares(s, d, stale, i - 1, c, f);
      DroppedAllOk(s, d, stale, i - 1);
      var s', k := DroppedAll(s, d, stale[..i - 1]), stale[i - 1];
      assert stale[..i][..i - 1] == stale[..i - 1];
      StillSpares(s.tree, s.dropped, s'.tree, d, stale, i - 1, c, f);
      ConsistentParts(s'.tree, s'.dropped);
      ShedKeepsNodes(s.tree, s'.tree, d, stale[..i - 1]);
      DroppedShares(s'.tree, c, f, d, k);
    }
  }

  lemma ConsistentParts(t: Tree, dropped: set<nat>)
    requires Consistent(t, dropped)
    ensures Numbered(t) && IndexOk(t) && ListsOk(t)
  {
  }

  lemma StillSpares(t1: Tree, dropped: set<nat>, t: Tree, d: nat, stale: seq<nat>, i: nat, c: nat, f: Fate)
    requires i < |stale| && AllSpare(t1, c, f, d, stale) && Shed(t1, t, d, stale[..i])
    requires Droppable(t1, dropped, d, stale)
    ensures stale[i] in t.byIno && IsChild(t, d, stale[i]) && Spares(t, c, f, d, stale[i])
  {
    var k := stale[i];
    assert k in stale;
    assert IsChild(t1, d, k) && Spares(t1, c, f, d, k);
    if f.AtPeace? && c == d {
      assert k !in stale[..i];
      forall g | g in stale[..i]
        ensures Indexed(t1, d, g)
      {
        assert g in stale && Spares(t1, c, f, d, g);
      }
      StillIndexed(t1, t, d, stale[..i], k);
    }
  }

  lemma LoadedShares(t: Tree, d: nat, c: nat, f: Fate)
    requires IsDir(t, d) && Shares(t, c, f)
    ensures Shares(Loaded(t, d), c, f)
  {
    if f.AtPeace? {
      SameShapeAgrees(t, Loaded(t, d), c);
    }
  }

  lemma {:induction false} PrefixesShare(t: Tree, dropped: set<nat>, d: nat, ps: seq<string>, c: nat, f: Fate)
    requires Consistent(t, dropped) && IsDir(t, d) && Shares(t, c, f)
    ensures Shares(ObservedPrefixes(Merge(t, {}), d, ps).tree, c, f)
  {
    hide Consistent, Shares, Added, Merging;
    if ps != [] {
      var init := ps[..|ps| - 1];
      PrefixesShare(t, dropped, d, init, c, f);
      PrefixesOk(t, dropped, d, init);
      var m := ObservedPrefixes(Merge(t, {}), d, init);
      ConsistentNumbered(m.tree, dropped);
      AddedShares(m.tree, c, f, d, Paths.TrimEnd(ps[|ps| - 1]), Dir(false));
    }
  }

  lemma {:induction false} ListingShares(t: Tree, dropped: set<nat>, d: nat, ps: seq<string>, bs: seq<Blob>,
                                       c: nat, f: Fate)
    requires Consistent(t, dropped) && IsDir(t, d) && Shares(t, c, f)
    ensures Shares(Listing(t, d, ps, bs).tree, c, f)
  {
    hide Consistent, Shares, Added, Merging;
    if bs == [] {
      PrefixesShare(t, dropped, d, ps, c, f);
    } else {
      var init, b := bs[..|bs| - 1], bs[|bs| - 1];
      ListingShares(t, dropped, d, ps, init, c, f);
      ListingOk(t, dropped, d, ps, init);
      var m := Listing(t, d, ps, init);
      ConsistentNumbered(m.tree, dropped);
      AddedShares(m.tree, c, f, d, b.name, File(b.size));
    }
  }

  lemma ListedShares(s: Snapshot, d: nat, ps: seq<string>, bs: seq<Blob>, c: nat, f: Fate)
    requires Consistent(s.tree, s.dropped) && IsDir(s.tree, d) && Shares(s.tree, c, f)
    ensures Shares(Listed(s, d, ps, bs).tree, c, f)
  {
    hide Consistent, Shares, Merging, Stale, DroppedAll, Listing, Droppable, AllSpare, Shed, Loaded;
    ListingOk(s.tree, s.dropped, d, ps, bs);
    ListingShares(s.tree, s.dropped, d, ps, bs, c, f);
    var m := Listing(s.tree, d, ps, bs);
    var s1, stale := Snapshot(m.tree, s.dropped), Stale(m.tree, KidsOf(m.tree, d), m.seen);
    StaleFacts(m.tree, s.dropped, d, m.seen);
    ConsistentParts(m.tree, s.dropped);
    StaleSpares(m.tree, c, f, d, m.seen);
    DroppedAllShares(s1, d, stale, |stale|, c, f);
    DroppedAllOk(s1, d, stale, |stale|);
    assert stale[..|stale|] == stale;
    var s2 := DroppedAll(s1, d, stale);
    ShedKeepsNodes(m.tree, s2.tree, d, stale);
    LoadedShares(s2.tree, d, c, f);
  }

  lemma {:induction false} RunShares(s: Snapshot, ops: seq<Op>, c: nat, f: Fate)
    requires Consistent(s.tree, s.dropped) && Shares(s.tree, c, f)
    ensures Shares(Run(s, ops).tree, c, f)
    decreases |ops|
  {
    hide Consistent, Shares, Added, Listed, ExtendsNodes;
    if ops != [] {
      var op := ops[0];
      if IsDir(s.tree, op.dir) {
        match op
        case List(d, ps, bs) => ListedShares(s, d, ps, bs, c, f);
        case Head(d, name, size) =>
          ConsistentNumbered(s.tree, s.dropped);
          AddedShares(s.tree, c, f, d, name, File(size));
      }
      ApplyOk(s, op);
      RunShares(Apply(s, op), ops[1..], c, f);
    }
  }

  // ---- The moment of the drop ----

  // What has been dropped from d is in no list and has no children left.
  ghost predicate LaidOut(t: Tree, gone: seq<nat>) {
    forall k | k in gone :: KidsOf(t, k) == [] && Unlisted(t, k)
  }

  lemma LaidOutStep(t: Tree, d: nat, gone: seq<nat>, c: nat, name: string)
    requires ListsOk(t) && LaidOut(t, gone) && IsChild(t, d, c) && d != c && d !in gone
    ensures LaidOut(Dropped(t, d, name, c), gone + [c])
  {
    var t' := Dropped(t, d, name, c);
    forall k | k in gone + [c]
      ensures KidsOf(t', k) == [] && Unlisted(t', k)
    {
      forall m | m in t'.children
        ensures k !in t'.children[m]
      {
        assert m in t.children;
        if k == c && c in t.children[m] {
          assert IsChild(t, m, c);
        }
      }
    }
  }

  lemma InWhole(stale: seq<nat>, i: nat, x: nat)
    requires i <= |stale|
    ensures x in stale[..i] ==> x in stale
  {
  }

  lemma {:induction false} DroppedAllLaidOut(s: Snapshot, d: nat, stale: seq<nat>, i: nat)
    requires Consistent(s.tree, s.dropped) && Droppable(s.tree, s.dropped, d, stale) && i <= |stale|
    ensures LaidOut(DroppedAll(s, d, stale[..i]).tree, stale[..i])
  {
    if i > 0 {
      DroppedAllLaidOut(s, d, stale, i - 1);
      DroppedAllOk(s, d, stale, i - 1);
      var s', k := DroppedAll(s, d, stale[..i - 1]), stale[i - 1];
      assert stale[..i][..i - 1] == stale[..i - 1] && stale[..i] == stale[..i - 1] + [k] && k in stale;
      assert IsChild(s.tree, d, k) && d < k;
      InWhole(stale, i - 1, d);
      ConsistentParts(s'.tree, s'.dropped);
      hide Consistent, LaidOut;
      LaidOutStep(s'.tree, d, stale[..i - 1], k, s.tree.byIno[k].name);
    }
  }

  // A listing of d drops c: afterwards c is in no list and has no children, but all its names.
  lemma AfterDrop(s: Snapshot, d: nat, ps: seq<string>, bs: seq<Blob>, c: nat)
    requires Consistent(s.tree, s.dropped) && IsDir(s.tree, d)
    requires c !in s.dropped && c in Listed(s, d, ps, bs).dropped
    ensures
      var t := Listed(s, d, ps, bs).tree;
      KidsOf(t, c) == [] && Unlisted(t, c) && Names(t, c) == Names(s.tree, c)
  {
    ListedOk(s, d, ps, bs);
    ListingOk(s.tree, s.dropped, d, ps, bs);
    var m := Listing(s.tree, d, ps, bs);
    var s1, stale := Snapshot(m.tree, s.dropped), Stale(m.tree, KidsOf(m.tree, d), m.seen);
    StaleFacts(m.tree, s.dropped, d, m.seen);
    DroppedAllOk(s1, d, stale, |stale|);
    DroppedAllLaidOut(s1, d, stale, |stale|);
    assert stale[..|stale|] == stale;
    assert c in stale && c > d;
    hide Consistent, Merging, Stale, DroppedAll, Listing, Shed;
    var t2, t := DroppedAll(s1, d, stale).tree, Listed(s, d, ps, bs).tree;
    assert t == Loaded(t2, d);
    assert KidsOf(t2, c) == [] && Unlisted(t2, c);
    assert EntriesKept(s.tree, t, d);
    OtherNames(s.tree, t, d, c);
  }

  lemma OtherNames(t0: Tree, t: Tree, d: nat, c: nat)
    requires EntriesKept(t0, t, d) && c != d
    ensures Names(t, c) == Names(t0, c)
  {
    forall n
      ensures n in Names(t, c) <==> n in Names(t0, c)
    {
      NameIsEntry(t, c, n);
      NameIsEntry(t0, c, n);
      assert Entry(c, n) in t.index <==> Entry(c, n) in t0.index;
    }
  }

  // The fate of a directory that a listing drops, whatever follows: index and child list disagree for
  // ever if it had a name when it was dropped, and agree for ever if it had none.
  lemma DroppedForGood(s: Snapshot, d: nat, ps: seq<string>, bs: seq<Blob>, c: nat, ops: seq<Op>)
    requires Consistent(s.tree, s.dropped) && IsDir(s.tree, d)
    requires c !in s.dropped && c in Listed(s, d, ps, bs).dropped
    ensures Agrees(Run(Listed(s, d, ps, bs), ops).tree, c) <==> Names(s.tree, c) == {}
  {
    hide Listed, Run, Consistent;
    AfterDrop(s, d, ps, bs, c);
    ListedOk(s, d, ps, bs);
    ListedConsistent(s, d, ps, bs);
    var s1 := Listed(s, d, ps, bs);
    InodesAreForever(s1, ops);
    ConsistentParts(Run(s1, ops).tree, Run(s1, ops).dropped);
    if n :| n in Names(s.tree, c) {
      NameIsEntry(s1.tree, c, n);
      RunShares(s1, ops, c, Haunts(n));
      HauntedDisagrees(Run(s1, ops).tree, c, n);
    } else {
      NoNames(s1.tree, c);
      RunShares(s1, ops, c, AtPeace);
    }
  }

  lemma NoNames(t: Tree, c: nat)
    requires Names(t, c) == {} && KidsOf(t, c) == []
    ensures Agrees(t, c)
  {
    assert forall e | e in t.index :: e.dir == c ==> e.name in Names(t, c);
  }
}
