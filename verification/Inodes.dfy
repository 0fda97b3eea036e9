/** The inode table of the FUSE layer (Inner in src/fuse_fs.rs): nodes by inode number, an index from
    (parent, name) to inode, and the child list of every directory. Listings add names and drop the
    ones that are gone; a lookup may add a file it found by asking the blob store. */
module Inodes {
  import Paths

  const ROOT_INO: nat := 1
  const MAX_CHILDREN_PER_DIR: nat := 100_000

  datatype Kind = Dir(loaded: bool) | File(size: nat)

  datatype Node = Node(ino: nat, parent: nat, name: string, kind: Kind)

  // A name in a directory.
  datatype Entry = Entry(dir: nat, name: string)

  datatype Tree = Tree(
    byIno: map<nat, Node>,
    index: map<Entry, nat>,
    children: map<nat, seq<nat>>,
    next: nat)

  predicate IsDir(t: Tree, d: nat) {
    d in t.byIno && t.byIno[d].kind.Dir?
  }

  function KidsOf(t: Tree, d: nat): seq<nat> {
    if d in t.children then t.children[d] else []
  }

  // The names a lookup in d finds.
  ghost function Names(t: Tree, d: nat): set<string> {
    set k | k in t.index && k.dir == d :: k.name
  }

  // ---- What holds of the three maps ----

  // Inode numbers are given out in order.
  ghost predicate Numbered(t: Tree) {
    forall i | i in t.byIno :: i < t.next && t.byIno[i].ino == i
  }

  // Parents are directories, and older than their children.
  ghost predicate Rooted(t: Tree) {
    && IsDir(t, ROOT_INO)
    && (forall i {:trigger ParentOk(t, i)} | i in t.byIno :: ParentOk(t, i))
  }

  ghost predicate ParentOk(t: Tree, i: nat)
    requires i in t.byIno
  {
    IsDir(t, t.byIno[i].parent) && (i != ROOT_INO ==> t.byIno[i].parent < i)
  }

  ghost predicate IsChild(t: Tree, d: nat, k: nat) {
    k in t.byIno && k != ROOT_INO && t.byIno[k].parent == d
  }

  ghost predicate IndexOk(t: Tree) {
    forall k | k in t.index :: IsChild(t, k.dir, t.index[k]) && t.byIno[t.index[k]].name == k.name
  }

  ghost predicate ListsOk(t: Tree) {
    && (forall d | d in t.children :: IsDir(t, d))
    && (forall d, k | d in t.children && k in t.children[d] :: IsChild(t, d, k))
  }

  ghost predicate Distinct(s: seq<nat>) {
    forall i, j | 0 <= i < j < |s| :: s[i] != s[j]
  }

  lemma DistinctSnoc(s: seq<nat>, x: nat)
    requires Distinct(s) && x !in s
    ensures Distinct(s + [x])
  {
  }

  ghost predicate Indexed(t: Tree, d: nat, k: nat) {
    k in t.byIno && Entry(d, t.byIno[k].name) in t.index && t.index[Entry(d, t.byIno[k].name)] == k
  }

  // The children of d and the index are inverse, without duplicates.
  ghost predicate Agrees(t: Tree, d: nat) {
    && (forall e | e in t.index && e.dir == d :: t.index[e] in KidsOf(t, d))
    && (forall k | k in KidsOf(t, d) :: Indexed(t, d, k))
    && Distinct(KidsOf(t, d))
  }

  // The same, and d has a child list.
  ghost predicate Matches(t: Tree, d: nat) {
    d in t.children && Agrees(t, d)
  }

  // `dropped`: the inodes some listing has dropped so far.
  ghost predicate Consistent(t: Tree, dropped: set<nat>) {
    Numbered(t) && Rooted(t) && IndexOk(t) && ListsOk(t) && forall d | IsDir(t, d) && d !in dropped :: Matches(t, d)
  }

  // ---- Adding a name ----

  // upsert_dir and upsert_file on a name that is not there.
  function Created(t: Tree, parent: nat, name: string, kind: Kind): Tree {
    var ino := t.next;
    var lists := t.children[parent := KidsOf(t, parent) + [ino]];
    Tree(t.byIno[ino := Node(ino, parent, name, kind)],
         t.index[Entry(parent, name) := ino],
         if kind.Dir? && ino !in lists then lists[ino := []] else lists,
         ino + 1)
  }

  // upsert_file on a file that is there: only its size changes.
  function Refreshed(t: Tree, k: nat, kind: Kind): Tree {
    if kind.File? && k in t.byIno && t.byIno[k].kind.File?
    then t.(byIno := t.byIno[k := t.byIno[k].(kind := kind)])
    else t
  }

  function Added(t: Tree, parent: nat, name: string, kind: Kind): Tree {
    if Entry(parent, name) in t.index
    then Refreshed(t, t.index[Entry(parent, name)], kind)
    else Created(t, parent, name, kind)
  }

  // Nothing but sizes and loaded flags differs.
  ghost predicate SameShape(t: Tree, t': Tree) {
    && t'.index == t.index && t'.children == t.children && t'.next == t.next && t'.byIno.Keys == t.byIno.Keys
    && forall i | i in t.byIno :: Like(t.byIno[i], t'.byIno[i])
  }

  lemma SameShapeNodes(t: Tree, t': Tree)
    requires SameShape(t, t') && Numbered(t) && Rooted(t)
    ensures Numbered(t') && Rooted(t')
  {
    forall i | i in t'.byIno
      ensures ParentOk(t', i)
    {
      assert ParentOk(t, i);
    }
  }

  lemma SameShapeIndex(t: Tree, t': Tree)
    requires SameShape(t, t') && IndexOk(t) && ListsOk(t)
    ensures IndexOk(t') && ListsOk(t')
  {
    forall d, k | IsChild(t, d, k)
      ensures IsChild(t', d, k)
    {
    }
  }

  lemma SameShapeAgrees(t: Tree, t': Tree, d: nat)
    requires SameShape(t, t') && Agrees(t, d)
    ensures Agrees(t', d)
  {
    forall k | k in KidsOf(t', d)
      ensures Indexed(t', d, k)
    {
      assert Indexed(t, d, k);
    }
  }

  lemma SameShapeOk(t: Tree, t': Tree, dropped: set<nat>)
    requires SameShape(t, t') && Consistent(t, dropped)
    ensures Consistent(t', dropped)
  {
    hide Numbered, Rooted, IndexOk, ListsOk, Agrees;
    SameShapeNodes(t, t');
    SameShapeIndex(t, t');
    forall d | IsDir(t', d) && d !in dropped
      ensures Matches(t', d)
    {
      assert IsDir(t, d);
      SameShapeAgrees(t, t', d);
    }
  }

  lemma RefreshedShape(t: Tree, k: nat, kind: Kind)
    ensures SameShape(t, Refreshed(t, k, kind))
  {
  }

  lemma CreatedNodes(t: Tree, parent: nat, name: string, kind: Kind)
    requires Numbered(t) && Rooted(t) && IsDir(t, parent)
    ensures Numbered(Created(t, parent, name, kind)) && Rooted(Created(t, parent, name, kind))
  {
    var t' := Created(t, parent, name, kind);
    forall i | i in t'.byIno
      ensures ParentOk(t', i)
    {
      if i != t.next {
        assert ParentOk(t, i);
      }
    }
  }

  lemma StillChild(t: Tree, parent: nat, name: string, kind: Kind, d: nat, k: nat)
    requires Numbered(t) && IsChild(t, d, k)
    ensures IsChild(Created(t, parent, name, kind), d, k)
    ensures Created(t, parent, name, kind).byIno[k].name == t.byIno[k].name
  {
  }

  lemma CreatedIndex(t: Tree, parent: nat, name: string, kind: Kind)
    requires Numbered(t) && IndexOk(t) && t.next != ROOT_INO
    ensures IndexOk(Created(t, parent, name, kind))
  {
    var t' := Created(t, parent, name, kind);
    forall e | e in t'.index
      ensures IsChild(t', e.dir, t'.index[e]) && t'.byIno[t'.index[e]].name == e.name
    {
      if e != Entry(parent, name) {
        StillChild(t, parent, name, kind, e.dir, t.index[e]);
      }
    }
  }

  lemma CreatedLists(t: Tree, parent: nat, name: string, kind: Kind)
    requires Numbered(t) && ListsOk(t) && IsDir(t, parent) && t.next != ROOT_INO
    ensures ListsOk(Created(t, parent, name, kind))
  {
    var t' := Created(t, parent, name, kind);
    forall d, k | d in t'.children && k in t'.children[d]
      ensures IsChild(t', d, k)
    {
      if d in t.children && k in t.children[d] {
        StillChild(t, parent, name, kind, d, k);
      }
    }
  }

  lemma CreatedAgrees(t: Tree, parent: nat, name: string, kind: Kind, d: nat)
    requires Numbered(t) && d in t.byIno && Agrees(t, d) && Entry(parent, name) !in t.index
    ensures Agrees(Created(t, parent, name, kind), d)
  {
    var t' := Created(t, parent, name, kind);
    var kids := KidsOf(t, d);
    assert KidsOf(t', d) == kids + if d == parent then [t.next] else [];
    forall k | k in kids
      ensures k != t.next
    {
      assert Indexed(t, d, k);
    }
    DistinctSnoc(kids, t.next);
    forall k | k in KidsOf(t', d)
      ensures Indexed(t', d, k)
    {
      if k != t.next {
        assert Indexed(t, d, k);
      }
    }
  }

  lemma CreatedEmptyDir(t: Tree, parent: nat, name: string, kind: Kind)
    requires Numbered(t) && Rooted(t) && IndexOk(t) && ListsOk(t) && IsDir(t, parent) && kind.Dir?
    ensures Matches(Created(t, parent, name, kind), t.next)
  {
    forall e | e in t.index
      ensures e.dir < t.next
    {
      assert IsChild(t, e.dir, t.index[e]) && ParentOk(t, t.index[e]);
    }
    hide Rooted, IndexOk;
  }

  lemma AddedOk(t: Tree, dropped: set<nat>, parent: nat, name: string, kind: Kind)
    requires Consistent(t, dropped) && IsDir(t, parent)
    ensures Consistent(Added(t, parent, name, kind), dropped)
  {
    assert t.next > ROOT_INO;
    hide Created, Refreshed, Numbered, Rooted, IndexOk, ListsOk, Agrees, SameShape;
    if Entry(parent, name) in t.index {
      RefreshedShape(t, t.index[Entry(parent, name)], kind);
      SameShapeOk(t, Refreshed(t, t.index[Entry(parent, name)], kind), dropped);
    } else {
      CreatedNodes(t, parent, name, kind);
      CreatedIndex(t, parent, name, kind);
      CreatedLists(t, parent, name, kind);
      forall d | IsDir(Created(t, parent, name, kind), d) && d !in dropped
        ensures Matches(Created(t, parent, name, kind), d)
      {
        CreatedDirs(t, parent, name, kind, d);
        if IsDir(t, d) {
          CreatedAgrees(t, parent, name, kind, d);
          CreatedKeepsList(t, parent, name, kind, d);
        } else {
          CreatedEmptyDir(t, parent, name, kind);
        }
      }
    }
  }

  lemma CreatedKeepsList(t: Tree, parent: nat, name: string, kind: Kind, d: nat)
    ensures d in t.children ==> d in Created(t, parent, name, kind).children
  {
  }

  lemma CreatedDirs(t: Tree, parent: nat, name: string, kind: Kind, d: nat)
    requires IsDir(Created(t, parent, name, kind), d)
    ensures IsDir(t, d) || (d == t.next && kind.Dir?)
  {
  }

  // ---- Dropping a name ----

  // Vec::retain
  function Without(s: seq<nat>, c: nat): (r: seq<nat>)
    ensures forall x :: x in r <==> x in s && x != c
  {
    if s == [] then []
    else
      assert s == [s[0]] + s[1..];
      (if s[0] == c then [] else [s[0]]) + Without(s[1..], c)
  }

  lemma {:induction false} WithoutDistinct(s: seq<nat>, c: nat)
    requires Distinct(s)
    ensures Distinct(Without(s, c))
  {
    if s != [] {
      WithoutDistinct(s[1..], c);
      assert s[0] !in s[1..];
      var r := Without(s[1..], c);
      assert forall i | 0 <= i < |r| :: r[i] in r;
    }
  }

  // One turn of the delta-delete loop.
  function Dropped(t: Tree, d: nat, name: string, c: nat): Tree {
    var lists := if d in t.children then t.children[d := Without(t.children[d], c)] else t.children;
    t.(index := t.index - {Entry(d, name)}, children := lists - {c})
  }

  lemma DroppedAgrees(t: Tree, d: nat, c: nat, m: nat)
    requires IsChild(t, d, c) && IndexOk(t) && Agrees(t, m) && m != c && (m == d ==> Indexed(t, d, c))
    ensures Agrees(Dropped(t, d, t.byIno[c].name, c), m)
  {
    var t' := Dropped(t, d, t.byIno[c].name, c);
    forall k | k in KidsOf(t', m)
      ensures Indexed(t', m, k)
    {
      assert Indexed(t, m, k);
    }
    WithoutDistinct(KidsOf(t, m), c);
  }

  lemma DroppedLists(t: Tree, d: nat, c: nat)
    requires IsChild(t, d, c) && IndexOk(t) && ListsOk(t)
    ensures IndexOk(Dropped(t, d, t.byIno[c].name, c)) && ListsOk(Dropped(t, d, t.byIno[c].name, c))
  {
    var t' := Dropped(t, d, t.byIno[c].name, c);
    forall m, k | m in t'.children && k in t'.children[m]
      ensures IsChild(t', m, k)
    {
      assert m in t.children && k in t.children[m];
      assert IsChild(t, m, k);
    }
  }

  lemma SameNodes(t: Tree, t': Tree)
    requires Numbered(t) && Rooted(t) && t'.byIno == t.byIno && t'.next == t.next
    ensures Numbered(t') && Rooted(t')
  {
    forall i | i in t'.byIno
      ensures ParentOk(t', i)
    {
      assert ParentOk(t, i);
    }
  }

  lemma DroppedOk(t: Tree, dropped: set<nat>, d: nat, c: nat)
    requires Consistent(t, dropped) && IsChild(t, d, c) && (d !in dropped ==> Indexed(t, d, c))
    ensures Consistent(Dropped(t, d, t.byIno[c].name, c), dropped + {c})
  {
    var t' := Dropped(t, d, t.byIno[c].name, c);
    hide Numbered, Rooted, IndexOk, ListsOk, Agrees;
    SameNodes(t, t');
    DroppedLists(t, d, c);
    forall m | IsDir(t', m) && m !in dropped + {c}
      ensures Matches(t', m)
    {
      assert IsDir(t, m);
      DroppedAgrees(t, d, c, m);
    }
  }

  // ---- Counting ----

  ghost function NamesOf(t: Tree, ks: seq<nat>): set<string> {
    set k | k in ks && k in t.byIno :: t.byIno[k].name
  }

  lemma {:induction false} NamesOfCount(t: Tree, d: nat, ks: seq<nat>)
    requires Distinct(ks) && forall k | k in ks :: Indexed(t, d, k)
    ensures |NamesOf(t, ks)| == |ks|
  {
    if ks != [] {
      var rest, last := ks[..|ks| - 1], ks[|ks| - 1];
      assert ks == rest + [last];
      NamesOfCount(t, d, rest);
      assert Indexed(t, d, last);
      assert NamesOf(t, ks) == NamesOf(t, rest) + {t.byIno[last].name};
      forall k | k in rest
        ensures t.byIno[k].name != t.byIno[last].name
      {
        assert Indexed(t, d, k);
      }
    }
  }

  // A matching child list is as long as the directory has names.
  lemma KidsCount(t: Tree, d: nat)
    requires IndexOk(t) && Matches(t, d)
    ensures |t.children[d]| == |Names(t, d)| && NamesOf(t, t.children[d]) == Names(t, d)
  {
    NamesOfCount(t, d, t.children[d]);
    forall n | n in Names(t, d)
      ensures n in NamesOf(t, t.children[d])
    {
      var k := t.index[Entry(d, n)];
      assert k in t.children[d] && IsChild(t, d, k);
    }
    forall n | n in NamesOf(t, t.children[d])
      ensures n in Names(t, d)
    {
      var k :| k in t.children[d] && k in t.byIno && t.byIno[k].name == n;
      assert Indexed(t, d, k);
      assert Entry(d, n) in t.index;
    }
    assert NamesOf(t, t.children[d]) == Names(t, d);
  }

  // ---- A listing, step by step ----

  // The same node, up to its size or loaded flag.
  ghost predicate Like(a: Node, b: Node) {
    a.ino == b.ino && a.parent == b.parent && a.name == b.name && (a.kind.Dir? <==> b.kind.Dir?)
  }

  // No inode is lost, changed or reused.
  ghost predicate ExtendsNodes(t0: Tree, t: Tree) {
    && t0.next <= t.next
    && (forall i | i in t0.byIno :: i in t.byIno && Like(t0.byIno[i], t.byIno[i]))
    && (forall i | i in t.byIno && i !in t0.byIno :: i >= t0.next)
  }

  // Names were only added, only to d, with new inodes.
  ghost predicate ExtendsIndex(t0: Tree, t: Tree, d: nat) {
    && t0.next <= t.next
    && (forall e | e in t0.index :: e in t.index && t.index[e] == t0.index[e])
    && (forall e | e in t.index && e !in t0.index :: e.dir == d && t.index[e] >= t0.next)
  }

  lemma ExtendsAdded(t0: Tree, t: Tree, d: nat, name: string, kind: Kind)
    requires Numbered(t) && ExtendsIndex(t0, t, d) && ExtendsNodes(t0, t)
    ensures ExtendsIndex(t0, Added(t, d, name, kind), d) && ExtendsNodes(t0, Added(t, d, name, kind))
  {
    if Entry(d, name) in t.index {
      RefreshedExtends(t0, t, d, t.index[Entry(d, name)], kind);
    } else {
      CreatedExtends(t0, t, d, name, kind);
    }
    hide ExtendsIndex, ExtendsNodes, Created, Refreshed;
  }

  lemma RefreshedExtends(t0: Tree, t: Tree, d: nat, k: nat, kind: Kind)
    requires ExtendsIndex(t0, t, d) && ExtendsNodes(t0, t)
    ensures ExtendsIndex(t0, Refreshed(t, k, kind), d) && ExtendsNodes(t0, Refreshed(t, k, kind))
  {
  }

  lemma CreatedExtends(t0: Tree, t: Tree, d: nat, name: string, kind: Kind)
    requires Numbered(t) && Entry(d, name) !in t.index && ExtendsIndex(t0, t, d) && ExtendsNodes(t0, t)
    ensures ExtendsIndex(t0, Created(t, d, name, kind), d) && ExtendsNodes(t0, Created(t, d, name, kind))
  {
  }

  lemma AddedNames(t: Tree, d: nat, name: string, kind: Kind)
    ensures Names(Added(t, d, name, kind), d) == Names(t, d) + {name}
  {
    var t' := Added(t, d, name, kind);
    forall n
      ensures n in Names(t', d) <==> n in Names(t, d) + {name}
    {
      assert n in Names(t', d) <==> Entry(d, n) in t'.index;
      assert n in Names(t, d) <==> Entry(d, n) in t.index;
    }
  }

  // The names seen so far: all listed ones, except new ones that came when the cap was reached.
  ghost predicate Capped(had: set<string>, seen: set<string>, listed: set<string>) {
    && listed * had <= seen <= listed
    && (seen <= had || |had + seen| <= MAX_CHILDREN_PER_DIR)
    && (seen != listed ==> |had + seen| >= MAX_CHILDREN_PER_DIR)
  }

  lemma CappedAccept(had: set<string>, seen: set<string>, listed: set<string>, name: string)
    requires Capped(had, seen, listed) && (|had + seen| < MAX_CHILDREN_PER_DIR || name in had + seen)
    ensures Capped(had, seen + {name}, listed + {name})
  {
    if name in had + seen {
      assert had + (seen + {name}) == had + seen;
    } else {
      assert had + (seen + {name}) == had + seen + {name};
    }
  }

  lemma CappedReject(had: set<string>, seen: set<string>, listed: set<string>, name: string)
    requires Capped(had, seen, listed) && |had + seen| >= MAX_CHILDREN_PER_DIR && name !in had + seen
    ensures Capped(had, seen, listed + {name})
  {
  }

  // Everything listed is seen exactly if it was all there already or there is room for all of it.
  lemma SeenAllIff(had: set<string>, seen: set<string>, listed: set<string>)
    requires Capped(had, seen, listed)
    ensures seen == listed <==> listed <= had || |had + listed| <= MAX_CHILDREN_PER_DIR
  {
    if seen != listed {
      var n :| n in listed && n !in seen;
      SubsetSize(had + seen + {n}, had + listed);
      assert |had + seen + {n}| == |had + seen| + 1;
    }
  }

  lemma {:induction false} SubsetSize(a: set<string>, b: set<string>)
    requires a <= b
    ensures |a| <= |b|
  {
    if x :| x in a {
      SubsetSize(a - {x}, b - {x});
    }
  }

  // The children of a directory whose name was not seen.
  function Stale(t: Tree, kids: seq<nat>, seen: set<string>): (r: seq<nat>)
    ensures forall k :: k in r <==> k in kids && k in t.byIno && t.byIno[k].name !in seen
  {
    if kids == [] then []
    else
      var rest := Stale(t, kids[..|kids| - 1], seen);
      var k := kids[|kids| - 1];
      assert kids == kids[..|kids| - 1] + [k];
      if k in t.byIno && t.byIno[k].name !in seen then rest + [k] else rest
  }

  lemma {:induction false} StaleDistinct(t: Tree, kids: seq<nat>, seen: set<string>)
    requires Distinct(kids)
    ensures Distinct(Stale(t, kids, seen))
  {
    if kids != [] {
      var k := kids[|kids| - 1];
      StaleDistinct(t, kids[..|kids| - 1], seen);
      assert k !in kids[..|kids| - 1];
      if k in t.byIno && t.byIno[k].name !in seen {
        DistinctSnoc(Stale(t, kids[..|kids| - 1], seen), k);
      }
    }
  }

  // From t1 to t exactly the names of `gone` were dropped from d.
  ghost predicate Shed(t1: Tree, t: Tree, d: nat, gone: seq<nat>) {
    && t.byIno == t1.byIno && t.next == t1.next
    && (forall e :: e in t.index <==> e in t1.index && !(e.dir == d && e.name in NamesOf(t1, gone)))
    && (forall e | e in t.index :: t.index[e] == t1.index[e])
  }

  lemma ShedStep(t1: Tree, t: Tree, d: nat, gone: seq<nat>, c: nat)
    requires Shed(t1, t, d, gone) && c in t1.byIno
    ensures Shed(t1, Dropped(t, d, t1.byIno[c].name, c), d, gone + [c])
  {
    assert NamesOf(t1, gone + [c]) == NamesOf(t1, gone) + {t1.byIno[c].name};
    hide NamesOf;
  }

  // What is still to be dropped is still there.
  lemma StillIndexed(t1: Tree, t: Tree, d: nat, gone: seq<nat>, c: nat)
    requires Shed(t1, t, d, gone) && Indexed(t1, d, c) && c !in gone && forall k | k in gone :: Indexed(t1, d, k)
    ensures Indexed(t, d, c)
  {
    forall k | k in gone
      ensures t1.byIno[k].name != t1.byIno[c].name
    {
      assert Indexed(t1, d, k);
    }
  }

  lemma ShedNames(t1: Tree, t: Tree, d: nat, seen: set<string>)
    requires IndexOk(t1) && Matches(t1, d) && Shed(t1, t, d, Stale(t1, t1.children[d], seen)) && seen <= Names(t1, d)
    ensures Names(t, d) == seen
  {
    var gone := Stale(t1, t1.children[d], seen);
    KidsCount(t1, d);
    assert NamesOf(t1, gone) == NamesOf(t1, t1.children[d]) - seen;
    hide NamesOf, Stale;
    forall n
      ensures n in Names(t, d) <==> n in seen
    {
      assert n in Names(t, d) <==> Entry(d, n) in t.index;
      assert n in Names(t1, d) <==> Entry(d, n) in t1.index;
    }
  }
}
