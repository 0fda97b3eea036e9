/** How the components name a blob of a mount: the FUSE layer keys files by their path below the
    mount prefix (src/fuse_fs.rs), the fetcher puts the prefix back before it asks the blob store
    (src/fetcher.rs), and hydrate cuts the prefix off what it lists (src/hydrate.rs). */
module Paths {

  function TrimStart(s: string): (t: string)
    ensures |t| <= |s| && t == s[|s| - |t|..]
    ensures t == [] || t[0] != '/'
    ensures s == [] || s[0] != '/' ==> t == s
  {
    if s == [] || s[0] != '/' then s else TrimStart(s[1..])
  }

  function TrimEnd(s: string): (t: string)
    ensures |t| <= |s| && t == s[..|t|]
    ensures t == [] || t[|t| - 1] != '/'
    ensures s == [] || s[|s| - 1] != '/' ==> t == s
    ensures forall i | |t| <= i < |s| :: s[i] == '/'
  {
    if s == [] || s[|s| - 1] != '/' then s else TrimEnd(s[..|s| - 1])
  }

  function Trim(s: string): (t: string)
    ensures t == [] || (t[0] != '/' && t[|t| - 1] != '/')
  {
    TrimEnd(TrimStart(s))
  }

  // The listing prefix of the mount root.
  function FusePrefix(prefix: string): string {
    if prefix == "" then "" else Trim(prefix) + "/"
  }

  // The key the FUSE layer uses for a blob it listed under the mount.
  function FusePath(prefix: string, name: string): string
    requires FusePrefix(prefix) <= name
  {
    name[|FusePrefix(prefix)|..]
  }

  // The blob the fetcher asks the store for.
  function RealPath(prefix: string, path: string): string {
    if prefix == "" then path else TrimEnd(prefix) + "/" + path
  }

  // The key hydrate uses for a blob it listed.
  function HydratePath(prefix: string, name: string): string {
    if prefix != "" && prefix <= name then TrimStart(name[|prefix|..]) else name
  }

  lemma {:induction false} OnlySlashTrimmed(s: string, i: nat)
    requires i < |s| - |TrimStart(s)|
    ensures s[i] == '/'
  {
    if i > 0 {
      assert s[0] == '/' && TrimStart(s) == TrimStart(s[1..]);
      OnlySlashTrimmed(s[1..], i - 1);
    }
  }

  lemma TrimStartOnly(s: string)
    ensures forall i | 0 <= i < |s| - |TrimStart(s)| :: s[i] == '/'
  {
    forall i | 0 <= i < |s| - |TrimStart(s)|
      ensures s[i] == '/'
    {
      OnlySlashTrimmed(s, i);
    }
  }

  // A read of a listed file reaches that very blob, if and only if the prefix does not begin with a
  // slash or is nothing but slashes.
  lemma ReadsReachTheListedBlob(prefix: string, name: string)
    requires FusePrefix(prefix) <= name
    ensures RealPath(prefix, FusePath(prefix, name)) == name <==> (TrimEnd(prefix) == "" || prefix[0] != '/')
  {
    hide Trim, TrimEnd, TrimStart;
    TrimParts(prefix);
    if prefix != "" {
      var t, e, rel := Trim(prefix), TrimEnd(prefix), FusePath(prefix, name);
      Split(t + "/", name);
      SameTail(e, t, "/", rel);
    }
  }

  lemma Split(p: string, name: string)
    requires p <= name
    ensures name == p + name[|p|..]
  {
  }

  lemma SameTail(e: string, t: string, mid: string, rel: string)
    ensures e + mid + rel == t + mid + rel <==> e == t
  {
    if e + mid + rel == t + mid + rel {
      assert |e| == |t|;
      assert (e + mid + rel)[..|e|] == e && (t + mid + rel)[..|e|] == t;
    }
  }

  lemma {:induction false} AllSlashes(s: string)
    requires TrimEnd(s) == ""
    ensures TrimStart(s) == ""
  {
    if s != [] {
      assert s[0] == '/';
      assert forall i | 0 <= i < |s[1..]| :: s[1..][i] == '/';
      SlashesTrim(s[1..]);
      AllSlashes(s[1..]);
    }
  }

  lemma {:induction false} SlashesTrim(s: string)
    requires forall i | 0 <= i < |s| :: s[i] == '/'
    ensures TrimEnd(s) == ""
  {
  }

  // A leading slash is trimmed away only by Trim.
  lemma TrimShortens(s: string)
    requires s != "" && s[0] == '/' && TrimEnd(s) != ""
    ensures 0 < |Trim(s)| < |TrimEnd(s)|
  {
    hide TrimStart, TrimEnd;
    var u, e := TrimStart(s), TrimEnd(s);
    TrimStartOnly(s);
    // the last character that is not a slash is the same in both
    var d := |s| - |u|;
    assert d <= |e| - 1 && u[|e| - 1 - d] == s[|e| - 1];
    var t := TrimEnd(u);
    assert |t| > |e| - 1 - d;
    assert d >= 1;
    assert forall i | |e| - d <= i < |u| :: u[i] == s[i + d];
    assert |t| <= |e| - d;
  }

  // The prefix is the trimmed part between two runs of slashes.
  lemma TrimParts(s: string)
    ensures s != "" && s[0] != '/' ==> Trim(s) == TrimEnd(s)
    ensures TrimEnd(s) == "" <==> Trim(s) == ""
    ensures s != "" && s[0] == '/' && TrimEnd(s) != "" ==> |Trim(s)| < |TrimEnd(s)|
  {
    if s == "" || s[0] != '/' {
      assert TrimStart(s) == s;
    } else if TrimEnd(s) == "" {
      AllSlashes(s);
    } else {
      TrimShortens(s);
    }
  }

  predicate Under(prefix: string, name: string) {
    prefix <= name
  }

  // The prefix has no leading and at most one trailing slash, and the rest of the name no leading one.
  predicate Plain(prefix: string, name: string)
    requires FusePrefix(prefix) < name
  {
    prefix == "" || (FusePath(prefix, name)[0] != '/' && (prefix == Trim(prefix) || prefix == Trim(prefix) + "/"))
  }

  // Hydrating a blob warms the very chunks that a mount will read, if and only if prefix and name are plain.
  lemma HydrateWarmsTheMount(prefix: string, name: string)
    requires FusePrefix(prefix) < name
    ensures HydratePath(prefix, name) == FusePath(prefix, name) <==> Plain(prefix, name)
  {
    if prefix != "" {
      var t, rel := Trim(prefix), FusePath(prefix, name);
      assert name == t + "/" + rel;
      if rel[0] != '/' && (prefix == t || prefix == t + "/") {
        PlainPrefix(t, rel, prefix);
        assert HydratePath(prefix, name) == rel;
      }
      if HydratePath(prefix, name) == rel {
        assert |name| > |rel|;
        assert prefix <= name && rel == TrimStart(name[|prefix|..]);
        assert rel[0] != '/';
        OnlyPlainPrefix(t, rel, prefix);
      }
    }
  }

  lemma PlainPrefix(t: string, rel: string, prefix: string)
    requires rel != "" && rel[0] != '/' && (prefix == t || prefix == t + "/")
    ensures prefix <= t + "/" + rel && TrimStart((t + "/" + rel)[|prefix|..]) == rel
  {
    var rest := (t + "/" + rel)[|prefix|..];
    if prefix == t {
      assert rest == "/" + rel && rest[1..] == rel;
    } else {
      assert rest == rel;
    }
  }

  lemma OnlyPlainPrefix(t: string, rel: string, prefix: string)
    requires rel != "" && rel[0] != '/' && prefix != "" && t == Trim(prefix) && prefix <= t + "/" + rel
    ensures prefix == t || prefix == t + "/"
  {
    hide Trim;
    var n := t + "/" + rel;
    TrimParts(prefix);
    assert n[|t|] == '/' && n[|t| + 1] == rel[0];
    assert forall i | 0 <= i < |prefix| :: prefix[i] == n[i];
    if prefix[0] == '/' {
      assert t == "" && TrimEnd(prefix) == "";
      assert forall i | 0 <= i < |prefix| :: prefix[i] == '/';
    } else {
      assert t == TrimEnd(prefix);
      assert |prefix| <= |t| + 1;
    }
  }

  // ---- What a hydrate lists ----

  // The prefix hydrate lists by: that of the mount, and below it the path of the request.
  function CombinedPrefix(prefix: string, path: string): string {
    if prefix == "" then path
    else if path == "" then prefix
    else TrimEnd(prefix) + (if path[0] == '/' then path else "/" + path)
  }

  // The store lists by string prefix.
  predicate Lists(prefix: string, path: string, name: string) {
    CombinedPrefix(prefix, path) <= name
  }

  lemma ListsItself(prefix: string, path: string)
    ensures Lists(prefix, path, CombinedPrefix(prefix, path))
  {
  }

  // A hydrate stays inside the mount if and only if the mount prefix has no leading slash, or is nothing
  // but slashes, and the listing prefix ends the name of the mount's directory with a slash.
  lemma HydrateStaysInMount(prefix: string, path: string)
    ensures (forall name | Lists(prefix, path, name) :: FusePrefix(prefix) <= name) <==>
      || prefix == ""
      || ((prefix[0] != '/' || TrimEnd(prefix) == "") && (path != "" || prefix[|prefix| - 1] == '/'))
  {
    hide Trim, TrimEnd, TrimStart, CombinedPrefix;
    ListsItself(prefix, path);
    var p, f := CombinedPrefix(prefix, path), FusePrefix(prefix);
    if prefix != "" {
      if prefix[0] == '/' && TrimEnd(prefix) != "" {
        LeadingSlash(prefix, path);
      } else {
        MountPrefix(prefix, path);
      }
    }
  }

  lemma LeadingSlash(prefix: string, path: string)
    requires prefix != "" && prefix[0] == '/' && TrimEnd(prefix) != ""
    ensures !(FusePrefix(prefix) <= CombinedPrefix(prefix, path))
  {
    hide Trim, TrimEnd, TrimStart;
    TrimParts(prefix);
    assert FusePrefix(prefix)[0] == Trim(prefix)[0];
    assert CombinedPrefix(prefix, path)[0] == '/';
  }

  lemma MountPrefix(prefix: string, path: string)
    requires prefix != "" && (prefix[0] != '/' || TrimEnd(prefix) == "")
    ensures FusePrefix(prefix) <= CombinedPrefix(prefix, path) <==> path != "" || prefix[|prefix| - 1] == '/'
  {
    hide Trim, TrimEnd, TrimStart;
    TrimParts(prefix);
    if path != "" {
      NextIsSlash(TrimEnd(prefix), if path[0] == '/' then path else "/" + path);
    } else {
      EndsInSlash(prefix);
    }
  }

  lemma NextIsSlash(e: string, below: string)
    requires below != "" && below[0] == '/'
    ensures e + "/" <= e + below
  {
  }

  lemma EndsInSlash(prefix: string)
    requires prefix != ""
    ensures TrimEnd(prefix) + "/" <= prefix <==> prefix[|prefix| - 1] == '/'
  {
    hide TrimEnd;
    SlashFollows(prefix, TrimEnd(prefix));
  }

  lemma SlashFollows(s: string, e: string)
    requires s != "" && e <= s && (s[|s| - 1] != '/' ==> e == s)
    requires (e == "" || e[|e| - 1] != '/') && forall i | |e| <= i < |s| :: s[i] == '/'
    ensures e + "/" <= s <==> s[|s| - 1] == '/'
  {
    assert s[|s| - 1] == '/' ==> |e| < |s| && s[|e|] == '/';
  }

  // ---- The keys hydrate gives ----

  ghost function Slashes(n: nat): (s: string)
    ensures |s| == n && forall i | 0 <= i < n :: s[i] == '/'
  {
    seq(n, _ => '/')
  }

  // The name is the prefix, some slashes, and rel.
  ghost predicate Spells(prefix: string, name: string, rel: string) {
    exists n: nat :: name == prefix + Slashes(n) + rel
  }

  predicate Bare(s: string) {
    s == "" || s[0] != '/'
  }

  // Names that hydrate cannot tell apart: they differ only in slashes after the prefix; or one lacks the
  // prefix and is what the other is after prefix and slashes.
  ghost predicate Confused(prefix: string, a: string, b: string) {
    || (exists rel :: Spells(prefix, a, rel) && Spells(prefix, b, rel))
    || (!(prefix <= b) && Bare(b) && Spells(prefix, a, b))
    || (!(prefix <= a) && Bare(a) && Spells(prefix, b, a))
  }

  // Two blobs get the same key if and only if hydrate cannot tell their names apart.
  lemma SameKeyIff(prefix: string, a: string, b: string)
    ensures HydratePath(prefix, a) == HydratePath(prefix, b) <==> a == b || (prefix != "" && Confused(prefix, a, b))
  {
    hide TrimStart, Spells;
    if prefix != "" {
      if prefix <= a && prefix <= b {
        if HydratePath(prefix, a) == HydratePath(prefix, b) {
          KeySpells(prefix, a);
          KeySpells(prefix, b);
        }
        if Confused(prefix, a, b) {
          var rel :| Spells(prefix, a, rel) && Spells(prefix, b, rel);
          SpellsKey(prefix, a, rel);
          SpellsKey(prefix, b, rel);
        }
      } else if prefix <= a {
        OneUnder(prefix, a, b);
      } else if prefix <= b {
        OneUnder(prefix, b, a);
      } else {
        SpellsUnder(prefix, a);
        SpellsUnder(prefix, b);
      }
    }
  }

  lemma OneUnder(prefix: string, a: string, b: string)
    requires prefix != "" && prefix <= a && !(prefix <= b)
    ensures HydratePath(prefix, a) == b <==> Bare(b) && Spells(prefix, a, b)
    ensures Confused(prefix, a, b) <==> Bare(b) && Spells(prefix, a, b)
    ensures Confused(prefix, b, a) <==> Bare(b) && Spells(prefix, a, b)
  {
    hide TrimStart, Spells;
    SpellsUnder(prefix, b);
    KeySpells(prefix, a);
    if Bare(b) && Spells(prefix, a, b) {
      SpellsKey(prefix, a, b);
      assert TrimStart(b) == b;
    }
  }

  lemma SpellsUnder(prefix: string, name: string)
    ensures forall rel | Spells(prefix, name, rel) :: prefix <= name
  {
  }

  lemma KeySpells(prefix: string, name: string)
    requires prefix != "" && prefix <= name
    ensures Bare(HydratePath(prefix, name)) && Spells(prefix, name, HydratePath(prefix, name))
  {
    hide TrimStart;
    var rest := name[|prefix|..];
    var rel := TrimStart(rest);
    var n := |rest| - |rel|;
    TrimStartOnly(rest);
    assert rest == Slashes(n) + rel;
    assert name == prefix + Slashes(n) + rel;
  }

  lemma SpellsKey(prefix: string, name: string, rel: string)
    requires prefix != "" && Spells(prefix, name, rel)
    ensures HydratePath(prefix, name) == TrimStart(rel)
  {
    hide TrimStart;
    var n: nat :| name == prefix + Slashes(n) + rel;
    assert prefix <= name && name[|prefix|..] == Slashes(n) + rel;
    TrimSlashes(n, rel);
  }

  // Leading slashes do not matter to TrimStart.
  lemma {:induction false} TrimSlashes(n: nat, rel: string)
    ensures TrimStart(Slashes(n) + rel) == TrimStart(rel)
  {
    if n == 0 {
      assert Slashes(0) + rel == rel;
    } else {
      assert (Slashes(n) + rel)[1..] == Slashes(n - 1) + rel;
      TrimSlashes(n - 1, rel);
    }
  }

  // So every prefix but the empty one has two blobs that share a key, plain prefixes included.
  lemma EveryPrefixCollides(prefix: string, rel: string)
    requires prefix != "" && rel != "" && rel[0] != '/'
    ensures prefix + rel != prefix + "/" + rel
    ensures HydratePath(prefix, prefix + rel) == HydratePath(prefix, prefix + "/" + rel) == rel
  {
    PlainPrefix(prefix, rel, prefix);
    hide TrimStart;
    assert (prefix + rel)[|prefix|..] == rel;
    assert prefix <= prefix + rel && TrimStart(rel) == rel;
    assert |prefix + rel| < |prefix + "/" + rel|;
  }

  // An instance: "database" lies beside the mount "data", gets the key of "data/base" inside it, and so
  // hydrate asks for "data/base" in its place.
  lemma HydrateConfusesNeighbours()
    ensures HydratePath("data", "data/base") == HydratePath("data", "database") == "base"
    ensures !(FusePrefix("data") <= "database") && RealPath("data", "base") == "data/base"
  {
    hide HydratePath, TrimStart, TrimEnd;
    EveryPrefixCollides("data", "base");
    assert "data" + "/" + "base" == "data/base" && "data" + "base" == "database";
    TrimParts("data");
    assert FusePrefix("data")[4] == '/' && "database"[4] == 'b';
  }

  // ---- Which hydrates name their blobs well ----

  // The path of the request names something, leading slashes aside.
  predicate NamesSomething(path: string) {
    TrimStart(path) != ""
  }

  // The slashes between mount prefix and path, and what follows them.
  lemma CombinedParts(prefix: string, path: string) returns (m: nat)
    requires prefix != "" && path != ""
    ensures m >= 1 && CombinedPrefix(prefix, path) == TrimEnd(prefix) + Slashes(m) + TrimStart(path)
    ensures m == 1 <==> Bare(path) || Bare(path[1..])
  {
    hide TrimStart, TrimEnd;
    TrimStartOnly(path);
    m := Joined(TrimEnd(prefix), path, TrimStart(path));
  }

  lemma Joined(e: string, path: string, rel: string) returns (m: nat)
    requires path != "" && |rel| <= |path| && rel == path[|path| - |rel|..] && Bare(rel)
    requires forall i | 0 <= i < |path| - |rel| :: path[i] == '/'
    ensures m >= 1 && e + (if path[0] == '/' then path else "/" + path) == e + Slashes(m) + rel
    ensures m == 1 <==> Bare(path) || Bare(path[1..])
  {
    var d := |path| - |rel|;
    if path[0] == '/' {
      m := d;
      assert path[..d] == Slashes(d);
      assert d >= 1;
      assert d >= 2 ==> path[1] == '/';
      Split(path[..d], path);
      Assoc(e, Slashes(d), rel);
    } else {
      m := 1;
      assert d == 0 && rel == path;
      assert Slashes(1) == "/";
      Assoc(e, "/", path);
    }
  }

  lemma PrefixParts(prefix: string)
    ensures prefix == TrimEnd(prefix) + Slashes(|prefix| - |TrimEnd(prefix)|)
  {
    hide TrimEnd;
  }

  lemma MoreSlashes(e: string, m: nat, n: nat)
    requires m <= n
    ensures e + Slashes(m) <= e + Slashes(n)
  {
    assert e + Slashes(n) == e + Slashes(m) + Slashes(n - m);
  }

  lemma ReachesIff(e: string, k: nat, m: nat, tail: string)
    requires tail != "" && tail[0] != '/'
    ensures Under(e + Slashes(k), e + Slashes(m) + tail) <==> k <= m
  {
    var prefix, name := e + Slashes(k), e + Slashes(m) + tail;
    if k <= m {
      MoreSlashes(e, k, m);
      assert e + Slashes(m) <= name;
    } else {
      assert prefix[|e| + m] == '/' && name[|e| + m] == tail[0];
    }
  }

  // A listed name below e + m slashes: hydrate cuts all the slashes off, or nothing at all.
  lemma ListedKey(e: string, k: nat, m: nat, tail: string)
    requires e + Slashes(k) != "" && tail != "" && tail[0] != '/'
    ensures HydratePath(e + Slashes(k), e + Slashes(m) + tail) == if m >= k then tail else e + Slashes(m) + tail
  {
    hide TrimStart;
    var prefix, name := e + Slashes(k), e + Slashes(m) + tail;
    ReachesIff(e, k, m, tail);
    if m >= k {
      assert name == prefix + Slashes(m - k) + tail;
      SpellsKey(prefix, name, tail);
    }
  }

  // What is listed under a path that names something.
  lemma ListedName(prefix: string, path: string, name: string) returns (m: nat, tail: string)
    requires prefix != "" && NamesSomething(path) && Lists(prefix, path, name)
    ensures path != "" && name == TrimEnd(prefix) + Slashes(m) + tail && m >= 1
    ensures tail != "" && tail[0] != '/' && Bare(tail)
    ensures m == 1 <==> Bare(path) || Bare(path[1..])
    ensures |CombinedPrefix(prefix, path)| == |TrimEnd(prefix)| + m + |TrimStart(path)|
  {
    assert path != "";
    hide TrimStart, TrimEnd, CombinedPrefix, Slashes;
    var p := CombinedPrefix(prefix, path);
    m := CombinedParts(prefix, path);
    Split(p, name);
    tail := TrimStart(path) + name[|p|..];
    Regroup(TrimEnd(prefix), Slashes(m), TrimStart(path), name[|p|..]);
  }

  lemma Assoc(a: string, b: string, c: string)
    ensures a + b + c == a + (b + c)
  {
  }

  lemma Regroup(a: string, b: string, c: string, d: string)
    ensures a + b + c + d == a + b + (c + d)
  {
    Assoc(a + b, c, d);
  }

  // Hydrate tells all the blobs of a request apart, if and only if the mount has no prefix or the path of
  // the request names something.
  lemma RequestTellsApart(prefix: string, path: string)
    ensures
      (forall a, b | Lists(prefix, path, a) && Lists(prefix, path, b)
                     && HydratePath(prefix, a) == HydratePath(prefix, b) :: a == b)
      <==> prefix == "" || NamesSomething(path)
  {
    hide TrimStart, TrimEnd, Lists, NamesSomething;
    if prefix != "" {
      if NamesSomething(path) {
        forall a, b | Lists(prefix, path, a) && Lists(prefix, path, b)
                      && HydratePath(prefix, a) == HydratePath(prefix, b)
          ensures a == b
        {
          SameListedKey(prefix, path, a, b);
        }
      } else {
        var a, b := Collision(prefix, path);
      }
    }
  }

  lemma SameListedKey(prefix: string, path: string, a: string, b: string)
    requires prefix != "" && NamesSomething(path) && Lists(prefix, path, a) && Lists(prefix, path, b)
    requires HydratePath(prefix, a) == HydratePath(prefix, b)
    ensures a == b
  {
    hide TrimStart, TrimEnd, Lists, NamesSomething, HydratePath, CombinedPrefix, Slashes, Bare;
    var e := TrimEnd(prefix);
    var m, x := ListedName(prefix, path, a);
    var n, y := ListedName(prefix, path, b);
    assert m == n;
    PrefixParts(prefix);
    ListedKey(e, |prefix| - |e|, m, x);
    ListedKey(e, |prefix| - |e|, m, y);
  }

  // Two blobs with one key in every listing whose path names nothing.
  lemma Collision(prefix: string, path: string) returns (a: string, b: string)
    requires prefix != "" && !NamesSomething(path)
    ensures Lists(prefix, path, a) && Lists(prefix, path, b) && a != b
    ensures HydratePath(prefix, a) == HydratePath(prefix, b)
  {
    hide TrimStart, TrimEnd, HydratePath, Slashes;
    var e := TrimEnd(prefix);
    var k := |prefix| - |e|;
    PrefixParts(prefix);
    var n := LastSlash(prefix, path);
    a, b := e + Slashes(n) + "x", e + Slashes(n + 1) + "x";
    MoreSlashes(e, n, n + 1);
    assert e + Slashes(n) <= a && e + Slashes(n + 1) <= b;
    ListedKey(e, k, n, "x");
    ListedKey(e, k, n + 1, "x");
    assert |a| < |b|;
  }

  lemma LastSlash(prefix: string, path: string) returns (n: nat)
    requires prefix != "" && !NamesSomething(path)
    ensures n >= |prefix| - |TrimEnd(prefix)| && CombinedPrefix(prefix, path) <= TrimEnd(prefix) + Slashes(n)
  {
    hide TrimStart, TrimEnd, Slashes;
    var e := TrimEnd(prefix);
    n := |prefix| - |e|;
    PrefixParts(prefix);
    if path != "" {
      var m := CombinedParts(prefix, path);
      n := if m > n then m else n;
      MoreSlashes(e, m, n);
      assert CombinedPrefix(prefix, path) == e + Slashes(m);
    }
  }

  // The name is e, one slash, and something that does not begin with another.
  predicate OneSlashAfter(e: string, name: string) {
    e + "/" <= name && Bare(name[|e| + 1..])
  }

  lemma OneSlashIff(e: string, d: nat, rel: string)
    requires Bare(rel)
    ensures e + "/" + rel == e + Slashes(d) + rel <==> d == 1
    ensures OneSlashAfter(e, e + Slashes(d) + rel) <==> d == 1
  {
    var name := e + Slashes(d) + rel;
    if d == 0 {
      assert rel != "" ==> name[|e|] == rel[0];
    } else if d == 1 {
      assert Slashes(1) == "/";
      assert name[|e| + 1..] == rel;
    } else {
      assert name[|e| + 1..][0] == '/';
      assert |name| > |e| + 1 + |rel|;
    }
  }

  // The blob hydrate asks for is the one it listed, if and only if the name has the prefix, and exactly
  // one slash follows the prefix without its own trailing slashes.
  lemma HydrateFetchesListed(prefix: string, name: string)
    ensures RealPath(prefix, HydratePath(prefix, name)) == name <==>
      || prefix == ""
      || (Under(prefix, name) && OneSlashAfter(TrimEnd(prefix), name))
  {
    hide TrimStart, TrimEnd, Slashes, Bare, OneSlashAfter;
    if prefix != "" {
      var e := TrimEnd(prefix);
      if prefix <= name {
        var d := KeyParts(prefix, name);
        OneSlashIff(e, d, HydratePath(prefix, name));
      } else {
        assert HydratePath(prefix, name) == name;
      }
    }
  }

  lemma KeyParts(prefix: string, name: string) returns (d: nat)
    requires prefix != "" && prefix <= name
    ensures name == TrimEnd(prefix) + Slashes(d) + HydratePath(prefix, name) && Bare(HydratePath(prefix, name))
  {
    hide TrimStart, TrimEnd, HydratePath;
    var e, rel := TrimEnd(prefix), HydratePath(prefix, name);
    PrefixParts(prefix);
    KeySpells(prefix, name);
    var n: nat :| name == prefix + Slashes(n) + rel;
    d := |prefix| - |e| + n;
    assert Slashes(|prefix| - |e|) + Slashes(n) == Slashes(d);
    assert name == e + Slashes(d) + rel;
  }

  // A hydrate asks for the blobs it listed, all of them, if and only if the mount has no prefix; or its
  // prefix has at most one trailing slash and the path names something after at most one slash.
  lemma RequestFetchesListed(prefix: string, path: string)
    ensures
      (forall name | Lists(prefix, path, name) :: RealPath(prefix, HydratePath(prefix, name)) == name) <==>
      || prefix == ""
      || (&& (prefix == TrimEnd(prefix) || prefix == TrimEnd(prefix) + "/")
          && NamesSomething(path) && (Bare(path) || Bare(path[1..])))
  {
    hide TrimStart, TrimEnd, Lists, NamesSomething, HydratePath, RealPath;
    if prefix == "" {
      forall name
        ensures RealPath(prefix, HydratePath(prefix, name)) == name
      {
        HydrateFetchesListed(prefix, name);
      }
    } else if NamesSomething(path) {
      forall name | Lists(prefix, path, name)
        ensures RealPath(prefix, HydratePath(prefix, name)) == name <==>
          && (prefix == TrimEnd(prefix) || prefix == TrimEnd(prefix) + "/") && (Bare(path) || Bare(path[1..]))
      {
        OneSlash(prefix, path, name);
      }
      ListsItself(prefix, path);
    } else {
      var a, b := Collision(prefix, path);
      assert RealPath(prefix, HydratePath(prefix, a)) == RealPath(prefix, HydratePath(prefix, b));
    }
  }

  lemma OneSlash(prefix: string, path: string, name: string)
    requires prefix != "" && NamesSomething(path) && Lists(prefix, path, name)
    ensures path != ""
    ensures RealPath(prefix, HydratePath(prefix, name)) == name <==>
      && (prefix == TrimEnd(prefix) || prefix == TrimEnd(prefix) + "/") && (Bare(path) || Bare(path[1..]))
  {
    hide TrimStart, TrimEnd, Lists, NamesSomething, HydratePath, RealPath, CombinedPrefix, Slashes, Under;
    hide OneSlashAfter, Bare;
    var e := TrimEnd(prefix);
    var k := |prefix| - |e|;
    var m, tail := ListedName(prefix, path, name);
    HydrateFetchesListed(prefix, name);
    FewSlashes(prefix);
    OneSlashIff(e, m, tail);
    ReachesIff(e, k, m, tail);
  }

  lemma FewSlashes(prefix: string)
    ensures
      var e := TrimEnd(prefix);
      var k := |prefix| - |e|;
      prefix == e + Slashes(k) && (k <= 1 <==> prefix == e || prefix == e + "/")
  {
    hide TrimEnd;
    PrefixParts(prefix);
    assert Slashes(0) == "" && Slashes(1) == "/";
  }
}
