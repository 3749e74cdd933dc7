/**
  What paths denote, and what following a run of `cd`s by joining strings gets right. A path starting with `/`
  starts at the root, one starting with `~` at a home directory, any other where one stands.
 */
module Places {
  import opened Prelude
  import opened Paths

  /** A directory is the list of names from the root; the root's parent is the root. */
  type Dir = seq<string>

  function Enter(dir: Dir, part: string): Dir
  {
    if part == "" || part == "." then dir
    else if part == ".." then (if dir == [] then [] else dir[..|dir| - 1])
    else dir + [part]
  }

  function Walk(dir: Dir, parts: seq<string>): Dir
    decreases parts
  {
    if parts == [] then dir else Walk(Enter(dir, parts[0]), parts[1..])
  }

  predicate Tilde(path: string)
  {
    path != "" && path[0] == '~'
  }

  /** Where one stands at first, and the home directory behind each `~` or `~name`. */
  datatype World = World(start: Dir, homes: string -> Dir)

  /** The directory `path` denotes to one who stands in `here`. */
  function Resolve(w: World, here: Dir, path: string): Dir
  {
    if Absolute(path) then Walk([], Split(path))
    else if Tilde(path) then Walk(w.homes(Split(path)[0]), Split(path)[1..])
    else Walk(here, Split(path))
  }

  /** The directory a run of `cd`s really leads to. */
  function Followed(w: World, dirs: seq<string>): Dir
  {
    if dirs == [] then w.start else Resolve(w, Followed(w, dirs[..|dirs| - 1]), dirs[|dirs| - 1])
  }

  /** The directory the tracked string denotes. */
  function Denoted(w: World, cwd: Option<string>): Dir
  {
    if cwd.None? then w.start else Resolve(w, w.start, cwd.value)
  }

  ghost predicate TracksRight(dirs: seq<string>)
  {
    forall w: World :: Denoted(w, Tracked(dirs)) == Followed(w, dirs)
  }

  // ---- Places: directories independent of the world ----

  datatype Base = Root | Start | Home(name: string)

  /** A base and a clean list of parts to walk from it. */
  datatype Place = Place(base: Base, parts: seq<string>)

  function BaseDir(w: World, base: Base): Dir
  {
    match base
    case Root => []
    case Start => w.start
    case Home(name) => w.homes(name)
  }

  function At(w: World, p: Place): Dir
  {
    Walk(BaseDir(w, p.base), p.parts)
  }

  function PlaceOf(path: string): Place
  {
    var parts := Split(path);
    if Absolute(path) then Place(Root, Collapse([], parts))
    else if Tilde(path) then Place(Home(parts[0]), Collapse([], parts[1..]))
    else Place(Start, Collapse([], parts))
  }

  function FollowedPlace(dirs: seq<string>): Place
  {
    if dirs == [] then Place(Start, [])
    else
      var before, dir := FollowedPlace(dirs[..|dirs| - 1]), dirs[|dirs| - 1];
      if Absolute(dir) || Tilde(dir) then PlaceOf(dir) else Place(before.base, Collapse(before.parts, Split(dir)))
  }

  function TrackedPlace(dirs: seq<string>): Place
  {
    if Tracked(dirs).None? then Place(Start, []) else PlaceOf(Tracked(dirs).value)
  }

  lemma {:induction false} WalkAppend(dir: Dir, a: seq<string>, b: seq<string>)
    ensures Walk(dir, a + b) == Walk(Walk(dir, a), b)
    decreases a
  {
    if a == [] {
      assert a + b == b;
    } else {
      assert (a + b)[1..] == a[1..] + b;
      WalkAppend(Enter(dir, a[0]), a[1..], b);
    }
  }

  lemma WalkLast(dir: Dir, parts: seq<string>, part: string)
    ensures Walk(dir, parts + [part]) == Enter(Walk(dir, parts), part)
  {
    WalkAppend(dir, parts, [part]);
    assert [part][1..] == [];
  }

  /** Collapsing a part keeps what the list walks to. */
  lemma PushKeepsWalk(dir: Dir, kept: seq<string>, part: string)
    requires Clean(kept)
    ensures Walk(dir, Push(kept, part)) == Enter(Walk(dir, kept), part)
  {
    if part == ".." && kept != [] && kept[|kept| - 1] != ".." {
      var last := |kept| - 1;
      assert kept == kept[..last] + [kept[last]];
      WalkLast(dir, kept[..last], kept[last]);
    } else {
      WalkLast(dir, kept, part);
    }
  }

  lemma {:induction false} CollapseKeepsWalk(dir: Dir, kept: seq<string>, parts: seq<string>)
    requires Clean(kept) && forall i :: 0 <= i < |parts| ==> '/' !in parts[i]
    ensures Walk(dir, Collapse(kept, parts)) == Walk(Walk(dir, kept), parts)
    decreases parts
  {
    if parts != [] {
      PushIsClean(kept, parts[0]);
      PushKeepsWalk(dir, kept, parts[0]);
      CollapseKeepsWalk(dir, Push(kept, parts[0]), parts[1..]);
    }
  }

  /** A path denotes its place, and the place is clean. */
  lemma PlaceIsMeant(w: World, path: string)
    ensures Resolve(w, w.start, path) == At(w, PlaceOf(path)) && Clean(PlaceOf(path).parts)
  {
    var parts := Split(path);
    CollapseIsClean([], parts);
    CollapseIsClean([], parts[1..]);
    CollapseKeepsWalk(BaseDir(w, PlaceOf(path).base), [], if Tilde(path) then parts[1..] else parts);
  }

  lemma {:induction false} FollowedIsMeant(w: World, dirs: seq<string>)
    ensures Followed(w, dirs) == At(w, FollowedPlace(dirs)) && Clean(FollowedPlace(dirs).parts)
  {
    if dirs != [] {
      var front, dir := dirs[..|dirs| - 1], dirs[|dirs| - 1];
      FollowedIsMeant(w, front);
      PlaceIsMeant(w, dir);
      if !Absolute(dir) && !Tilde(dir) {
        var before := FollowedPlace(front);
        CollapseIsClean(before.parts, Split(dir));
        CollapseKeepsWalk(BaseDir(w, before.base), before.parts, Split(dir));
      }
    }
  }

  lemma TrackedIsMeant(w: World, dirs: seq<string>)
    ensures Denoted(w, Tracked(dirs)) == At(w, TrackedPlace(dirs)) && Clean(TrackedPlace(dirs).parts)
  {
    if Tracked(dirs).Some? {
      PlaceIsMeant(w, Tracked(dirs).value);
    }
  }

  // ---- Two places that are not the same differ in some world ----

  /** How many leading `..`s. */
  function Ups(parts: seq<string>): (n: nat)
    ensures n <= |parts|
  {
    if parts == [] || parts[0] != ".." then 0 else 1 + Ups(parts[1..])
  }

  /** `n` steps down, all of one name. */
  function Deep(n: nat, name: string): Dir
  {
    seq(n, _ => name)
  }

  predicate Names(parts: seq<string>)
  {
    forall i :: 0 <= i < |parts| ==> parts[i] != "" && parts[i] != "." && parts[i] != ".."
  }

  lemma {:induction false} WalkNames(dir: Dir, parts: seq<string>)
    requires Names(parts)
    ensures Walk(dir, parts) == dir + parts
    decreases parts
  {
    if parts == [] {
      assert dir + parts == dir;
    } else {
      WalkNames(dir + [parts[0]], parts[1..]);
      assert dir + [parts[0]] + parts[1..] == dir + parts;
    }
  }

  lemma CleanTail(parts: seq<string>)
    requires Clean(parts) && parts != []
    ensures Clean(parts[1..]) && (parts[0] != ".." ==> Names(parts))
  {
    var rest := parts[1..];
    forall i | 0 < i < |rest| && rest[i] == ".." ensures rest[i - 1] == ".." {
      assert parts[i + 1] == "..";
    }
    if parts[0] != ".." {
      NamesFromName(parts, |parts|);
    }
  }

  lemma NameAfterName(parts: seq<string>, i: nat)
    requires Clean(parts) && 0 < i < |parts| && parts[i - 1] != ".."
    ensures parts[i] != ".."
  {
  }

  lemma {:induction false} NamesFromName(parts: seq<string>, n: nat)
    requires Clean(parts) && parts != [] && parts[0] != ".." && n <= |parts|
    ensures forall i :: 0 <= i < n ==> parts[i] != ".."
  {
    if n > 1 {
      NamesFromName(parts, n - 1);
      NameAfterName(parts, n - 1);
    }
  }

  /** Far enough down, climbing takes off the end and the names go on it. */
  lemma {:induction false} WalkDeep(n: nat, name: string, parts: seq<string>)
    requires Clean(parts) && Ups(parts) <= n
    ensures Walk(Deep(n, name), parts) == Deep(n - Ups(parts), name) + parts[Ups(parts)..]
    decreases parts
  {
    if parts == [] {
      assert Deep(n, name) + [] == Deep(n, name);
    } else {
      CleanTail(parts);
      if parts[0] == ".." {
        assert Deep(n, name)[..n - 1] == Deep(n - 1, name);
        WalkDeep(n - 1, name, parts[1..]);
      } else {
        WalkNames(Deep(n, name), parts);
      }
    }
  }

  lemma {:induction false} UpsAreUps(parts: seq<string>)
    ensures forall i :: 0 <= i < Ups(parts) ==> parts[i] == ".."
  {
    if parts != [] && parts[0] == ".." {
      UpsAreUps(parts[1..]);
      forall i | 0 <= i < Ups(parts) ensures parts[i] == ".." {
        if i > 0 {
          assert parts[1..][i - 1] == parts[i];
        }
      }
    }
  }

  lemma SamePartsByUps(p: seq<string>, q: seq<string>)
    requires Ups(p) == Ups(q) && p[Ups(p)..] == q[Ups(q)..]
    ensures p == q
  {
    UpsAreUps(p);
    UpsAreUps(q);
    var u := Ups(p);
    assert |p| == u + |p[u..]| && |q| == u + |q[u..]|;
    forall i | 0 <= i < |p| ensures p[i] == q[i] {
      if i >= u {
        assert p[i] == p[u..][i - u];
      }
    }
  }

  lemma SameFront(d: Dir, p: seq<string>, q: seq<string>)
    requires d + p == d + q
    ensures p == q
  {
    assert (d + p)[|d|..] == p && (d + q)[|d|..] == q;
  }

  lemma DeepTellsByNames(name: string, n: nat, p: seq<string>, q: seq<string>)
    requires p != q && Ups(p) == Ups(q) <= n
    ensures Deep(n - Ups(p), name) + p[Ups(p)..] != Deep(n - Ups(q), name) + q[Ups(q)..]
  {
    if p[Ups(p)..] == q[Ups(q)..] {
      SamePartsByUps(p, q);
    } else if Deep(n - Ups(p), name) + p[Ups(p)..] == Deep(n - Ups(q), name) + q[Ups(q)..] {
      SameFront(Deep(n - Ups(p), name), p[Ups(p)..], q[Ups(q)..]);
    }
  }

  lemma NotInTail(name: string, q: seq<string>, n: nat)
    requires name !in q && n <= |q|
    ensures name !in q[n..]
  {
  }

  lemma EndsDiffer(name: string, n: nat, p: seq<string>, q: seq<string>)
    requires p != q && name !in p && name !in q && Ups(p) <= n && Ups(q) <= n
    ensures Deep(n - Ups(p), name) + p[Ups(p)..] != Deep(n - Ups(q), name) + q[Ups(q)..]
  {
    NotInTail(name, p, Ups(p));
    NotInTail(name, q, Ups(q));
    if Ups(p) == Ups(q) {
      DeepTellsByNames(name, n, p, q);
    } else if Ups(p) < Ups(q) {
      DeepTellsByUps(name, n - Ups(p), p[Ups(p)..], n - Ups(q), q[Ups(q)..]);
    } else {
      DeepTellsByUps(name, n - Ups(q), q[Ups(q)..], n - Ups(p), p[Ups(p)..]);
    }
  }

  /** Where a walk from `n` deep ends. */
  function EndOf(n: nat, name: string, parts: seq<string>): Dir
    requires Ups(parts) <= n
  {
    Deep(n - Ups(parts), name) + parts[Ups(parts)..]
  }

  /** Walks down different parts end in different directories, from deep down names they do not use. */
  lemma DeepTells(name: string, n: nat, p: seq<string>, q: seq<string>)
    requires Clean(p) && Clean(q) && p != q && name !in p && name !in q && Ups(p) <= n && Ups(q) <= n
    ensures Walk(Deep(n, name), p) != Walk(Deep(n, name), q)
  {
    assert EndOf(n, name, p) != EndOf(n, name, q) by {
      EndsDiffer(name, n, p, q);
    }
    assert Walk(Deep(n, name), p) == EndOf(n, name, p) by {
      WalkDeep(n, name, p);
    }
    assert Walk(Deep(n, name), q) == EndOf(n, name, q) by {
      WalkDeep(n, name, q);
    }
  }

  lemma DeepTellsByUps(name: string, n: nat, p: seq<string>, m: nat, q: seq<string>)
    requires m < n && name !in q
    ensures Deep(n, name) + p != Deep(m, name) + q
  {
    var a, b := Deep(n, name) + p, Deep(m, name) + q;
    if |a| == |b| {
      assert a[m] == name && b[m] == q[0];
    }
  }

  function Longest(parts: seq<string>): (n: nat)
    ensures forall i :: 0 <= i < |parts| ==> |parts[i]| <= n
  {
    if parts == [] then 0
    else
      var n := Longest(parts[1..]);
      assert forall i :: 0 < i < |parts| ==> parts[i] == parts[1..][i - 1];
      if |parts[0]| > n then |parts[0]| else n
  }

  /** A name longer than any of `parts`. */
  lemma NewName(parts: seq<string>) returns (name: string)
    ensures name !in parts
  {
    name := seq(Longest(parts) + 1, _ => 'd');
  }

  lemma {:induction false} WalkStaysNear(dir: Dir, parts: seq<string>)
    ensures |dir| - |parts| <= |Walk(dir, parts)| <= |dir| + |parts|
    decreases parts
  {
    if parts != [] {
      WalkStaysNear(Enter(dir, parts[0]), parts[1..]);
    }
  }

  /** A world in which `base` is `n` deep and everything else `m` deep. */
  function Told(base: Base, n: nat, m: nat, name: string): World
  {
    World(Deep(if base == Start then n else m, name),
          other => Deep(if base == Home(other) then n else m, name))
  }

  lemma BasesTell(p: Place, q: Place) returns (w: World)
    requires p.base != q.base && p.base != Root
    ensures At(w, p) != At(w, q)
  {
    var m := |q.parts|;
    w := Told(p.base, |p.parts| + m + m + 1, m, "d");
    WalkStaysNear(BaseDir(w, p.base), p.parts);
    WalkStaysNear(BaseDir(w, q.base), q.parts);
  }

  lemma PartsTell(p: Place, q: Place) returns (w: World)
    requires p.base == q.base != Root && p != q && Clean(p.parts) && Clean(q.parts)
    ensures At(w, p) != At(w, q)
  {
    var name := NewName(p.parts + q.parts);
    var n := |p.parts| + |q.parts|;
    assert name !in p.parts && name !in q.parts by {
      assert forall x :: x in p.parts || x in q.parts ==> x in p.parts + q.parts;
    }
    w := Told(p.base, n, n, name);
    DeepTells(name, n, p.parts, q.parts);
  }

  /** Different places, not both under the root, are different directories in some world. */
  lemma PlacesTell(p: Place, q: Place) returns (w: World)
    requires p != q && (p.base != Root || q.base != Root) && Clean(p.parts) && Clean(q.parts)
    ensures At(w, p) != At(w, q)
  {
    if p.base == q.base {
      w := PartsTell(p, q);
    } else if p.base != Root {
      w := BasesTell(p, q);
    } else {
      w := BasesTell(q, p);
    }
  }
}
