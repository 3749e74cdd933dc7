/** Lexical paths: what `normalize` does to a path, and how a run of `cd`s is tracked by joining strings. */
module Paths {
  import opened Prelude

  predicate Absolute(path: string)
  {
    path != "" && path[0] == '/'
  }

  /** The parts between slashes; one empty part for the empty path. */
  function Split(path: string): (parts: seq<string>)
    ensures |parts| >= 1
    ensures forall i :: 0 <= i < |parts| ==> '/' !in parts[i]
  {
    if path == "" then [""]
    else
      var rest := Split(path[1..]);
      if path[0] == '/' then [""] + rest else [[path[0]] + rest[0]] + rest[1..]
  }

  function Join(parts: seq<string>): string
  {
    if parts == [] then "" else if |parts| == 1 then parts[0] else parts[0] + "/" + Join(parts[1..])
  }

  /** One part against the parts kept so far. */
  function Push(kept: seq<string>, part: string): seq<string>
  {
    if part == "" || part == "." then kept
    else if part == ".." && kept != [] && kept[|kept| - 1] != ".." then kept[..|kept| - 1]
    else kept + [part]
  }

  function Collapse(kept: seq<string>, parts: seq<string>): seq<string>
    decreases parts
  {
    if parts == [] then kept else Collapse(Push(kept, parts[0]), parts[1..])
  }

  function Normalize(path: string): string
  {
    (if Absolute(path) then "/" else "") + Join(Collapse([], Split(path)))
  }

  method NormalizeInLoop(path: string) returns (r: string)
    ensures r == Normalize(path)
  {
    var parts, kept := Split(path), [];
    for i := 0 to |parts|
      invariant Collapse(kept, parts[i..]) == Collapse([], parts)
    {
      var part := parts[i];
      if part == "" || part == "." {
      } else if part == ".." && kept != [] && kept[|kept| - 1] != ".." {
        kept := kept[..|kept| - 1];
      } else {
        kept := kept + [part];
      }
      assert parts[i..][1..] == parts[i + 1..];
    }
    r := Join(kept);
    if Absolute(path) {
      r := "/" + r;
    }
  }

  // ---- Splitting and joining ----

  lemma {:induction false} SplitJoins(a: string, b: string)
    ensures Split(a + "/" + b) == Split(a) + Split(b)
    decreases a
  {
    if a == "" {
      assert a + "/" + b == "/" + b;
      assert ("/" + b)[1..] == b;
    } else {
      assert (a + "/" + b)[1..] == a[1..] + "/" + b;
      SplitJoins(a[1..], b);
    }
  }

  lemma {:induction false} SplitPlain(part: string)
    requires '/' !in part
    ensures Split(part) == [part]
  {
    if part != "" {
      SplitPlain(part[1..]);
      assert part == [part[0]] + part[1..];
    }
  }

  /** Splitting undoes joining, for at least one part. */
  lemma {:induction false} SplitOfJoin(parts: seq<string>)
    requires parts != [] && forall i :: 0 <= i < |parts| ==> '/' !in parts[i]
    ensures Split(Join(parts)) == parts
  {
    if |parts| == 1 {
      SplitPlain(parts[0]);
      assert parts == [parts[0]];
    } else {
      SplitOfJoin(parts[1..]);
      SplitJoins(parts[0], Join(parts[1..]));
      SplitPlain(parts[0]);
      assert parts == [parts[0]] + parts[1..];
    }
  }

  // ---- The shape of a normal path ----

  /** Leading `..`s, then only names; no part holds a slash. */
  predicate Clean(kept: seq<string>)
  {
    && (forall i :: 0 <= i < |kept| ==> '/' !in kept[i] && kept[i] != "" && kept[i] != ".")
    && (forall i :: 0 < i < |kept| && kept[i] == ".." ==> kept[i - 1] == "..")
  }

  lemma PushIsClean(kept: seq<string>, part: string)
    requires Clean(kept) && '/' !in part
    ensures Clean(Push(kept, part))
  {
  }

  lemma {:induction false} CollapseIsClean(kept: seq<string>, parts: seq<string>)
    requires Clean(kept) && forall i :: 0 <= i < |parts| ==> '/' !in parts[i]
    ensures Clean(Collapse(kept, parts))
    decreases parts
  {
    if parts != [] {
      PushIsClean(kept, parts[0]);
      CollapseIsClean(Push(kept, parts[0]), parts[1..]);
    }
  }

  /** A clean list collapses to itself. */
  lemma {:induction false} CollapseOfClean(kept: seq<string>, parts: seq<string>)
    requires Clean(kept + parts)
    ensures Collapse(kept, parts) == kept + parts
    decreases parts
  {
    if parts != [] {
      assert (kept + parts)[|kept|] == parts[0];
      if kept != [] {
        assert (kept + parts)[|kept| - 1] == kept[|kept| - 1];
      }
      assert kept + parts == (kept + [parts[0]]) + parts[1..];
      CollapseOfClean(kept + [parts[0]], parts[1..]);
    }
  }

  /** The parts of a normal path, as `Split` sees them. */
  lemma NormalParts(path: string)
    ensures var kept := Collapse([], Split(path));
            && Clean(kept)
            && Absolute(Normalize(path)) == Absolute(path)
            && Split(Normalize(path))
               == (if Absolute(path) then [""] else []) + (if kept == [] then [""] else kept)
  {
    var kept := Collapse([], Split(path));
    CollapseIsClean([], Split(path));
    if kept == [] {
      assert Normalize(path) == if Absolute(path) then "/" else "";
      assert Split("/") == [""] + Split("") by { assert "/"[1..] == ""; }
    } else {
      SplitOfJoin(kept);
      assert Join(kept)[0] == kept[0][0];
      assert ("/" + Join(kept))[1..] == Join(kept);
      assert "" + Join(kept) == Join(kept);
    }
  }

  /** A normal path is leading `..`s and then names, and normalizing it changes nothing. */
  lemma NormalizeIsIdempotent(path: string)
    ensures Normalize(Normalize(path)) == Normalize(path)
  {
    var kept := Collapse([], Split(path));
    NormalParts(path);
    var shown := if kept == [] then [""] else kept;
    assert Collapse([], shown) == kept by {
      if kept == [] {
        assert [""][1..] == [];
      } else {
        assert [] + kept == kept;
        CollapseOfClean([], kept);
      }
    }
    assert Collapse([], [""] + shown) == Collapse([], shown) by { assert ([""] + shown)[1..] == shown; }
    assert [] + shown == shown;
  }

  // ---- Following `cd`s ----

  /** A path as recorded against the directory tracked so far, if one is. */
  function Joined(cwd: Option<string>, path: string): string
  {
    if cwd.Some? && !Absolute(path) then Normalize(cwd.value + "/" + path) else Normalize(path)
  }

  /** The directory tracked after a run of `cd`s. */
  function Tracked(dirs: seq<string>): Option<string>
  {
    if dirs == [] then None
    else Some(Joined(Tracked(dirs[..|dirs| - 1]), dirs[|dirs| - 1]))
  }
}
