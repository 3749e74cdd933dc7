/** When the directory tracked over a run of `cd`s, and a target recorded after it, are the ones meant. */
module Tracking {
  import opened Prelude
  import opened Paths
  import opened Places

  // ---- The condition, on the operands alone ----

  predicate HasAbsolute(dirs: seq<string>)
  {
    dirs != [] && (Absolute(dirs[|dirs| - 1]) || HasAbsolute(dirs[..|dirs| - 1]))
  }

  /** The operands after the last absolute one. */
  function SinceAbsolute(dirs: seq<string>): seq<string>
  {
    if dirs == [] || Absolute(dirs[|dirs| - 1]) then []
    else SinceAbsolute(dirs[..|dirs| - 1]) + [dirs[|dirs| - 1]]
  }

  predicate NoTilde(dirs: seq<string>)
  {
    forall i :: 0 <= i < |dirs| ==> !Tilde(dirs[i])
  }

  /** The parts of all the operands in a row. */
  function AllParts(dirs: seq<string>): (parts: seq<string>)
    ensures dirs != [] ==> parts != []
    ensures forall i :: 0 <= i < |parts| ==> '/' !in parts[i]
  {
    if dirs == [] then [] else AllParts(dirs[..|dirs| - 1]) + Split(dirs[|dirs| - 1])
  }

  /** What is left of them after every `..` has taken a name off. */
  function Left(dirs: seq<string>): seq<string>
  {
    Collapse([], AllParts(dirs))
  }

  /** Nothing is left of the operands before some further one. */
  predicate CancelsOut(dirs: seq<string>)
  {
    |dirs| > 1 && (CancelsOut(dirs[..|dirs| - 1]) || Left(dirs[..|dirs| - 1]) == [])
  }

  /** The parts lead above where they start. */
  predicate Climbs(parts: seq<string>)
  {
    var left := Collapse([], parts);
    left != [] && left[0] == ".."
  }

  /** After an absolute operand, no `~`. Without one: nothing joined onto operands that have cancelled out; a `~`
      in first place only, and never climbed above; and otherwise nothing starting with `~` left in front. */
  predicate Safe(dirs: seq<string>)
  {
    if HasAbsolute(dirs) then NoTilde(SinceAbsolute(dirs))
    else
      dirs == [] ||
      (&& !CancelsOut(dirs) && NoTilde(dirs[1..])
       && if Tilde(dirs[0]) then !Climbs(AllParts(dirs)[1..])
          else Left(dirs) == [] || !Tilde(Left(dirs)[0]))
  }

  // ---- Collapsing in stages ----

  lemma {:induction false} CollapseAppend(kept: seq<string>, a: seq<string>, b: seq<string>)
    ensures Collapse(kept, a + b) == Collapse(Collapse(kept, a), b)
    decreases a
  {
    if a == [] {
      assert a + b == b;
    } else {
      assert (a + b)[1..] == a[1..] + b;
      CollapseAppend(Push(kept, a[0]), a[1..], b);
    }
  }

  lemma CollapseSnoc(kept: seq<string>, a: seq<string>, part: string)
    ensures Collapse(kept, a + [part]) == Push(Collapse(kept, a), part)
  {
    CollapseAppend(kept, a, [part]);
    assert [part][1..] == [];
  }

  /** One part onto a collapsed list, or onto what it collapses to from further up. */
  lemma PushInStages(kept: seq<string>, q: seq<string>, part: string)
    requires Clean(q)
    ensures Collapse(kept, Push(q, part)) == Push(Collapse(kept, q), part)
  {
    if part == ".." && q != [] && q[|q| - 1] != ".." {
      var front, name := q[..|q| - 1], q[|q| - 1];
      assert q == front + [name];
      CollapseSnoc(kept, front, name);
      assert (Collapse(kept, front) + [name])[..|Collapse(kept, front)|] == Collapse(kept, front);
    } else if part != "" && part != "." {
      CollapseSnoc(kept, q, part);
    }
  }

  lemma {:induction false} CollapseInStages(kept: seq<string>, q: seq<string>, parts: seq<string>)
    requires Clean(q) && forall i :: 0 <= i < |parts| ==> '/' !in parts[i]
    ensures Collapse(kept, Collapse(q, parts)) == Collapse(Collapse(kept, q), parts)
    decreases parts
  {
    if parts != [] {
      PushIsClean(q, parts[0]);
      PushInStages(kept, q, parts[0]);
      CollapseInStages(kept, Push(q, parts[0]), parts[1..]);
    }
  }

  // ---- Where a normal path leads ----

  /** The place of a normal relative path, by its parts. */
  function Shape(left: seq<string>): Place
  {
    if left != [] && Tilde(left[0]) then Place(Home(left[0]), left[1..]) else Place(Start, left)
  }

  lemma CollapseShown(kept: seq<string>)
    requires Clean(kept)
    ensures Collapse([], if kept == [] then [""] else kept) == kept
    ensures Collapse([], [""] + if kept == [] then [""] else kept) == kept
  {
    var shown := if kept == [] then [""] else kept;
    if kept == [] {
      assert [""][1..] == [];
    } else {
      assert [] + kept == kept;
      CollapseOfClean([], kept);
    }
    assert ([""] + shown)[1..] == shown;
  }

  lemma PlaceOfJoined(kept: seq<string>)
    requires Clean(kept) && kept != []
    ensures PlaceOf(Join(kept)) == Shape(kept)
  {
    SplitOfJoin(kept);
    assert Join(kept)[0] == kept[0][0];
    CleanTail(kept);
    assert [] + kept == kept && [] + kept[1..] == kept[1..];
    CollapseOfClean([], kept);
    CollapseOfClean([], kept[1..]);
  }

  lemma NormalPlace(path: string)
    ensures var kept := Collapse([], Split(path));
            && PlaceOf(Normalize(path)) == (if Absolute(path) then Place(Root, kept) else Shape(kept))
            && Collapse([], Split(Normalize(path))) == kept && Clean(kept)
            && (!Absolute(path) ==> (Normalize(path) == "" <==> kept == []))
  {
    var kept := Collapse([], Split(path));
    NormalParts(path);
    CollapseShown(kept);
    var shown := if kept == [] then [""] else kept;
    assert [] + shown == shown;
    if !Absolute(path) {
      assert "" + Join(kept) == Join(kept);
      if kept != [] {
        PlaceOfJoined(kept);
        assert Join(kept)[0] == kept[0][0];
      }
    }
  }

  lemma JoinPlace(c: string, dir: string)
    requires c != ""
    ensures Absolute(c + "/" + dir) == Absolute(c)
    ensures Collapse([], Split(c + "/" + dir)) == Collapse(Collapse([], Split(c)), Split(dir))
  {
    SplitJoins(c, dir);
    CollapseAppend([], Split(c), Split(dir));
  }

  // ---- Runs with an absolute operand ----

  lemma {:induction false} AbsoluteRun(dirs: seq<string>)
    requires HasAbsolute(dirs)
    ensures Tracked(dirs).Some? && Absolute(Tracked(dirs).value)
    ensures if NoTilde(SinceAbsolute(dirs)) then FollowedPlace(dirs) == TrackedPlace(dirs)
            else FollowedPlace(dirs).base.Home?
    ensures TrackedPlace(dirs).base == Root
  {
    var front, dir := dirs[..|dirs| - 1], dirs[|dirs| - 1];
    if Absolute(dir) {
      NormalPlace(dir);
    } else {
      AbsoluteRun(front);
      var c := Tracked(front).value;
      JoinPlace(c, dir);
      NormalPlace(c + "/" + dir);
      NoTildeSnoc(SinceAbsolute(front), dir);
    }
  }

  lemma NoTildeSnoc(dirs: seq<string>, dir: string)
    ensures NoTilde(dirs + [dir]) <==> NoTilde(dirs) && !Tilde(dir)
  {
    assert (dirs + [dir])[|dirs|] == dir;
    assert forall i :: 0 <= i < |dirs| ==> (dirs + [dir])[i] == dirs[i];
  }

  // ---- Runs without one ----

  lemma {:induction false} NeverRoot(dirs: seq<string>)
    requires !HasAbsolute(dirs)
    ensures FollowedPlace(dirs).base != Root
  {
    if dirs != [] {
      NeverRoot(dirs[..|dirs| - 1]);
    }
  }

  lemma LeftOfOne(dir: string)
    ensures Left([dir]) == Collapse([], Split(dir)) && AllParts([dir]) == Split(dir)
  {
    assert [dir][..0] == [];
    assert AllParts([]) + Split(dir) == Split(dir);
  }

  lemma LeftSnoc(dirs: seq<string>)
    requires dirs != []
    ensures Left(dirs) == Collapse(Left(dirs[..|dirs| - 1]), Split(dirs[|dirs| - 1])) && Clean(Left(dirs))
  {
    CollapseAppend([], AllParts(dirs[..|dirs| - 1]), Split(dirs[|dirs| - 1]));
    CollapseIsClean([], AllParts(dirs));
  }

  /** The tracked string is what is left of the operands. */
  lemma {:induction false} TrackedIsLeft(dirs: seq<string>)
    requires !HasAbsolute(dirs) && !CancelsOut(dirs) && dirs != []
    ensures Tracked(dirs).Some? && !Absolute(Tracked(dirs).value)
    ensures Collapse([], Split(Tracked(dirs).value)) == Left(dirs) && (Tracked(dirs).value == "" <==> Left(dirs) == [])
    ensures TrackedPlace(dirs) == Shape(Left(dirs))
  {
    var front, dir := dirs[..|dirs| - 1], dirs[|dirs| - 1];
    LeftSnoc(dirs);
    if front == [] {
      NormalPlace(dir);
      NormalParts(dir);
    } else {
      TrackedIsLeft(front);
      var c := Tracked(front).value;
      JoinPlace(c, dir);
      NormalPlace(c + "/" + dir);
      NormalParts(c + "/" + dir);
    }
  }

  /** Once joined onto nothing, the tracked string is absolute. */
  lemma {:induction false} CancelledIsAbsolute(dirs: seq<string>)
    requires !HasAbsolute(dirs) && CancelsOut(dirs)
    ensures Tracked(dirs).Some? && Absolute(Tracked(dirs).value) && TrackedPlace(dirs).base == Root
  {
    var front, dir := dirs[..|dirs| - 1], dirs[|dirs| - 1];
    if CancelsOut(front) {
      CancelledIsAbsolute(front);
    } else {
      TrackedIsLeft(front);
    }
    var joined := Tracked(front).value + "/" + dir;
    assert Absolute(joined);
    NormalPlace(joined);
    NormalParts(joined);
  }

  lemma {:induction false} NoTildeRun(dirs: seq<string>)
    requires !HasAbsolute(dirs) && NoTilde(dirs)
    ensures FollowedPlace(dirs) == Place(Start, Left(dirs))
  {
    if dirs != [] {
      var front := dirs[..|dirs| - 1];
      assert !Tilde(dirs[|dirs| - 1]);
      assert forall i :: 0 <= i < |front| ==> front[i] == dirs[i];
      NoTildeRun(front);
      LeftSnoc(dirs);
    }
  }

  /** The first part of a `~` path is a name. */
  lemma TildeParts(path: string)
    requires Tilde(path)
    ensures var parts := Split(path);
            && Tilde(parts[0]) && Clean([parts[0]]) && parts == [parts[0]] + parts[1..]
  {
    assert path[0] != '/';
  }

  /** What is left before the last `~` operand. */
  function Before(dirs: seq<string>): seq<string>
  {
    if dirs == [] then []
    else if Tilde(dirs[|dirs| - 1]) then Left(dirs[..|dirs| - 1])
    else Before(dirs[..|dirs| - 1])
  }

  /** The last `~` operand and what follows it decide where one is; what is left has them behind what came
      before. */
  lemma {:induction false} TildeRun(dirs: seq<string>)
    requires !HasAbsolute(dirs) && !NoTilde(dirs)
    ensures var p := FollowedPlace(dirs);
            && p.base.Home? && Tilde(p.base.name) && Clean([p.base.name]) && Clean(p.parts)
            && Left(dirs) == Collapse(Before(dirs) + [p.base.name], p.parts)
  {
    var front, dir := dirs[..|dirs| - 1], dirs[|dirs| - 1];
    LeftSnoc(dirs);
    if Tilde(dir) {
      TildeParts(dir);
      var parts := Split(dir);
      CollapseIsClean([], parts[1..]);
      CollapseInStages(Left(front) + [parts[0]], [], parts[1..]);
    } else {
      assert dirs == front + [dir];
      NoTildeSnoc(front, dir);
      TildeRun(front);
      var p := FollowedPlace(front);
      CollapseIsClean(p.parts, Split(dir));
      CollapseInStages(Before(front) + [p.base.name], p.parts, Split(dir));
    }
  }

  /** Nothing comes before the last `~` operand exactly when it is the first operand. */
  lemma {:induction false} BeforeIsEmpty(dirs: seq<string>)
    requires !CancelsOut(dirs) && !NoTilde(dirs)
    ensures Before(dirs) == [] <==> NoTilde(dirs[1..])
  {
    var front, dir := dirs[..|dirs| - 1], dirs[|dirs| - 1];
    assert dirs == front + [dir];
    if |dirs| == 1 {
      assert Left([]) == [];
    } else {
      assert dirs[1..] == front[1..] + [dir];
      NoTildeSnoc(front[1..], dir);
      NoTildeSnoc(front, dir);
      if !Tilde(dir) {
        BeforeIsEmpty(front);
      }
    }
  }

  lemma TailOfAppend(a: seq<string>, b: seq<string>)
    requires a != []
    ensures (a + b)[1..] == a[1..] + b
  {
  }

  lemma PartsBehindFirst(front: seq<string>, dir: string)
    requires front != []
    ensures AllParts(front + [dir])[1..] == AllParts(front)[1..] + Split(dir)
  {
    assert (front + [dir])[..|front|] == front;
    TailOfAppend(AllParts(front), Split(dir));
  }

  lemma {:induction false} FirstTilde(dirs: seq<string>)
    requires !HasAbsolute(dirs) && dirs != [] && Tilde(dirs[0]) && NoTilde(dirs[1..])
    ensures FollowedPlace(dirs).parts == Collapse([], AllParts(dirs)[1..])
  {
    var front, dir := dirs[..|dirs| - 1], dirs[|dirs| - 1];
    if |dirs| == 1 {
      assert dirs == [dir];
      LeftOfOne(dir);
    } else {
      assert dirs[1..] == front[1..] + [dir];
      NoTildeSnoc(front[1..], dir);
      FirstTilde(front);
      PartsBehindFirst(front, dir);
      assert dirs == front + [dir];
      CollapseAppend([], AllParts(front)[1..], Split(dir));
    }
  }

  // ---- When the two agree ----

  /** Clean parts are themselves behind a name exactly if that name is all there is and they do not climb. */
  lemma BehindName(stem: seq<string>, name: string, parts: seq<string>)
    requires Clean(stem) && Clean([name]) && name != ".." && Clean(parts)
    ensures Collapse(stem, parts) == [name] + parts <==> stem == [name] && (parts == [] || parts[0] != "..")
  {
    CollapseIsClean(stem, parts);
    if parts == [] || parts[0] != ".." {
      NamesBehind(stem, parts);
      CollapseOfClean(stem, parts);
      if stem + parts == [name] + parts {
        assert |stem| == 1 && (stem + parts)[0] == stem[0];
      }
    } else {
      assert ([name] + parts)[1] == ".." && ([name] + parts)[0] == name;
      assert !Clean([name] + parts);
    }
  }

  /** A home directory below other parts is never where one is; by itself it is, until climbed above. */
  lemma HomeInFront(before: seq<string>, name: string, parts: seq<string>)
    requires Clean(before) && Clean([name]) && name != ".." && Clean(parts)
    ensures Collapse(before + [name], parts) == [name] + parts
            <==> before == [] && (parts == [] || parts[0] != "..")
  {
    BehindName(before + [name], name, parts);
    assert before == [] ==> before + [name] == [name];
  }

  lemma NamesBehind(stem: seq<string>, parts: seq<string>)
    requires Clean(stem) && Clean(parts) && (parts == [] || parts[0] != "..")
    ensures Clean(stem + parts)
  {
    if parts != [] {
      CleanTail(parts);
    }
    var all := stem + parts;
    forall i | 0 < i < |all| && all[i] == ".." ensures all[i - 1] == ".." {
      assert i < |stem|;
    }
  }

  lemma ShapeOfHome(left: seq<string>, name: string, parts: seq<string>)
    requires Tilde(name)
    ensures Shape(left) == Place(Home(name), parts) <==> left == [name] + parts
  {
    if left != [] {
      assert left == [left[0]] + left[1..];
    }
  }

  lemma {:induction false} BeforeIsClean(dirs: seq<string>)
    ensures Clean(Before(dirs))
  {
    if dirs != [] {
      if Tilde(dirs[|dirs| - 1]) {
        CollapseIsClean([], AllParts(dirs[..|dirs| - 1]));
      } else {
        BeforeIsClean(dirs[..|dirs| - 1]);
      }
    }
  }

  lemma TildePlaces(dirs: seq<string>)
    requires !HasAbsolute(dirs) && !CancelsOut(dirs) && !NoTilde(dirs)
    ensures TrackedPlace(dirs) == FollowedPlace(dirs) <==> Safe(dirs)
  {
    TrackedIsLeft(dirs);
    TildeRun(dirs);
    BeforeIsEmpty(dirs);
    BeforeIsClean(dirs);
    var p := FollowedPlace(dirs);
    ShapeOfHome(Left(dirs), p.base.name, p.parts);
    HomeInFront(Before(dirs), p.base.name, p.parts);
    if NoTilde(dirs[1..]) {
      TildeIsFirst(dirs);
      FirstTilde(dirs);
    }
  }

  lemma TildeIsFirst(dirs: seq<string>)
    requires dirs != [] && NoTilde(dirs[1..]) && !NoTilde(dirs)
    ensures Tilde(dirs[0])
  {
    forall i | 0 < i < |dirs| ensures !Tilde(dirs[i]) {
      assert dirs[1..][i - 1] == dirs[i];
    }
  }

  lemma PlainPlaces(dirs: seq<string>)
    requires !HasAbsolute(dirs) && !CancelsOut(dirs) && NoTilde(dirs)
    ensures TrackedPlace(dirs) == FollowedPlace(dirs) <==> Safe(dirs)
  {
    NoTildeRun(dirs);
    if dirs == [] {
      assert Left(dirs) == [];
    } else {
      TrackedIsLeft(dirs);
      assert !Tilde(dirs[0]);
    }
  }

  /** The places agree exactly on safe runs, and where they do not they are not both under the root. */
  lemma PlacesAgree(dirs: seq<string>)
    ensures TrackedPlace(dirs) == FollowedPlace(dirs) <==> Safe(dirs)
    ensures !Safe(dirs) ==> TrackedPlace(dirs).base != Root || FollowedPlace(dirs).base != Root
  {
    if HasAbsolute(dirs) {
      AbsoluteRun(dirs);
    } else {
      NeverRoot(dirs);
      if CancelsOut(dirs) {
        CancelledIsAbsolute(dirs);
      } else if NoTilde(dirs) {
        PlainPlaces(dirs);
      } else {
        TildePlaces(dirs);
      }
    }
  }

  /** For every run of `cd`s: what is tracked denotes where they lead, from every starting directory and with
      every home, if and only if the run is safe. */
  lemma TrackingIsRightExactlyWhenSafe(dirs: seq<string>)
    ensures TracksRight(dirs) <==> Safe(dirs)
  {
    PlacesAgree(dirs);
    if Safe(dirs) {
      forall w: World ensures Denoted(w, Tracked(dirs)) == Followed(w, dirs) {
        TrackedIsMeant(w, dirs);
        FollowedIsMeant(w, dirs);
      }
    } else {
      var any := World([], _ => []);
      TrackedIsMeant(any, dirs);
      FollowedIsMeant(any, dirs);
      var w := PlacesTell(TrackedPlace(dirs), FollowedPlace(dirs));
      TrackedIsMeant(w, dirs);
      FollowedIsMeant(w, dirs);
    }
  }

  // ---- Targets, and single paths ----

  /** The path recorded for a target after the `cd`s: one that starts with `~` is not joined. */
  function Located(cwd: Option<string>, target: string): string
  {
    if Tilde(target) then Normalize(target) else Joined(cwd, target)
  }

  ghost predicate RecordsRight(dirs: seq<string>, target: string)
  {
    forall w: World ::
      Resolve(w, w.start, Located(Tracked(dirs), target)) == Resolve(w, Followed(w, dirs), target)
  }

  lemma TargetIsOneMore(dirs: seq<string>, target: string)
    ensures Tracked(dirs + [target]) == Some(Joined(Tracked(dirs), target))
    ensures forall w: World :: Followed(w, dirs + [target]) == Resolve(w, Followed(w, dirs), target)
  {
    assert (dirs + [target])[..|dirs|] == dirs;
  }

  /** A target is recorded as the file meant if and only if joining it, or normalizing it when it starts with
      `~`, was safe. */
  lemma TargetIsRightExactlyWhenSafe(dirs: seq<string>, target: string)
    ensures RecordsRight(dirs, target) <==> Safe((if Tilde(target) then [] else dirs) + [target])
  {
    var from := if Tilde(target) then [] else dirs;
    TargetIsOneMore(from, target);
    TrackingIsRightExactlyWhenSafe(from + [target]);
    if RecordsRight(dirs, target) {
      forall w: World ensures Denoted(w, Tracked(from + [target])) == Followed(w, from + [target]) {
        assert Resolve(w, w.start, Located(Tracked(dirs), target)) == Resolve(w, Followed(w, dirs), target);
      }
    }
    if TracksRight(from + [target]) {
      forall w: World
        ensures Resolve(w, w.start, Located(Tracked(dirs), target)) == Resolve(w, Followed(w, dirs), target)
      {
        assert Denoted(w, Tracked(from + [target])) == Followed(w, from + [target]);
      }
    }
  }

  ghost predicate KeepsMeaning(path: string)
  {
    forall w: World :: Resolve(w, w.start, Normalize(path)) == Resolve(w, w.start, path)
  }

  /** A path that does not climb above the home it starts in, and to whose front nothing else brings a `~`. */
  predicate Stable(path: string)
  {
    var left := Collapse([], Split(path));
    Absolute(path) || if Tilde(path) then !Climbs(Split(path)[1..]) else left == [] || !Tilde(left[0])
  }

  lemma StableIsSafe(path: string)
    ensures Safe([path]) <==> Stable(path)
  {
    var run := [path];
    LeftOfOne(path);
    assert run[..0] == [] && run[1..] == [];
    assert HasAbsolute(run) <==> Absolute(path);
    assert !CancelsOut(run);
    if Absolute(path) {
      assert SinceAbsolute(run) == [];
    }
  }

  /** Normalizing keeps the meaning of a path, from every directory and with every home, if and only if the path
      is stable. */
  lemma NormalizeKeepsMeaningExactlyWhenStable(path: string)
    ensures KeepsMeaning(path) <==> Stable(path)
  {
    TargetIsRightExactlyWhenSafe([], path);
    assert [] + [path] == [path];
    StableIsSafe(path);
    if RecordsRight([], path) {
      forall w: World ensures Resolve(w, w.start, Normalize(path)) == Resolve(w, w.start, path) {
        assert Resolve(w, w.start, Located(Tracked([]), path)) == Resolve(w, Followed(w, []), path);
      }
    }
    if KeepsMeaning(path) {
      forall w: World ensures Resolve(w, w.start, Located(Tracked([]), path)) == Resolve(w, Followed(w, []), path) {
        assert Resolve(w, w.start, Normalize(path)) == Resolve(w, w.start, path);
      }
    }
  }

  // ---- It does go wrong ----

  lemma DotIsNothing()
    ensures Normalize(".") == "" && Left(["."]) == [] && Tracked(["."]) == Some("")
  {
    SplitPlain(".");
    LeftOfOne(".");
    CollapseSnoc([], [], ".");
    assert [] + ["."] == ["."] && ["."][..0] == [];
  }

  lemma JoinedOnNothing(part: string)
    requires '/' !in part && part != "" && part != "." && part != ".."
    ensures Normalize("" + "/" + part) == "/" + part
  {
    SplitJoins("", part);
    SplitPlain(part);
    assert Split("") + [part] == [""] + [part];
    CollapseSnoc([], [""], part);
    CollapseSnoc([], [], "");
    assert [] + [""] == [""] && [] + [part] == [part];
    assert "" + "/" + part == "/" + part;
  }

  lemma UnsafePair(first: string, second: string)
    requires !Absolute(first) && !Absolute(second) && (Left([first]) == [] || Tilde(second))
    ensures !Safe([first, second])
  {
    var run := [first, second];
    assert run[..1] == [first] && [first][..0] == [] && run[1..][0] == second;
    assert !HasAbsolute([first]) && !HasAbsolute(run);
  }

  /** After `cd .`, every plain name is recorded as a file of the root. */
  lemma EmptiedDirectoryGoesWrong(part: string)
    requires '/' !in part && !Tilde(part) && part != "" && part != "." && part != ".."
    ensures Joined(Tracked(["."]), part) == "/" + part && !RecordsRight(["."], part)
  {
    DotIsNothing();
    JoinedOnNothing(part);
    UnsafePair(".", part);
    assert ["."] + [part] == [".", part];
    TargetIsRightExactlyWhenSafe(["."], part);
  }

  /** After `cd a`, going home is tracked as going below `a`, and so is whatever is recorded from there. */
  lemma HomeAfterDirectoryGoesWrong(home: string, target: string)
    requires Tilde(home) && !Absolute(target) && !Tilde(target)
    ensures !TracksRight(["a", home]) && !RecordsRight(["a", home], target)
  {
    UnsafePair("a", home);
    TrackingIsRightExactlyWhenSafe(["a", home]);
    var run := ["a", home] + [target];
    assert run[..2] == ["a", home] && ["a", home][..1] == ["a"] && ["a"][..0] == [];
    assert !HasAbsolute(["a"]) && !HasAbsolute(["a", home]) && !HasAbsolute(run);
    assert run[1..][0] == home;
    TargetIsRightExactlyWhenSafe(["a", home], target);
  }

  /** `~/..` is recorded as where one already is. */
  lemma ClimbingOverHomeGoesWrong()
    ensures Normalize("~/..") == "" && !KeepsMeaning("~/..")
  {
    assert "~" + "/" + ".." == "~/..";
    SplitJoins("~", "..");
    SplitPlain("~");
    SplitPlain("..");
    var parts := ["~"] + [".."];
    CollapseSnoc([], ["~"], "..");
    CollapseSnoc([], [], "~");
    CollapseSnoc([], [], "..");
    assert [] + ["~"] == ["~"] && [] + [".."] == [".."] && parts[1..] == [".."];
    NormalizeKeepsMeaningExactlyWhenStable("~/..");
  }
}
