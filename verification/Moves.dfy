/**
  Where a shell stands after moves the tracker has not all seen: a `cd` without an operand goes home, and leaves
  the tracked directory as it was.
 */
module Moves {
  import opened Prelude
  import opened Paths
  import opened Places
  import opened Tracking

  /** A `cd`, with or without an operand. */
  datatype Move = To(operand: string) | Home

  function PathOf(move: Move): string
  {
    match move
    case To(operand) => operand
    case Home => "~"
  }

  /** The paths the shell goes to, one after the other. */
  function PathsOf(moves: seq<Move>): seq<string>
  {
    if moves == [] then [] else PathsOf(moves[..|moves| - 1]) + [PathOf(moves[|moves| - 1])]
  }

  /** The operands, which are all the tracker sees. */
  function Operands(moves: seq<Move>): seq<string>
  {
    if moves == [] then []
    else
      var front, last := Operands(moves[..|moves| - 1]), moves[|moves| - 1];
      if last.To? then front + [last.operand] else front
  }

  /** The target is recorded, in every world, as the file it names after the moves. */
  ghost predicate LocatesRight(moves: seq<Move>, target: string)
  {
    forall w: World ::
      Resolve(w, w.start, Located(Tracked(Operands(moves)), target)) == Resolve(w, Followed(w, PathsOf(moves)), target)
  }

  // ---- The condition, on the moves and the target alone ----

  /** A path whose meaning does not depend on where one stands. */
  predicate Resets(path: string)
  {
    Absolute(path) || Tilde(path)
  }

  /** How many moves there are up to the last that does not depend on where it starts, that one included; none
      if all do. */
  function FreshStart(moves: seq<Move>): (n: nat)
    ensures n <= |moves|
    ensures n > 0 ==> Resets(PathOf(moves[n - 1]))
    ensures forall i :: n <= i < |moves| ==> !Resets(PathOf(moves[i]))
  {
    if moves == [] then 0
    else if Resets(PathOf(moves[|moves| - 1])) then |moves|
    else FreshStart(moves[..|moves| - 1])
  }

  /** The last fresh start is a `cd` without an operand. */
  predicate WentHome(moves: seq<Move>)
  {
    FreshStart(moves) > 0 && moves[FreshStart(moves) - 1].Home?
  }

  /** Just `~` is left of the operands. */
  predicate AtHome(dirs: seq<string>)
  {
    !HasAbsolute(dirs) && !CancelsOut(dirs) && Left(dirs) == ["~"]
  }

  /** A target by itself, if it does not depend on the moves. Otherwise, if the last fresh start went unseen, the
      operands before it happen to leave the tracker at home, and what comes after does not climb above home;
      and if it was seen, the operands are safe to join. */
  predicate Fits(moves: seq<Move>, target: string)
  {
    if Absolute(target) then true
    else if Tilde(target) then Stable(target)
    else if WentHome(moves) then
      var n := FreshStart(moves);
      AtHome(Operands(moves[..n - 1])) && !Climbs(AllParts(Operands(moves[n..]) + [target]))
    else Safe(Operands(moves) + [target])
  }

  // ---- Right is the same place ----

  lemma LocatedPlace(moves: seq<Move>, target: string, w: World)
    ensures var here := Located(Tracked(Operands(moves)), target);
            && Resolve(w, w.start, here) == At(w, PlaceOf(here)) && Clean(PlaceOf(here).parts)
    ensures var p := FollowedPlace(PathsOf(moves) + [target]);
            Resolve(w, Followed(w, PathsOf(moves)), target) == At(w, p) && Clean(p.parts)
  {
    PlaceIsMeant(w, Located(Tracked(Operands(moves)), target));
    FollowedIsMeant(w, PathsOf(moves) + [target]);
    TargetIsOneMore(PathsOf(moves), target);
  }

  /** The same place is right in every world; different places, not both under the root, are wrong in one. */
  lemma RightExactlyWhenSame(moves: seq<Move>, target: string)
    requires var p, q := PlaceOf(Located(Tracked(Operands(moves)), target)), FollowedPlace(PathsOf(moves) + [target]);
             p == q || p.base != Root || q.base != Root
    ensures LocatesRight(moves, target)
            <==> PlaceOf(Located(Tracked(Operands(moves)), target)) == FollowedPlace(PathsOf(moves) + [target])
  {
    var here := Located(Tracked(Operands(moves)), target);
    var p, q := PlaceOf(here), FollowedPlace(PathsOf(moves) + [target]);
    if p == q {
      forall w: World ensures Resolve(w, w.start, here) == Resolve(w, Followed(w, PathsOf(moves)), target) {
        LocatedPlace(moves, target, w);
      }
    } else {
      LocatedPlace(moves, target, World([], _ => []));
      var w := PlacesTell(p, q);
      LocatedPlace(moves, target, w);
    }
  }

  // ---- A fresh start that was seen, or none ----

  lemma FollowedSnoc(dirs: seq<string>, dir: string)
    ensures FollowedPlace(dirs + [dir]) ==
            if Resets(dir) then PlaceOf(dir)
            else Place(FollowedPlace(dirs).base, Collapse(FollowedPlace(dirs).parts, Split(dir)))
  {
    assert (dirs + [dir])[..|dirs|] == dirs;
  }

  /** The operands alone lead where the moves do. */
  lemma {:induction false} SeenIsFollowed(moves: seq<Move>)
    requires !WentHome(moves)
    ensures FollowedPlace(PathsOf(moves)) == FollowedPlace(Operands(moves))
  {
    if moves != [] {
      var front, last := moves[..|moves| - 1], moves[|moves| - 1];
      FollowedSnoc(PathsOf(front), PathOf(last));
      FollowedSnoc(Operands(front), last.operand);
      if !Resets(PathOf(last)) {
        SeenIsFollowed(front);
      }
    }
  }

  lemma SeenTarget(moves: seq<Move>, target: string)
    requires !Tilde(target) && (Absolute(target) || !WentHome(moves))
    ensures LocatesRight(moves, target) <==> Safe(Operands(moves) + [target])
  {
    var run := Operands(moves) + [target];
    FollowedSnoc(PathsOf(moves), target);
    FollowedSnoc(Operands(moves), target);
    if !Absolute(target) {
      SeenIsFollowed(moves);
    }
    TargetIsOneMore(Operands(moves), target);
    PlacesAgree(run);
    RightExactlyWhenSame(moves, target);
  }

  lemma HomeTarget(moves: seq<Move>, target: string)
    requires Tilde(target)
    ensures LocatesRight(moves, target) <==> Stable(target)
  {
    FollowedSnoc(PathsOf(moves), target);
    FollowedSnoc([], target);
    TargetIsOneMore([], target);
    assert [] + [target] == [target];
    StableIsSafe(target);
    PlacesAgree([target]);
    RightExactlyWhenSame(moves, target);
  }

  lemma AbsoluteIsSafe(dirs: seq<string>, target: string)
    requires Absolute(target)
    ensures Safe(dirs + [target])
  {
    var run := dirs + [target];
    assert run[|run| - 1] == target;
  }

  // ---- A fresh start that was not seen ----

  lemma {:induction false} OperandsAppend(a: seq<Move>, b: seq<Move>)
    ensures Operands(a + b) == Operands(a) + Operands(b)
    decreases |b|
  {
    if b == [] {
      assert a + b == a;
    } else {
      var k := |b| - 1;
      assert (a + b)[..|a| + k] == a + b[..k];
      OperandsAppend(a, b[..k]);
    }
  }

  predicate NoReset(dirs: seq<string>)
  {
    forall i :: 0 <= i < |dirs| ==> !Resets(dirs[i])
  }

  lemma LeftOfSnoc(dirs: seq<string>, dir: string)
    ensures Left(dirs + [dir]) == Collapse(Left(dirs), Split(dir))
    ensures NoReset(dirs + [dir]) <==> NoReset(dirs) && !Resets(dir)
  {
    var run := dirs + [dir];
    assert run[..|dirs|] == dirs && run[|dirs|] == dir;
    LeftSnoc(run);
    assert forall i :: 0 <= i < |dirs| ==> run[i] == dirs[i];
  }

  /** What the moves since the last fresh start lead to. */
  lemma SinceStart(moves: seq<Move>, n: nat)
    requires n < |moves| && n == FreshStart(moves)
    ensures var front, last := moves[..|moves| - 1], moves[|moves| - 1];
            && last.To? && !Resets(last.operand) && FreshStart(front) == n && WentHome(front) == WentHome(moves)
            && Operands(moves[n..]) == Operands(front[n..]) + [last.operand]
  {
    var since := moves[n..];
    assert since[..|since| - 1] == moves[..|moves| - 1][n..];
  }

  /** From home, moves that depend on where they start lead along their parts. */
  lemma {:induction false} FromHome(moves: seq<Move>)
    requires WentHome(moves)
    ensures var after := Operands(moves[FreshStart(moves)..]);
            NoReset(after) && FollowedPlace(PathsOf(moves)) == Place(Base.Home("~"), Left(after))
  {
    var n := FreshStart(moves);
    var front, last := moves[..|moves| - 1], moves[|moves| - 1];
    FollowedSnoc(PathsOf(front), PathOf(last));
    if n == |moves| {
      assert moves[n..] == [];
      HomeItself();
    } else {
      SinceStart(moves, n);
      FromHome(front);
      LeftOfSnoc(Operands(front[n..]), last.operand);
    }
  }

  lemma HomeItself()
    ensures PlaceOf("~") == Place(Base.Home("~"), []) && Left([]) == []
  {
    SplitPlain("~");
    assert ["~"][1..] == [];
  }

  lemma {:induction false} AllPartsAppend(a: seq<string>, b: seq<string>)
    ensures AllParts(a + b) == AllParts(a) + AllParts(b)
    decreases |b|
  {
    if b == [] {
      assert a + b == a;
    } else {
      var k := |b| - 1;
      assert (a + b)[..|a| + k] == a + b[..k];
      AllPartsAppend(a, b[..k]);
    }
  }

  /** What is left of two runs is what is left of the second, put behind what is left of the first. */
  lemma LeftAppend(a: seq<string>, b: seq<string>)
    ensures Left(a + b) == Collapse(Left(a), Left(b))
    ensures Clean(Left(a)) && Clean(Left(b))
  {
    AllPartsAppend(a, b);
    CollapseAppend([], AllParts(a), AllParts(b));
    CollapseIsClean([], AllParts(a));
    CollapseIsClean([], AllParts(b));
    CollapseInStages(Left(a), [], AllParts(b));
    assert Collapse(Left(a), []) == Left(a);
  }

  /** Once above where one started, one stays above it. */
  lemma {:induction false} ClimbedStays(kept: seq<string>, parts: seq<string>)
    requires kept != [] && kept[0] == ".."
    ensures Collapse(kept, parts) != [] && Collapse(kept, parts)[0] == ".."
    decreases parts
  {
    if parts != [] {
      ClimbedStays(Push(kept, parts[0]), parts[1..]);
    }
  }

  lemma ClimbsOn(a: seq<string>, b: seq<string>)
    requires Climbs(a)
    ensures Climbs(a + b)
  {
    CollapseAppend([], a, b);
    ClimbedStays(Collapse([], a), b);
  }

  /** Below home nothing cancels out. */
  lemma {:induction false} NothingCancels(dirs: seq<string>, after: seq<string>)
    requires AtHome(dirs) && NoReset(after) && !Climbs(AllParts(after))
    ensures !HasAbsolute(dirs + after) && !CancelsOut(dirs + after) && Left(dirs + after) == ["~"] + Left(after)
    decreases |after|
  {
    LeftAppend(dirs, after);
    BehindName(Left(dirs), "~", Left(after));
    if after == [] {
      assert dirs + after == dirs;
    } else {
      var k := |after| - 1;
      assert (dirs + after)[..|dirs| + k] == dirs + after[..k];
      if Climbs(AllParts(after[..k])) {
        ClimbsOn(AllParts(after[..k]), Split(after[k]));
      }
      NothingCancels(dirs, after[..k]);
    }
  }

  lemma {:induction false} CancelledBefore(dirs: seq<string>, after: seq<string>)
    ensures HasAbsolute(dirs) ==> HasAbsolute(dirs + after)
    ensures CancelsOut(dirs) ==> CancelsOut(dirs + after)
    decreases |after|
  {
    if after == [] {
      assert dirs + after == dirs;
    } else {
      var k := |after| - 1;
      assert (dirs + after)[..|dirs| + k] == dirs + after[..k];
      CancelledBefore(dirs, after[..k]);
    }
  }

  /** The tracker is where going home and on leads exactly if it stood at home and nothing climbs above it. */
  lemma TrackedFromHome(dirs: seq<string>, after: seq<string>)
    requires NoReset(after) && after != []
    ensures TrackedPlace(dirs + after) == Place(Base.Home("~"), Left(after))
            <==> AtHome(dirs) && !Climbs(AllParts(after))
  {
    var run := dirs + after;
    LeftAppend(dirs, after);
    BehindName(Left(dirs), "~", Left(after));
    ShapeOfHome(Left(run), "~", Left(after));
    CancelledBefore(dirs, after);
    if HasAbsolute(run) {
      AbsoluteRun(run);
    } else if CancelsOut(run) {
      CancelledIsAbsolute(run);
    } else {
      TrackedIsLeft(run);
    }
    if AtHome(dirs) && !Climbs(AllParts(after)) {
      NothingCancels(dirs, after);
    }
  }

  lemma PlacesOfUnseen(moves: seq<Move>, target: string, dirs: seq<string>, after: seq<string>)
    requires WentHome(moves) && !Resets(target)
    requires dirs == Operands(moves[..FreshStart(moves) - 1]) && after == Operands(moves[FreshStart(moves)..])
    ensures NoReset(after + [target])
    ensures FollowedPlace(PathsOf(moves) + [target]) == Place(Base.Home("~"), Left(after + [target]))
    ensures PlaceOf(Located(Tracked(Operands(moves)), target)) == TrackedPlace(dirs + (after + [target]))
  {
    FromHome(moves);
    FollowedSnoc(PathsOf(moves), target);
    LeftOfSnoc(after, target);
    OperandsUpTo(moves, FreshStart(moves));
    assert dirs + (after + [target]) == Operands(moves) + [target];
    TargetIsOneMore(Operands(moves), target);
  }

  lemma UnseenTarget(moves: seq<Move>, target: string)
    requires WentHome(moves) && !Resets(target)
    ensures LocatesRight(moves, target) <==> Fits(moves, target)
  {
    var n := FreshStart(moves);
    var dirs, after := Operands(moves[..n - 1]), Operands(moves[n..]);
    PlacesOfUnseen(moves, target, dirs, after);
    TrackedFromHome(dirs, after + [target]);
    RightExactlyWhenSame(moves, target);
  }

  lemma OperandsUpTo(moves: seq<Move>, n: nat)
    requires 0 < n <= |moves| && moves[n - 1].Home?
    ensures Operands(moves) == Operands(moves[..n - 1]) + Operands(moves[n..])
  {
    assert moves[..n][..n - 1] == moves[..n - 1];
    assert moves == moves[..n] + moves[n..];
    OperandsAppend(moves[..n], moves[n..]);
  }

  // ---- What comes of it ----

  /** Whatever the shell did unseen: a target is recorded as the file meant if and only if the moves and the
      target fit. */
  lemma RecordedRightExactlyWhen(moves: seq<Move>, target: string)
    ensures LocatesRight(moves, target) <==> Fits(moves, target)
  {
    if Tilde(target) {
      HomeTarget(moves, target);
    } else if Absolute(target) {
      AbsoluteIsSafe(Operands(moves), target);
      SeenTarget(moves, target);
    } else if WentHome(moves) {
      UnseenTarget(moves, target);
    } else {
      SeenTarget(moves, target);
    }
  }

  lemma TrackedNormal(dirs: seq<string>) returns (path: string)
    requires dirs != []
    ensures Tracked(dirs) == Some(Normalize(path))
  {
    var cwd, dir := Tracked(dirs[..|dirs| - 1]), dirs[|dirs| - 1];
    path := if cwd.Some? && !Absolute(dir) then cwd.value + "/" + dir else dir;
  }

  /** To be at home is to have the tracker say just `~`. */
  lemma AtHomeIsTracked(dirs: seq<string>)
    ensures AtHome(dirs) <==> Tracked(dirs) == Some("~")
  {
    if dirs == [] {
      assert Left(dirs) == [];
    } else if HasAbsolute(dirs) {
      AbsoluteRun(dirs);
    } else if CancelsOut(dirs) {
      CancelledIsAbsolute(dirs);
    } else {
      TrackedIsLeft(dirs);
      var path := TrackedNormal(dirs);
      NormalPlace(path);
      SplitPlain("~");
      assert "" + Join(["~"]) == "~";
      if Tracked(dirs) == Some("~") {
        CollapseSnoc([], [], "~");
        assert [] + ["~"] == ["~"];
      }
    }
  }
}
