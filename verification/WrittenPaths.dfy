/**
  The files a shell command writes. A command is read as a trace: the `cd`s so far, and each write with the
  `cd`s in effect at it. What is reported is the trace's writes, each joined onto the tracked directory,
  filtered, and listed once in the order first seen.
 */
module WrittenPaths {
  import opened Prelude
  import opened Text
  import opened ShellWords
  import ShellSegments
  import opened Heredocs
  import Paths
  import Places
  import Tracking
  import Moves

  type Move = Moves.Move

  /** What the model takes as given: the paths a Python script writes. */
  datatype Recognizers = Recognizers(python: string -> seq<string>)

  /** A write's target and the `cd`s before it. */
  datatype Write = Write(moves: seq<Move>, target: string)

  datatype Trace = Trace(moves: seq<Move>, writes: seq<Write>)

  /** What the tracker holds after the moves. */
  function CwdAfter(moves: seq<Move>): Option<string>
  {
    Paths.Tracked(Moves.Operands(moves))
  }

  // ---- One write ----

  predicate Scratch(path: string)
  {
    StartsWith(path, "/dev/") || StartsWith(path, "/proc/") || StartsWith(path, "/tmp/")
  }

  predicate Skipped(path: string)
  {
    path == "" || path[0] == '$' || '*' in path
  }

  /** The path recorded for a target, if any. */
  function Recorded(cwd: Option<string>, target: string): Option<string>
  {
    var path := Trim(target);
    if Skipped(path) || Scratch(Tracking.Located(cwd, path)) then None else Some(Tracking.Located(cwd, path))
  }

  function RecordedAs(w: Write): Option<string>
  {
    Recorded(CwdAfter(w.moves), w.target)
  }

  function Insert(out: seq<string>, path: Option<string>): seq<string>
  {
    if path.None? || path.value in out then out else out + [path.value]
  }

  /** Each path found once, in the order first seen. */
  function FirstSeen(found: seq<Option<string>>): seq<string>
  {
    if found == [] then [] else Insert(FirstSeen(found[..|found| - 1]), found[|found| - 1])
  }

  function Found(writes: seq<Write>): seq<Option<string>>
  {
    seq(|writes|, i requires 0 <= i < |writes| => RecordedAs(writes[i]))
  }

  function Report(writes: seq<Write>): seq<string>
  {
    FirstSeen(Found(writes))
  }

  // ---- One command ----

  predicate Redirect(word: string)
  {
    StartsWith(word, ">") || StartsWith(word, "2>") || StartsWith(word, "&>")
  }

  /** What follows the arrow of a `>`, `>>`, `1>` or `1>>` word. */
  function AfterArrow(word: string): Option<string>
  {
    if StartsWith(word, ">>") then Some(word[2..])
    else if StartsWith(word, ">") then Some(word[1..])
    else if StartsWith(word, "1>>") then Some(word[3..])
    else if StartsWith(word, "1>") then Some(word[2..])
    else None
  }

  function RedirectTarget(words: seq<string>, i: nat): seq<string>
    requires i < |words|
  {
    match AfterArrow(words[i])
    case None => []
    case Some(rest) =>
      if StartsWith(rest, "&") then []
      else if rest != "" then [rest]
      else if i + 1 < |words| then [words[i + 1]]
      else []
  }

  function RedirectTargets(words: seq<string>, i: nat): seq<string>
    requires i <= |words|
    decreases |words| - i
  {
    if i == |words| then [] else RedirectTarget(words, i) + RedirectTargets(words, i + 1)
  }

  /** The words that are neither flags nor redirects. */
  function Operands(words: seq<string>): seq<string>
  {
    if words == [] then []
    else (if StartsWith(words[0], "-") || Redirect(words[0]) then [] else [words[0]]) + Operands(words[1..])
  }

  /** What a word of an in-place edit is: a redirect, which ends the operands; a flag that takes the next word
      as the script; any other flag; or an operand. */
  datatype Role = Stop | Script | Flag | Operand

  function RoleOf(word: string): Role
  {
    if Redirect(word) then Stop
    else if word == "-e" || word == "-f" || word == "--expression" then Script
    else if StartsWith(word, "-") && |word| > 1 then
      if !StartsWith(word, "--") && word[|word| - 1] == 'e' then Script else Flag
    else Operand
  }

  /** A word and its role. */
  datatype Arg = Arg(word: string, role: Role)

  function Args(words: seq<string>): seq<Arg>
  {
    seq(|words|, i requires 0 <= i < |words| => Arg(words[i], RoleOf(words[i])))
  }

  datatype Positional = Positional(words: seq<string>, scriptGiven: bool)

  /** The operands up to the first redirect, and whether a flag gave the script. */
  function Positionals(args: seq<Arg>): Positional
    decreases |args|
  {
    if args == [] then Positional([], false)
    else
      match args[0].role
      case Stop => Positional([], false)
      case Script => Positionals(if |args| == 1 then [] else args[2..]).(scriptGiven := true)
      case Flag => Positionals(args[1..])
      case Operand =>
        var rest := Positionals(args[1..]);
        rest.(words := [args[0].word] + rest.words)
  }

  /** The files edited: the operands, less the first when it is the script. */
  function InPlaceFiles(words: seq<string>): seq<string>
  {
    var p := Positionals(Args(words));
    if p.scriptGiven then p.words else if p.words == [] then [] else p.words[1..]
  }

  /** `done` and then the operands from argument `i` on, with a flag for one to skip. */
  function Collect(args: seq<Arg>, i: nat, skip: bool, done: Positional): Positional
    requires i <= |args|
    decreases |args| - i
  {
    if i == |args| then done
    else if skip then Collect(args, i + 1, false, done)
    else
      match args[i].role
      case Stop => done
      case Script => Collect(args, i + 1, true, done.(scriptGiven := true))
      case Flag => Collect(args, i + 1, false, done)
      case Operand => Collect(args, i + 1, false, done.(words := done.words + [args[i].word]))
  }

  function Together(done: Positional, rest: Positional): Positional
  {
    Positional(done.words + rest.words, done.scriptGiven || rest.scriptGiven)
  }

  lemma OperandJoins(done: Positional, word: string, rest: Positional)
    ensures Together(done.(words := done.words + [word]), rest) == Together(done, rest.(words := [word] + rest.words))
  {
  }

  lemma {:induction false} CollectIs(args: seq<Arg>, i: nat, skip: bool, done: Positional)
    requires i <= |args| && (skip ==> i < |args|)
    ensures Collect(args, i, skip, done) == Together(done, Positionals(args[if skip then i + 1 else i..]))
    decreases |args| - i
  {
    if i == |args| {
      assert done.words + [] == done.words;
    } else if skip {
      CollectIs(args, i + 1, false, done);
    } else {
      DropDrop(args, i, 1);
      match args[i].role
      case Stop => assert done.words + [] == done.words;
      case Script =>
        if i + 1 == |args| {
          assert done.words + [] == done.words;
        } else {
          DropDrop(args, i, 2);
          CollectIs(args, i + 1, true, done.(scriptGiven := true));
        }
      case Flag => CollectIs(args, i + 1, false, done);
      case Operand =>
        CollectIs(args, i + 1, false, done.(words := done.words + [args[i].word]));
        OperandJoins(done, args[i].word, Positionals(args[i + 1..]));
    }
  }

  method CollectInLoop(args: seq<Arg>) returns (files: seq<string>, scriptGiven: bool)
    ensures Positional(files, scriptGiven) == Collect(args, 0, false, Positional([], false))
  {
    files, scriptGiven := [], false;
    var skip := false;
    for i := 0 to |args|
      invariant Collect(args, i, skip, Positional(files, scriptGiven)) == Collect(args, 0, false, Positional([], false))
    {
      if skip {
        skip := false;
        continue;
      }
      match args[i].role {
        case Stop => break;
        case Script =>
          scriptGiven := true;
          skip := true;
        case Flag =>
        case Operand => files := files + [args[i].word];
      }
    }
  }

  method InPlaceFilesInLoop(words: seq<string>) returns (files: seq<string>)
    ensures files == InPlaceFiles(words)
  {
    var args := Args(words);
    var scriptGiven: bool;
    files, scriptGiven := CollectInLoop(args);
    CollectIs(args, 0, false, Positional([], false));
    assert args[0..] == args;
    assert [] + Positionals(args).words == Positionals(args).words;
    if !scriptGiven && files != [] {
      files := files[1..];
    }
  }

  function Position(words: seq<string>, word: string): (i: nat)
    ensures i <= |words| && word !in words[..i] && (i < |words| ==> words[i] == word)
  {
    if words == [] || words[0] == word then 0
    else
      var i := Position(words[1..], word);
      assert words[..i + 1] == [words[0]] + words[1..][..i];
      i + 1
  }

  /** A single-dash flag with an `i` among its letters. */
  predicate BundlesI(word: string)
  {
    StartsWith(word, "-") && !StartsWith(word, "--") && 'i' in word[1..]
  }

  predicate IsInPlace(command: string, word: string)
  {
    if command == "sed" then
      word == "--in-place" || (StartsWith(word, "-i") && !StartsWith(word, "-i=")) || BundlesI(word)
    else BundlesI(word)
  }

  predicate EditsInPlace(words: seq<string>)
    requires words != []
  {
    words[0] in ["sed", "perl"] && exists i :: 0 <= i < |words| && IsInPlace(words[0], words[i])
  }

  /** The files a command writes other than by redirecting. */
  function CommandTargets(t: Recognizers, words: seq<string>): seq<string>
    requires words != []
  {
    if words[0] == "tee" then Operands(words[1..])
    else if EditsInPlace(words) then InPlaceFiles(words[1..])
    else if words[0] in ["mv", "cp"] then
      var operands := Operands(words[1..]);
      if |operands| > 1 then [operands[1]] else []
    else if StartsWith(words[0], "python") then
      var i := Position(words, "-c");
      if i + 1 < |words| then t.python(words[i + 1]) else []
    else []
  }

  // ---- The trace of a command ----

  function Note(tr: Trace, targets: seq<string>): Trace
  {
    tr.(writes := tr.writes + seq(|targets|, i requires 0 <= i < |targets| => Write(tr.moves, targets[i])))
  }

  function SegmentTrace(t: Recognizers, tr: Trace, words: seq<string>): Trace
  {
    if words == [] then tr
    else
      var redirected := Note(tr, RedirectTargets(words, 0));
      if words[0] == "cd" then
        redirected.(moves := tr.moves + [if |words| > 1 then Moves.To(words[1]) else Moves.Home])
      else Note(redirected, CommandTargets(t, words))
  }

  function LineTrace(t: Recognizers, tr: Trace, segments: seq<string>): Trace
    decreases segments
  {
    if segments == [] then tr else LineTrace(t, SegmentTrace(t, tr, Words(segments[0])), segments[1..])
  }

  /** A shell line without its line break. */
  function Chomped(line: string): string
  {
    var n := |line|;
    if n > 0 && line[n - 1] == '\n' then
      if n > 1 && line[n - 2] == '\r' then line[..n - 2] else line[..n - 1]
    else line
  }

  function Shown(line: string): string
  {
    Chomped(if Ended(line) then line else line + "\n")
  }

  /** The trace after an item's shell line, before its body. */
  function Opened(t: Recognizers, tr: Trace, item: Item): Trace
  {
    LineTrace(t, tr, ShellSegments.Segments(Shown(item.line)))
  }

  function ItemTrace(t: Recognizers, tr: Trace, item: Item): Trace
  {
    var after := Opened(t, tr, item);
    if item.Heredoc? then Note(after, t.python(Concat(item.body))) else after
  }

  function Reading(t: Recognizers): (Trace, Item) -> Trace
  {
    (tr, item) => ItemTrace(t, tr, item)
  }

  /** The trace after the first `n` items, read one by one. */
  function TraceAt(read: (Trace, Item) -> Trace, items: seq<Item>, n: nat): Trace
    requires n <= |items|
  {
    if n == 0 then Trace([], []) else read(TraceAt(read, items, n - 1), items[n - 1])
  }

  function CommandTrace(t: Recognizers, command: string): Trace
  {
    var items := Parse(BASH, Lines(command));
    TraceAt(Reading(t), items, |items|)
  }

  /** A body as it is scanned: the text, and the directory in effect. */
  datatype Scanned = Scanned(body: string, cwd: Option<string>)

  function ItemScans(t: Recognizers, tr: Trace, item: Item): seq<Scanned>
  {
    if item.Heredoc? then [Scanned(Concat(item.body), CwdAfter(Opened(t, tr, item).moves))] else []
  }

  /** Every body of the first `n` items once, in order, in the directory in effect after its opening line. */
  function Scans(t: Recognizers, items: seq<Item>, n: nat): seq<Scanned>
    requires n <= |items|
  {
    if n == 0 then [] else Scans(t, items, n - 1) + ItemScans(t, TraceAt(Reading(t), items, n - 1), items[n - 1])
  }

  // ---- What a report is ----

  lemma InsertIs(out: seq<string>, path: Option<string>)
    requires Distinct(out)
    ensures Distinct(Insert(out, path))
    ensures forall p :: p in Insert(out, path) <==> p in out || path == Some(p)
  {
  }

  lemma {:induction false} FirstSeenIs(found: seq<Option<string>>)
    ensures Distinct(FirstSeen(found))
    ensures forall p :: p in FirstSeen(found) <==> Some(p) in found
  {
    if found != [] {
      var front, last := found[..|found| - 1], found[|found| - 1];
      FirstSeenIs(front);
      InsertIs(FirstSeen(front), last);
      assert found == front + [last];
    }
  }

  /** Finding more only adds to the end. */
  lemma {:induction false} FirstSeenGrows(found: seq<Option<string>>, more: seq<Option<string>>)
    ensures FirstSeen(found) <= FirstSeen(found + more)
    decreases |more|
  {
    if more == [] {
      assert found + more == found;
    } else {
      var n := |more| - 1;
      FirstSeenGrows(found, more[..n]);
      assert (found + more)[..|found| + n] == found + more[..n];
    }
  }

  lemma RecordedIsNormal(cwd: Option<string>, target: string)
    ensures var r := Recorded(cwd, target); r.Some? ==> Paths.Normalize(r.value) == r.value && !Scratch(r.value)
  {
    var path := Trim(target);
    Paths.NormalizeIsIdempotent(path);
    if cwd.Some? {
      Paths.NormalizeIsIdempotent(cwd.value + "/" + path);
    }
  }

  // ---- The source's loops ----

  ghost predicate Follows(cwd: Option<string>, out: seq<string>, tr: Trace)
  {
    cwd == CwdAfter(tr.moves) && out == Report(tr.writes)
  }

  /** What a run of targets is recorded as. */
  function RecordedAll(cwd: Option<string>, targets: seq<string>): seq<Option<string>>
  {
    seq(|targets|, i requires 0 <= i < |targets| => Recorded(cwd, targets[i]))
  }

  lemma FoundOfNote(tr: Trace, targets: seq<string>)
    ensures Found(Note(tr, targets).writes) == Found(tr.writes) + RecordedAll(CwdAfter(tr.moves), targets)
  {
  }

  lemma FirstSeenSnoc(found: seq<Option<string>>, last: Option<string>)
    ensures FirstSeen(found + [last]) == Insert(FirstSeen(found), last)
  {
    assert (found + [last])[..|found|] == found;
  }

  /** Pushing each path in turn. */
  method PushEach(start: seq<string>, paths: seq<Option<string>>, ghost before: seq<Option<string>>)
    returns (out: seq<string>)
    requires start == FirstSeen(before)
    ensures out == FirstSeen(before + paths)
  {
    out := start;
    assert before + paths[..0] == before;
    for i := 0 to |paths|
      invariant out == FirstSeen(before + paths[..i])
    {
      FirstSeenSnoc(before + paths[..i], paths[i]);
      assert before + paths[..i + 1] == (before + paths[..i]) + [paths[i]];
      if paths[i].Some? && paths[i].value !in out {
        out := out + [paths[i].value];
      }
    }
    assert paths[..|paths|] == paths;
  }

  method PushAll(cwd: Option<string>, start: seq<string>, targets: seq<string>, ghost tr: Trace)
    returns (out: seq<string>)
    requires Follows(cwd, start, tr)
    ensures Follows(cwd, out, Note(tr, targets))
  {
    out := PushEach(start, RecordedAll(cwd, targets), Found(tr.writes));
    FoundOfNote(tr, targets);
  }

  lemma CwdAfterMove(moves: seq<Move>, move: Move)
    ensures CwdAfter(moves + [move]) ==
            if move.To? then Some(Paths.Joined(CwdAfter(moves), move.operand)) else CwdAfter(moves)
  {
    assert (moves + [move])[..|moves|] == moves;
    if move.To? {
      Tracking.TargetIsOneMore(Moves.Operands(moves), move.operand);
    }
  }

  method ScanSegment(t: Recognizers, cwd: Option<string>, out: seq<string>, segment: string, ghost tr: Trace)
    returns (newCwd: Option<string>, newOut: seq<string>)
    requires Follows(cwd, out, tr)
    ensures Follows(newCwd, newOut, SegmentTrace(t, tr, Words(segment)))
  {
    newCwd, newOut := cwd, out;
    var words := WordsInLoop(segment);
    if words == [] {
      return;
    }
    newOut := PushAll(cwd, newOut, RedirectTargets(words, 0), tr);
    ghost var redirected := Note(tr, RedirectTargets(words, 0));
    if words[0] == "cd" {
      CwdAfterMove(tr.moves, if |words| > 1 then Moves.To(words[1]) else Moves.Home);
      if |words| > 1 {
        newCwd := Some(Paths.Joined(cwd, words[1]));
      }
    } else {
      newOut := PushAll(cwd, newOut, CommandTargets(t, words), redirected);
    }
  }

  method ScanLine(t: Recognizers, cwd: Option<string>, out: seq<string>, line: string, ghost tr: Trace)
    returns (newCwd: Option<string>, newOut: seq<string>)
    requires Follows(cwd, out, tr)
    ensures Follows(newCwd, newOut, LineTrace(t, tr, ShellSegments.Segments(line)))
  {
    newCwd, newOut := cwd, out;
    var segments := ShellSegments.SplitInLoop(line);
    ghost var now := tr;
    for i := 0 to |segments|
      invariant Follows(newCwd, newOut, now)
      invariant LineTrace(t, now, segments[i..]) == LineTrace(t, tr, segments)
    {
      newCwd, newOut := ScanSegment(t, newCwd, newOut, segments[i], now);
      now := SegmentTrace(t, now, Words(segments[i]));
      assert segments[i..][1..] == segments[i + 1..];
    }
  }

  function Reverse<T>(s: seq<T>): seq<T>
  {
    if s == [] then [] else Reverse(s[1..]) + [s[0]]
  }

  predicate Later(bodies: seq<(nat, string)>, lineNo: nat)
  {
    forall i :: 0 <= i < |bodies| ==> bodies[i].0 > lineNo
  }

  function AtLine(lineNo: nat, body: Option<string>): seq<(nat, string)>
  {
    if body.Some? then [(lineNo, body.value)] else []
  }

  /** Scans the bodies whose turn it is off the end of the stack. */
  method ScanScripts(t: Recognizers, cwd: Option<string>, start: seq<string>, stack: seq<(nat, string)>, lineNo: nat,
                     ghost body: Option<string>, ghost rest: seq<(nat, string)>, ghost tr: Trace)
    returns (out: seq<string>, left: seq<(nat, string)>, ghost scans: seq<Scanned>)
    requires Follows(cwd, start, tr) && stack == rest + AtLine(lineNo, body) && Later(rest, lineNo)
    ensures left == rest
    ensures Follows(cwd, out, if body.Some? then Note(tr, t.python(body.value)) else tr)
    ensures scans == if body.Some? then [Scanned(body.value, cwd)] else []
  {
    out, left, scans := start, stack, [];
    ghost var todo, now := body, tr;
    while left != [] && left[|left| - 1].0 == lineNo
      invariant left == rest + AtLine(lineNo, todo)
      invariant todo.None? || todo == body
      invariant Follows(cwd, out, now)
      invariant now == if body.Some? && todo.None? then Note(tr, t.python(body.value)) else tr
      invariant scans == if body.Some? && todo.None? then [Scanned(body.value, cwd)] else []
      decreases |left|
    {
      var script := left[|left| - 1].1;
      out := PushAll(cwd, out, t.python(script), now);
      now := Note(now, t.python(script));
      scans := scans + [Scanned(script, cwd)];
      left := left[..|left| - 1];
      todo := None;
    }
  }

  // ---- The lines left for the shell ----

  lemma {:induction false} ProperOpeners(items: seq<Item>)
    requires Heredocs.Proper(AllLines(items))
    ensures Heredocs.Proper(Openers(items)) && |Openers(items)| == |items|
    ensures forall i :: 0 <= i < |items| ==> Openers(items)[i] == items[i].line
    decreases |items|
  {
    if items != [] {
      var all, rest := AllLines(items), AllLines(items[1..]);
      var n := |LinesOf(items[0])|;
      assert forall i :: 0 <= i < |rest| ==> rest[i] == all[n + i];
      ProperOpeners(items[1..]);
      assert all[0] == items[0].line;
      if |items| > 1 {
        assert AllLines(items[1..]) != [];
      }
      ProperCons(items[0].line, Openers(items[1..]));
    }
  }

  /** The lines of the shell text: the openers, the last one ended; one blank line if there are none. */
  function Finished(openers: seq<string>): seq<string>
  {
    if openers == [] then ["\n"]
    else
      var n := |openers| - 1;
      openers[..n] + [if Ended(openers[n]) then openers[n] else openers[n] + "\n"]
  }

  lemma ConcatOfFinished(openers: seq<string>)
    requires Heredocs.Proper(openers)
    ensures var text := Concat(openers); Concat(Finished(openers)) == if Ended(text) then text else text + "\n"
  {
    if openers == [] {
      assert ["\n"][1..] == [];
    } else {
      var n := |openers| - 1;
      var front, last := openers[..n], openers[n];
      assert openers == front + [last];
      ConcatSnoc(front, last);
      assert Line(last);
      if !Ended(last) {
        ConcatSnoc(front, last + "\n");
      }
    }
  }

  lemma EndedLine(line: string)
    requires Line(line) && !Ended(line)
    ensures Line(line + "\n") && Ended(line + "\n")
  {
    assert (line + "\n")[..|line|] == line;
    assert line == line[..|line| - 1] + [line[|line| - 1]];
  }

  lemma ProperFinished(openers: seq<string>)
    requires Heredocs.Proper(openers)
    ensures Heredocs.Proper(Finished(openers))
  {
    if openers == [] {
      assert "\n"[..0] == "";
    } else {
      var last := openers[|openers| - 1];
      assert Line(last);
      if !Ended(last) {
        EndedLine(last);
      }
    }
  }

  lemma ShellLines(items: seq<Item>)
    requires Heredocs.Proper(AllLines(items))
    ensures Lines(Shell(items)) == Finished(Openers(items))
  {
    ProperOpeners(items);
    ConcatOfFinished(Openers(items));
    ProperFinished(Openers(items));
    LinesOfConcat(Finished(Openers(items)));
  }

  /** With no items there is still one blank line, which does nothing. */
  function Padded(items: seq<Item>): seq<Item>
  {
    if items == [] then [Plain("")] else items
  }

  lemma FinishedLine(openers: seq<string>, i: nat)
    requires Heredocs.Proper(openers) && i < |openers|
    ensures |Finished(openers)| == |openers| && Chomped(Finished(openers)[i]) == Shown(openers[i])
  {
  }

  lemma PaddedLines(items: seq<Item>)
    requires Heredocs.Proper(AllLines(items))
    ensures var lines := Lines(Shell(items));
            && |lines| == |Padded(items)|
            && forall i :: 0 <= i < |lines| ==> Chomped(lines[i]) == Shown(Padded(items)[i].line)
  {
    ShellLines(items);
    var lines, openers := Lines(Shell(items)), Openers(items);
    ProperOpeners(items);
    if items == [] {
      assert Shown("") == Chomped("\n") by { assert "" + "\n" == "\n"; }
    } else {
      forall i | 0 <= i < |openers| ensures |lines| == |items| && Chomped(lines[i]) == Shown(items[i].line) {
        FinishedLine(openers, i);
      }
      assert |lines| == |items|;
    }
  }

  lemma PaddingDoesNothing(t: Recognizers, items: seq<Item>)
    ensures TraceAt(Reading(t), Padded(items), |Padded(items)|) == TraceAt(Reading(t), items, |items|)
    ensures Scans(t, Padded(items), |Padded(items)|) == Scans(t, items, |items|)
    ensures Bodies(Padded(items), 0) == Bodies(items, 0)
  {
    if items == [] {
      var blank := Plain("");
      assert Shown("") == "" by { assert "" + "\n" == "\n"; }
      assert ShellSegments.Segments("") == [""];
      assert Opened(t, Trace([], []), blank) == Trace([], []) by { assert [""][1..] == []; }
      assert [blank][1..] == [];
    }
  }

  /** The bodies of items `i` and on, first on top. */
  function Stack(items: seq<Item>, i: nat): seq<(nat, string)>
    requires i <= |items|
    decreases |items| - i
  {
    if i == |items| then [] else Stack(items, i + 1) + AtLine(i, BodyOf(items[i]))
  }

  lemma {:induction false} StackIsLater(items: seq<Item>, i: nat, lineNo: nat)
    requires lineNo < i <= |items|
    ensures Later(Stack(items, i), lineNo)
    decreases |items| - i
  {
    if i < |items| {
      StackIsLater(items, i + 1, lineNo);
    }
  }

  lemma {:induction false} StackIsReversed(items: seq<Item>, i: nat)
    requires i <= |items|
    ensures Stack(items, i) == Reverse(Bodies(items[i..], i))
    decreases |items| - i
  {
    if i < |items| {
      assert items[i..][1..] == items[i + 1..];
      StackIsReversed(items, i + 1);
      ReverseStep(i, BodyOf(items[i]), Bodies(items[i + 1..], i + 1));
    }
  }

  lemma ReverseStep(lineNo: nat, body: Option<string>, rest: seq<(nat, string)>)
    ensures Reverse(AtLine(lineNo, body) + rest) == Reverse(rest) + AtLine(lineNo, body)
  {
    assert body.Some? ==> (AtLine(lineNo, body) + rest)[1..] == rest;
    assert body.None? ==> AtLine(lineNo, body) + rest == rest;
  }

  /** Scans one line and the body it opens. */
  method ScanItem(t: Recognizers, cwd: Option<string>, out: seq<string>, line: string, stack: seq<(nat, string)>,
                  lineNo: nat, ghost item: Item, ghost rest: seq<(nat, string)>, ghost tr: Trace)
    returns (newCwd: Option<string>, newOut: seq<string>, left: seq<(nat, string)>, ghost scans: seq<Scanned>)
    requires Follows(cwd, out, tr) && line == Shown(item.line)
    requires stack == rest + AtLine(lineNo, BodyOf(item)) && Later(rest, lineNo)
    ensures left == rest && Follows(newCwd, newOut, ItemTrace(t, tr, item))
    ensures scans == ItemScans(t, tr, item)
  {
    newCwd, newOut := ScanLine(t, cwd, out, line, tr);
    newOut, left, scans := ScanScripts(t, newCwd, newOut, stack, lineNo, BodyOf(item), rest, Opened(t, tr, item));
  }

  /** Scans the lines, each with the body it opens; every body is scanned and none is left on the stack. */
  method ScanLines(t: Recognizers, lines: seq<string>, bodies: seq<(nat, string)>, ghost items: seq<Item>)
    returns (out: seq<string>, left: seq<(nat, string)>, ghost scans: seq<Scanned>)
    requires |lines| == |items| && bodies == Bodies(items, 0)
    requires forall i :: 0 <= i < |lines| ==> Chomped(lines[i]) == Shown(items[i].line)
    ensures out == Report(TraceAt(Reading(t), items, |items|).writes)
    ensures left == [] && scans == Scans(t, items, |items|)
  {
    out, left, scans := [], Reverse(bodies), [];
    var cwd: Option<string> := None;
    assert items[0..] == items;
    StackIsReversed(items, 0);
    for i := 0 to |lines|
      invariant Follows(cwd, out, TraceAt(Reading(t), items, i))
      invariant scans == Scans(t, items, i) && left == Stack(items, i)
    {
      StackIsLater(items, i + 1, i);
      ghost var scanned;
      cwd, out, left, scanned :=
        ScanItem(t, cwd, out, Chomped(lines[i]), left, i, items[i], Stack(items, i + 1), TraceAt(Reading(t), items, i));
      scans := scans + scanned;
    }
  }

  /** What the source reports for a command is its trace's report; along the way every heredoc body is scanned
      exactly once, in order, in the directory in effect after its opening line, and none is left over. */
  method Written(t: Recognizers, command: string)
    returns (out: seq<string>, left: seq<(nat, string)>, ghost scans: seq<Scanned>)
    ensures out == Report(CommandTrace(t, command).writes)
    ensures var items := Parse(BASH, Lines(command)); left == [] && scans == Scans(t, items, |items|)
  {
    ghost var items := Parse(BASH, Lines(command));
    ItemsExactly(BASH, command, items);
    var shell, bodies := SplitHeredocs(BASH, command);
    PaddedLines(items);
    PaddingDoesNothing(t, items);
    out, left, scans := ScanLines(t, Lines(shell), bodies, Padded(items));
  }

  // ---- What every report is ----

  /** A report lists exactly the paths its writes are recorded as, each once, each normal and none scratch. */
  lemma ReportIsExact(writes: seq<Write>)
    ensures Distinct(Report(writes))
    ensures forall p :: p in Report(writes) <==> exists k :: 0 <= k < |writes| && RecordedAs(writes[k]) == Some(p)
    ensures forall p :: p in Report(writes) ==> Paths.Normalize(p) == p && !Scratch(p)
  {
    FirstSeenIs(Found(writes));
    forall p ensures p in Report(writes) <==> exists k :: 0 <= k < |writes| && RecordedAs(writes[k]) == Some(p) {
      if p in Report(writes) {
        var k :| 0 <= k < |writes| && Found(writes)[k] == Some(p);
        assert RecordedAs(writes[k]) == Some(p);
      }
      if k :| 0 <= k < |writes| && RecordedAs(writes[k]) == Some(p) {
        assert Found(writes)[k] == Some(p);
      }
    }
    forall p | p in Report(writes) ensures Paths.Normalize(p) == p && !Scratch(p) {
      var k :| 0 <= k < |writes| && RecordedAs(writes[k]) == Some(p);
      RecordedIsNormal(CwdAfter(writes[k].moves), writes[k].target);
    }
  }

  predicate Extends(later: Trace, tr: Trace)
  {
    tr.moves <= later.moves && tr.writes <= later.writes
  }

  /** Every write was noted under the first of the `cd`s made so far. */
  predicate Consistent(tr: Trace)
  {
    forall k :: 0 <= k < |tr.writes| ==> tr.writes[k].moves <= tr.moves
  }

  lemma SegmentExtends(t: Recognizers, tr: Trace, words: seq<string>)
    ensures Extends(SegmentTrace(t, tr, words), tr)
    ensures Consistent(tr) ==> Consistent(SegmentTrace(t, tr, words))
  {
  }

  lemma {:induction false} LineExtends(t: Recognizers, tr: Trace, segments: seq<string>)
    ensures Extends(LineTrace(t, tr, segments), tr)
    ensures Consistent(tr) ==> Consistent(LineTrace(t, tr, segments))
    decreases segments
  {
    if segments != [] {
      SegmentExtends(t, tr, Words(segments[0]));
      LineExtends(t, SegmentTrace(t, tr, Words(segments[0])), segments[1..]);
    }
  }

  lemma ItemExtends(t: Recognizers, tr: Trace, item: Item)
    ensures Extends(ItemTrace(t, tr, item), tr)
    ensures Consistent(tr) ==> Consistent(ItemTrace(t, tr, item))
  {
    LineExtends(t, tr, ShellSegments.Segments(Shown(item.line)));
  }

  predicate Step(tr: Trace, next: Trace)
  {
    Extends(next, tr) && (Consistent(tr) ==> Consistent(next))
  }

  ghost predicate Steps(read: (Trace, Item) -> Trace)
  {
    forall tr, item :: Step(tr, read(tr, item))
  }

  lemma ReadingSteps(t: Recognizers)
    ensures Steps(Reading(t))
  {
    forall tr, item ensures Step(tr, Reading(t)(tr, item)) {
      ItemExtends(t, tr, item);
    }
  }

  lemma {:induction false} StepsExtend(read: (Trace, Item) -> Trace, items: seq<Item>, n: nat, m: nat)
    requires Steps(read) && n <= m <= |items|
    ensures Extends(TraceAt(read, items, m), TraceAt(read, items, n))
    decreases m
  {
    if n < m {
      StepsExtend(read, items, n, m - 1);
      assert Step(TraceAt(read, items, m - 1), read(TraceAt(read, items, m - 1), items[m - 1]));
    }
  }

  lemma {:induction false} StepsAreConsistent(read: (Trace, Item) -> Trace, items: seq<Item>, n: nat)
    requires Steps(read) && n <= |items|
    ensures Consistent(TraceAt(read, items, n))
  {
    if n > 0 {
      StepsAreConsistent(read, items, n - 1);
      assert Step(TraceAt(read, items, n - 1), read(TraceAt(read, items, n - 1), items[n - 1]));
    }
  }

  lemma ReportGrows(writes: seq<Write>, later: seq<Write>)
    requires writes <= later
    ensures Report(writes) <= Report(later)
  {
    var more := Found(later)[|writes|..];
    assert Found(later) == Found(writes) + more;
    FirstSeenGrows(Found(writes), more);
  }

  lemma TracesGrow(read: (Trace, Item) -> Trace, items: seq<Item>, n: nat, m: nat)
    requires Steps(read) && n <= m <= |items|
    ensures Report(TraceAt(read, items, n).writes) <= Report(TraceAt(read, items, m).writes)
    ensures Consistent(TraceAt(read, items, m))
  {
    StepsExtend(read, items, n, m);
    StepsAreConsistent(read, items, m);
    ReportGrows(TraceAt(read, items, n).writes, TraceAt(read, items, m).writes);
  }

  /** Reading on only adds: the report so far stays the head of every later report, and each write keeps the
      `cd`s that came before it. */
  lemma ReportOnlyGrows(t: Recognizers, items: seq<Item>, n: nat, m: nat)
    requires n <= m <= |items|
    ensures Report(TraceAt(Reading(t), items, n).writes) <= Report(TraceAt(Reading(t), items, m).writes)
    ensures Consistent(TraceAt(Reading(t), items, m))
  {
    ReadingSteps(t);
    TracesGrow(Reading(t), items, n, m);
  }

  /** In every world, what a write is recorded as is the file it names after the moves before it. */
  ghost predicate NamesTheFile(w: Write)
    requires RecordedAs(w).Some?
  {
    forall world: Places.World ::
      Places.Resolve(world, world.start, RecordedAs(w).value)
      == Places.Resolve(world, Places.Followed(world, Moves.PathsOf(w.moves)), Trim(w.target))
  }

  /** Each write recorded is the file meant if and only if the `cd`s before it and its target fit. */
  lemma RecordedIsMeant(w: Write)
    requires RecordedAs(w).Some?
    ensures NamesTheFile(w) <==> Moves.Fits(w.moves, Trim(w.target))
  {
    var path := Trim(w.target);
    Moves.RecordedRightExactlyWhen(w.moves, path);
    assert RecordedAs(w) == Some(Tracking.Located(CwdAfter(w.moves), path));
    assert NamesTheFile(w) == Moves.LocatesRight(w.moves, path);
  }

  /** Where every `cd` had an operand, that is: if and only if the operands and the target are safe to join, or,
      when the target starts with `~`, if it is stable. */
  lemma TrackedIsMeant(w: Write)
    requires RecordedAs(w).Some? && forall i :: 0 <= i < |w.moves| ==> w.moves[i].To?
    ensures var path := Trim(w.target);
            NamesTheFile(w) <==>
            if Places.Tilde(path) then Tracking.Stable(path) else Tracking.Safe(Moves.Operands(w.moves) + [path])
  {
    RecordedIsMeant(w);
    if Paths.Absolute(Trim(w.target)) {
      Moves.AbsoluteIsSafe(Moves.Operands(w.moves), Trim(w.target));
    }
  }

  /** A `cd` without an operand is not seen: whatever was tracked before it, unless that is just `~`, every
      relative target after it is recorded wrongly. */
  lemma BareCdGoesWrong(w: Write, before: seq<Move>)
    requires RecordedAs(w).Some? && w.moves == before + [Moves.Home] && CwdAfter(before) != Some("~")
    requires !Moves.Resets(Trim(w.target))
    ensures !NamesTheFile(w)
  {
    RecordedIsMeant(w);
    assert w.moves[..|before|] == before && Moves.FreshStart(w.moves) == |w.moves|;
    Moves.AtHomeIsTracked(Moves.Operands(before));
  }
}
