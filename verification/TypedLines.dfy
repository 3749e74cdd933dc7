/** The files reported for a whole command line, said of the line as it is typed. */
module TypedLines {
  import opened Prelude
  import opened Text
  import ShellWords
  import opened ShellSegments
  import Heredocs
  import Paths
  import Tracking
  import Moves
  import opened WrittenPaths
  import opened TypedWrites

  // ---- A line is its commands, one after the other ----

  /** What a run of simple commands leaves, given each one's words. */
  function TraceOf(t: Recognizers, tr: Trace, words: seq<seq<string>>): Trace
    decreases words
  {
    if words == [] then tr else TraceOf(t, SegmentTrace(t, tr, words[0]), words[1..])
  }

  function WordsOfAll(commands: seq<Command>): seq<seq<string>>
  {
    seq(|commands|, i requires 0 <= i < |commands| => ShellWords.Meant(commands[i].tokens))
  }

  lemma {:induction false} LineTraceIs(t: Recognizers, tr: Trace, segments: seq<string>, words: seq<seq<string>>)
    requires |segments| == |words| && forall i :: 0 <= i < |words| ==> ShellWords.Words(segments[i]) == words[i]
    ensures LineTrace(t, tr, segments) == TraceOf(t, tr, words)
    decreases segments
  {
    if segments != [] {
      LineTraceIs(t, SegmentTrace(t, tr, words[0]), segments[1..], words[1..]);
    }
  }

  /** One line of shell with no line break, and no heredoc on it. */
  predicate OneLine(line: string)
  {
    line != "" && '\n' !in line && line[|line| - 1] != '\r' && Heredocs.Delimiter(line) == None
  }

  lemma OneLineIsOneItem(line: string)
    requires OneLine(line)
    ensures Heredocs.Parse(Heredocs.BASH, Heredocs.Lines(line)) == [Heredocs.Plain(line)]
  {
    var r, lines := Heredocs.BASH, Heredocs.Lines(line);
    assert lines == [line] by {
      Heredocs.LineLengthOf(line, "");
      assert line + "" == line && line[..|line|] == line && line[|line|..] == "";
    }
    assert r.opens(lines[0]) == None;
    assert Heredocs.NextAt(r, lines, 0) == 1 && Heredocs.ItemAt(r, lines, 0) == Heredocs.Plain(line);
    assert Heredocs.ItemsFrom(r, lines, 1) == [];
  }

  /** A shell line is read without its line break, be it a line feed alone or after a carriage return. */
  lemma ShownIs(text: string)
    requires '\n' !in text
    ensures Shown(text + "\r\n") == text
    ensures text == "" || text[|text| - 1] != '\r' ==> Shown(text + "\n") == text && Shown(text) == text
  {
    var ended, returned := text + "\n", text + "\r\n";
    assert ended[..|ended| - 1] == text && returned[..|returned| - 2] == text;
    assert text != "" ==> text[|text| - 1] in text;
  }

  lemma TraceOfOneLine(t: Recognizers, line: string)
    requires OneLine(line)
    ensures CommandTrace(t, line) == LineTrace(t, Trace([], []), Segments(line))
  {
    OneLineIsOneItem(line);
    ShownIs(line);
    var items := [Heredocs.Plain(line)];
    assert TraceAt(Reading(t), items, 1) == Reading(t)(TraceAt(Reading(t), items, 0), items[0]);
  }

  /** However its commands are spelled, spaced and separated, a typed line leaves what its commands leave, taken one
      after the other by their words. */
  lemma TypedLineIs(t: Recognizers, commands: seq<Command>)
    requires ShellSegments.Script(commands) && AllJoin(Parts(commands)) && OneLine(Render(Parts(commands)))
    ensures CommandTrace(t, Render(Parts(commands))) == TraceOf(t, Trace([], []), WordsOfAll(commands))
  {
    var line := Render(Parts(commands));
    ScriptRoundTrip(commands);
    LineTraceIs(t, Trace([], []), Segments(line), WordsOfAll(commands));
    TraceOfOneLine(t, line);
  }

  // ---- One command ----

  /** A command that is neither a `cd` nor one of those with writes of their own leaves the files its arrows point
      to. */
  lemma CommandLeaves(t: Recognizers, tr: Trace, command: string, args: seq<TypedArg>)
    requires command !in ["cd", "tee", "sed", "perl", "mv", "cp"] && !("python" <= command) && NoArrow(command)
    requires forall i :: 0 <= i < |args| ==> IsArg(args[i])
    ensures SegmentTrace(t, tr, [command] + TypedArgs(args)) == Note(tr, FilesOf(args))
  {
    var words := [command] + TypedArgs(args);
    NoArrowNoTarget(words, 0);
    TargetsOfOne(command, TypedArgs(args), []);
    RedirectsAreArrows(args);
    assert [] + FilesOf(args) == FilesOf(args);
    OthersWriteNothing(t, words);
    var redirected := Note(tr, FilesOf(args));
    assert Note(redirected, []).writes == redirected.writes;
  }

  lemma PlainFirst(word: string, rest: seq<string>, targets: seq<string>)
    requires NoArrow(word) && RedirectTargets(rest, 0) == targets
    ensures RedirectTargets([word] + rest, 0) == targets
  {
    NoArrowNoTarget([word] + rest, 0);
    TargetsOfOne(word, rest, []);
    assert [] + targets == targets;
  }

  lemma PlainAlone(word: string)
    requires NoArrow(word)
    ensures RedirectTargets([word], 0) == []
  {
    NoArrowNoTarget([word], 0);
    NextTargets([word], 0);
  }

  lemma CdTargets(cd: string, dir: string, words: seq<string>, all: seq<string>)
    requires NoArrow(cd) && NoArrow(dir) && all == [cd] + ([dir] + words)
    ensures RedirectTargets(all, 0) == RedirectTargets(words, 0)
  {
    PlainFirst(dir, words, RedirectTargets(words, 0));
    PlainFirst(cd, [dir] + words, RedirectTargets(words, 0));
  }

  lemma NothingNoted(tr: Trace)
    ensures Note(tr, []) == tr
  {
  }

  /** A `cd` moves to its first operand, whatever follows it, or home without one; its arrows count from where it
      started. */
  lemma CdLeaves(t: Recognizers, tr: Trace, cd: string, dir: string, args: seq<TypedArg>)
    requires cd == "cd" && NoArrow(dir) && forall i :: 0 <= i < |args| ==> IsArg(args[i])
    ensures SegmentTrace(t, tr, [cd, dir] + TypedArgs(args))
            == Note(tr, FilesOf(args)).(moves := tr.moves + [Moves.To(dir)])
    ensures SegmentTrace(t, tr, [cd]) == tr.(moves := tr.moves + [Moves.Home])
  {
    var words := TypedArgs(args);
    assert [cd, dir] + words == [cd] + ([dir] + words);
    CdTargets(cd, dir, words, [cd, dir] + words);
    RedirectsAreArrows(args);
    PlainAlone(cd);
    NothingNoted(tr);
  }

  // ---- Which targets are reported, and as what ----

  /** A target that names a file: something is left of it without blanks, it starts with no variable, and holds no
      wildcard. */
  predicate Names(path: string)
  {
    path != "" && path[0] != '$' && forall i :: 0 <= i < |path| ==> path[i] != '*'
  }

  predicate InScratch(path: string)
  {
    "/dev/" <= path || "/proc/" <= path || "/tmp/" <= path
  }

  lemma RecordedIs(cwd: Option<string>, target: string)
    ensures var path := Trim(target);
            Recorded(cwd, target) == if Names(path) && !InScratch(Tracking.Located(cwd, path))
                                     then Some(Tracking.Located(cwd, path)) else None
  {
    var path := Trim(target);
    assert '*' in path <==> exists i :: 0 <= i < |path| && path[i] == '*';
  }

  lemma ReportOfOne(w: Write)
    ensures Report([w]) == if RecordedAs(w).Some? then [RecordedAs(w).value] else []
  {
    assert Found([w]) == [RecordedAs(w)];
    assert Found([w])[..0] == [] && FirstSeen(Found([w])[..0]) == [];
  }

  lemma NoteOne(moves: seq<Move>, file: string)
    ensures Note(Trace(moves, []), [file]) == Trace(moves, [Write(moves, file)])
  {
  }

  lemma TraceOfTwo(t: Recognizers, tr: Trace, first: seq<string>, second: seq<string>)
    ensures TraceOf(t, tr, [first, second]) == SegmentTrace(t, SegmentTrace(t, tr, first), second)
    ensures TraceOf(t, tr, [second]) == SegmentTrace(t, tr, second)
  {
    assert [first, second][1..] == [second] && [second][1..] == [];
    var mid := SegmentTrace(t, tr, first);
    assert TraceOf(t, mid, [second]) == TraceOf(t, SegmentTrace(t, mid, second), []);
  }

  lemma TraceAfterCd(t: Recognizers, cd: string, dir: string, command: string, args: seq<TypedArg>, file: string)
    requires cd == "cd" && NoArrow(dir)
    requires command !in ["cd", "tee", "sed", "perl", "mv", "cp"] && !("python" <= command)
    requires NoArrow(command) && (forall i :: 0 <= i < |args| ==> IsArg(args[i])) && FilesOf(args) == [file]
    ensures TraceOf(t, Trace([], []), [[cd, dir], [command] + TypedArgs(args)])
            == Trace([Moves.To(dir)], [Write([Moves.To(dir)], file)])
    ensures TraceOf(t, Trace([], []), [[command] + TypedArgs(args)]) == Trace([], [Write([], file)])
  {
    var start, moved := Trace([], []), Trace([Moves.To(dir)], []);
    TraceOfTwo(t, start, [cd, dir], [command] + TypedArgs(args));
    CdLeaves(t, start, cd, dir, []);
    NothingNoted(start);
    assert [cd, dir] + TypedArgs([]) == [cd, dir];
    assert start.(moves := start.moves + [Moves.To(dir)]) == moved;
    CommandLeaves(t, moved, command, args);
    CommandLeaves(t, start, command, args);
    NoteOne([Moves.To(dir)], file);
    NoteOne([], file);
  }

  lemma CwdAfterOne(dir: string)
    ensures CwdAfter([Moves.To(dir)]) == Some(Paths.Normalize(dir)) && CwdAfter([]) == None
  {
    CwdAfterMove([], Moves.To(dir));
    assert [] + [Moves.To(dir)] == [Moves.To(dir)];
  }

  /** `cd dir` and then a command with one arrow to a file, typed in any way: the file is reported, under the
      directory, exactly if it names a file and that is not a scratch one; and nothing else is. */
  lemma RedirectIsReported(t: Recognizers, commands: seq<Command>, dir: string, command: string, args: seq<TypedArg>,
                           file: string, path: string)
    requires ShellSegments.Script(commands) && AllJoin(Parts(commands)) && OneLine(Render(Parts(commands)))
    requires WordsOfAll(commands) == [["cd", dir], [command] + TypedArgs(args)] && NoArrow(dir)
    requires command !in ["cd", "tee", "sed", "perl", "mv", "cp"] && !("python" <= command) && NoArrow(command)
    requires (forall i :: 0 <= i < |args| ==> IsArg(args[i])) && FilesOf(args) == [file]
    requires path == Tracking.Located(Some(Paths.Normalize(dir)), Trim(file))
    ensures Report(CommandTrace(t, Render(Parts(commands))).writes)
            == if Names(Trim(file)) && !InScratch(path) then [path] else []
  {
    TypedLineIs(t, commands);
    TraceAfterCd(t, "cd", dir, command, args, file);
    CwdAfterOne(dir);
    RecordedIs(Some(Paths.Normalize(dir)), file);
    ReportOfOne(Write([Moves.To(dir)], file));
  }

  /** The same without a `cd`: `echo x > out.txt` reports `out.txt`. */
  lemma RedirectIsReportedHere(t: Recognizers, commands: seq<Command>, command: string, args: seq<TypedArg>,
                               file: string, path: string)
    requires ShellSegments.Script(commands) && AllJoin(Parts(commands)) && OneLine(Render(Parts(commands)))
    requires WordsOfAll(commands) == [[command] + TypedArgs(args)]
    requires command !in ["cd", "tee", "sed", "perl", "mv", "cp"] && !("python" <= command) && NoArrow(command)
    requires (forall i :: 0 <= i < |args| ==> IsArg(args[i])) && FilesOf(args) == [file]
    requires path == Tracking.Located(None, Trim(file))
    ensures Report(CommandTrace(t, Render(Parts(commands))).writes)
            == if Names(Trim(file)) && !InScratch(path) then [path] else []
  {
    TypedLineIs(t, commands);
    TraceAfterCd(t, "cd", command, command, args, file);
    CwdAfterOne(command);
    RecordedIs(None, file);
    ReportOfOne(Write([], file));
  }

  // ---- Any command ----

  lemma NotedTwice(tr: Trace, a: seq<string>, b: seq<string>)
    ensures Note(Note(tr, a), b) == Note(tr, a + b)
  {
  }

  lemma TraceThere(t: Recognizers, cd: string, dir: string, words: seq<string>, targets: seq<string>)
    requires cd == "cd" && NoArrow(dir) && words != [] && words[0] != "cd"
    requires targets == RedirectTargets(words, 0) + CommandTargets(t, words)
    ensures TraceOf(t, Trace([], []), [[cd, dir], words]) == Note(Trace([Moves.To(dir)], []), targets)
  {
    var start, moved := Trace([], []), Trace([Moves.To(dir)], []);
    TraceOfTwo(t, start, [cd, dir], words);
    CdLeaves(t, start, cd, dir, []);
    NothingNoted(start);
    assert [cd, dir] + TypedArgs([]) == [cd, dir];
    assert start.(moves := start.moves + [Moves.To(dir)]) == moved;
    NotedTwice(moved, RedirectTargets(words, 0), CommandTargets(t, words));
  }

  lemma ReportOfNoted(dir: string, targets: seq<string>, cwd: Option<string>)
    requires cwd == CwdAfter([Moves.To(dir)])
    ensures Found(Note(Trace([Moves.To(dir)], []), targets).writes) == RecordedAll(cwd, targets)
  {
  }

  /** `target`, named in the directory, is a file that is reported, as `path`. */
  predicate ReportedAs(dir: string, target: string, path: string)
  {
    Names(Trim(target)) && path == Tracking.Located(Some(Paths.Normalize(dir)), Trim(target)) && !InScratch(path)
  }

  lemma ReportedFrom(dir: string, targets: seq<string>, path: string)
    ensures var report := FirstSeen(RecordedAll(Some(Paths.Normalize(dir)), targets));
            && Distinct(report)
            && (path in report <==> exists i :: 0 <= i < |targets| && ReportedAs(dir, targets[i], path))
  {
    var cwd := Some(Paths.Normalize(dir));
    var found := RecordedAll(cwd, targets);
    FirstSeenIs(found);
    forall i | 0 <= i < |targets| ensures found[i] == Some(path) <==> ReportedAs(dir, targets[i], path) {
      RecordedIs(cwd, targets[i]);
    }
    assert Some(path) in found <==> exists i :: 0 <= i < |found| && found[i] == Some(path);
  }

  /** `cd dir` and then any other command, typed in any way: reported, each once, are the files its arrows point to
      and those it writes of its own, under the directory, but for names with a variable or a wildcard and scratch
      files; and nothing else is. */
  lemma WritesAreReported(t: Recognizers, commands: seq<Command>, dir: string, words: seq<string>,
                          targets: seq<string>, path: string)
    requires ShellSegments.Script(commands) && AllJoin(Parts(commands)) && OneLine(Render(Parts(commands)))
    requires WordsOfAll(commands) == [["cd", dir], words] && NoArrow(dir) && words != [] && words[0] != "cd"
    requires targets == RedirectTargets(words, 0) + CommandTargets(t, words)
    ensures var report := Report(CommandTrace(t, Render(Parts(commands))).writes);
            && Distinct(report)
            && (path in report <==> exists i :: 0 <= i < |targets| && ReportedAs(dir, targets[i], path))
  {
    TypedLineIs(t, commands);
    TraceThere(t, "cd", dir, words, targets);
    CwdAfterOne(dir);
    ReportOfNoted(dir, targets, Some(Paths.Normalize(dir)));
    ReportedFrom(dir, targets, path);
  }

  lemma {:induction false} NoArrowsNoTargets(files: seq<string>)
    requires forall j :: 0 <= j < |files| ==> NoArrow(files[j])
    ensures RedirectTargets(files, 0) == []
  {
    if files != [] {
      var first, rest := files[0], files[1..];
      NoArrowsNoTargets(rest);
      PlainFirst(first, rest, []);
      assert files == [first] + rest;
    }
  }

  lemma {:induction false} AllLeft(files: seq<string>)
    requires forall j :: 0 <= j < |files| ==> !IsSetAside(files[j])
    ensures Left(files) == files
  {
    if files != [] {
      AllLeft(files[1..]);
      LeftCons(files[0], files[1..]);
      assert files == [files[0]] + files[1..];
    }
  }

  /** `cd dir` and then `tee` with its files: each is reported, under the directory. */
  lemma TeeIsReported(t: Recognizers, commands: seq<Command>, dir: string, tee: string, files: seq<string>,
                      path: string)
    requires ShellSegments.Script(commands) && AllJoin(Parts(commands)) && OneLine(Render(Parts(commands)))
    requires WordsOfAll(commands) == [["cd", dir], [tee] + files] && NoArrow(dir) && tee == "tee"
    requires forall i :: 0 <= i < |files| ==> !IsSetAside(files[i]) && NoArrow(files[i])
    ensures path in Report(CommandTrace(t, Render(Parts(commands))).writes)
            <==> exists i :: 0 <= i < |files| && ReportedAs(dir, files[i], path)
  {
    var words := [tee] + files;
    NoArrowsNoTargets(files);
    PlainFirst(tee, files, []);
    TeeWrites(t, files);
    AllLeft(files);
    assert RedirectTargets(words, 0) + CommandTargets(t, words) == files;
    WritesAreReported(t, commands, dir, words, files, path);
  }
}
