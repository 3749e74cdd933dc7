/** Which files a command writes, said of the command as it is typed. */
module TypedWrites {
  import opened Prelude
  import opened Text
  import opened WrittenPaths

  // ---- Redirects ----

  /** A word or two of a command line: a word without an arrow to a file, an arrow to a file, with a blank between
      or without, or an arrow to another descriptor. */
  datatype TypedArg =
    | Word(word: string)
    | Into(arrow: string, file: string, apart: bool)
    | Onto(arrow: string, descriptor: string)

  const ARROWS: seq<string> := [">", ">>", "1>", "1>>"]

  /** Neither `>` nor `1>` in front: `2>`, `&>` and everything else. */
  predicate NoArrow(word: string)
  {
    !(|word| >= 1 && word[0] == '>') && !(|word| >= 2 && word[0] == '1' && word[1] == '>')
  }

  predicate IsArg(a: TypedArg)
  {
    match a
    case Word(word) => NoArrow(word)
    case Into(arrow, file, apart) =>
      arrow in ARROWS && if apart then NoArrow(file) else file != "" && file[0] != '&' && file[0] != '>'
    case Onto(arrow, descriptor) => arrow in ARROWS
  }

  function Typed(a: TypedArg): seq<string>
  {
    match a
    case Word(word) => [word]
    case Into(arrow, file, apart) => if apart then [arrow, file] else [arrow + file]
    case Onto(arrow, descriptor) => [arrow + "&" + descriptor]
  }

  function TypedArgs(args: seq<TypedArg>): seq<string>
  {
    if args == [] then [] else Typed(args[0]) + TypedArgs(args[1..])
  }

  /** The files of the arrows, in order. */
  function FilesOf(args: seq<TypedArg>): seq<string>
  {
    if args == [] then [] else (if args[0].Into? then [args[0].file] else []) + FilesOf(args[1..])
  }

  lemma SameTarget(a: seq<string>, i: nat, b: seq<string>, j: nat)
    requires i < |a| && j < |b| && a[i] == b[j] && (i + 1 < |a| <==> j + 1 < |b|)
    requires i + 1 < |a| ==> a[i + 1] == b[j + 1]
    ensures RedirectTarget(a, i) == RedirectTarget(b, j)
  {
  }

  lemma NextTargets(words: seq<string>, i: nat)
    requires i < |words|
    ensures RedirectTargets(words, i) == RedirectTarget(words, i) + RedirectTargets(words, i + 1)
  {
  }

  lemma {:induction false} TargetsShift(front: seq<string>, rest: seq<string>, i: nat, at: nat)
    requires i <= |rest| && at == |front| + i
    ensures RedirectTargets(front + rest, at) == RedirectTargets(rest, i)
    decreases |rest| - i
  {
    if i < |rest| {
      SameTarget(front + rest, at, rest, i);
      NextTargets(front + rest, at);
      NextTargets(rest, i);
      TargetsShift(front, rest, i + 1, at + 1);
    }
  }

  lemma NoArrowNoTarget(words: seq<string>, i: nat)
    requires i < |words| && NoArrow(words[i])
    ensures RedirectTarget(words, i) == []
  {
  }

  lemma AfterArrowIs(arrow: string, rest: string)
    requires arrow in ARROWS && (rest == "" || rest[0] != '>')
    ensures AfterArrow(arrow + rest) == Some(rest)
  {
    var word := arrow + rest;
    assert arrow <= word && word[|arrow|..] == rest;
    assert word[0] == arrow[0] && (rest != "" ==> word[|arrow|] == rest[0]);
    if arrow == ">" {
      assert !(">>" <= word);
    } else if arrow == "1>" {
      assert !("1>>" <= word) && !(">" <= word) && !(">>" <= word);
    } else if arrow == "1>>" {
      assert !(">" <= word) && !(">>" <= word);
    }
  }

  lemma ArrowAlone(words: seq<string>, i: nat)
    requires i + 1 < |words| && words[i] in ARROWS
    ensures RedirectTarget(words, i) == [words[i + 1]]
  {
    AfterArrowIs(words[i], "");
    assert words[i] + "" == words[i];
  }

  lemma ArrowAttached(words: seq<string>, i: nat, arrow: string, file: string)
    requires i < |words| && words[i] == arrow + file && arrow in ARROWS && file != "" && file[0] != '>'
    ensures RedirectTarget(words, i) == if file[0] == '&' then [] else [file]
  {
    AfterArrowIs(arrow, file);
  }

  lemma TargetsOfOne(word: string, rest: seq<string>, target: seq<string>)
    requires RedirectTarget([word] + rest, 0) == target
    ensures RedirectTargets([word] + rest, 0) == target + RedirectTargets(rest, 0)
  {
    NextTargets([word] + rest, 0);
    TargetsShift([word], rest, 0, 1);
  }

  lemma TargetsOfTwo(arrow: string, file: string, rest: seq<string>)
    requires arrow in ARROWS && NoArrow(file)
    ensures RedirectTargets([arrow, file] + rest, 0) == [file] + RedirectTargets(rest, 0)
  {
    var words := [arrow, file] + rest;
    assert words == [arrow] + ([file] + rest);
    ArrowAlone(words, 0);
    NoArrowNoTarget([file] + rest, 0);
    TargetsOfOne(file, rest, []);
    TargetsOfOne(arrow, [file] + rest, [file]);
    assert [] + RedirectTargets(rest, 0) == RedirectTargets(rest, 0);
  }

  lemma TargetsOfArg(a: TypedArg, rest: seq<string>)
    requires IsArg(a)
    ensures RedirectTargets(Typed(a) + rest, 0)
            == (if a.Into? then [a.file] else []) + RedirectTargets(rest, 0)
  {
    match a
    case Word(word) =>
      NoArrowNoTarget([word] + rest, 0);
      TargetsOfOne(word, rest, []);
    case Into(arrow, file, apart) =>
      if apart {
        TargetsOfTwo(arrow, file, rest);
      } else {
        ArrowAttached([arrow + file] + rest, 0, arrow, file);
        TargetsOfOne(arrow + file, rest, [file]);
      }
    case Onto(arrow, descriptor) =>
      var word := arrow + "&" + descriptor;
      assert word == arrow + ("&" + descriptor);
      ArrowAttached([word] + rest, 0, arrow, "&" + descriptor);
      TargetsOfOne(word, rest, []);
  }

  /** The targets of a command's redirects are the files its arrows point to, in order, and nothing else. */
  lemma {:induction false} RedirectsAreArrows(args: seq<TypedArg>)
    requires forall i :: 0 <= i < |args| ==> IsArg(args[i])
    ensures RedirectTargets(TypedArgs(args), 0) == FilesOf(args)
  {
    if args != [] {
      TargetsOfArg(args[0], TypedArgs(args[1..]));
      RedirectsAreArrows(args[1..]);
    }
  }

  /** An arrow with nothing after it points nowhere. */
  lemma DanglingArrow(front: seq<string>, arrow: string)
    requires arrow in ARROWS
    ensures RedirectTargets(front + [arrow], |front|) == []
  {
    var words := [arrow];
    TargetsShift(front, words, 0, |front|);
    NextTargets(words, 0);
    AfterArrowIs(arrow, "");
    assert arrow + "" == arrow;
  }

  // ---- Operands ----

  /** A word in front of which stands a dash, `>`, `2>` or `&>`. */
  predicate IsSetAside(word: string)
  {
    || (|word| >= 1 && (word[0] == '-' || word[0] == '>'))
    || (|word| >= 2 && (word[0] == '2' || word[0] == '&') && word[1] == '>')
  }

  /** The other words, in order. */
  function Left(words: seq<string>): seq<string>
  {
    if words == [] then []
    else
      var last := words[|words| - 1];
      Left(words[..|words| - 1]) + (if IsSetAside(last) then [] else [last])
  }

  lemma SetAsideIs(word: string)
    ensures StartsWith(word, "-") || Redirect(word) <==> IsSetAside(word)
    ensures Redirect(word) <==> IsSetAside(word) && word[0] != '-'
  {
  }

  lemma {:induction false} LeftCons(first: string, rest: seq<string>)
    ensures Left([first] + rest) == (if IsSetAside(first) then [] else [first]) + Left(rest)
    decreases |rest|
  {
    var all := [first] + rest;
    if rest == [] {
      assert all[..0] == [] && Left(all[..0]) == [];
    } else {
      assert all[..|all| - 1] == [first] + rest[..|rest| - 1];
      LeftCons(first, rest[..|rest| - 1]);
    }
  }

  lemma {:induction false} OperandsAreLeft(words: seq<string>)
    ensures Operands(words) == Left(words)
  {
    if words != [] {
      OperandsAreLeft(words[1..]);
      SetAsideIs(words[0]);
      LeftCons(words[0], words[1..]);
      assert words == [words[0]] + words[1..];
    }
  }

  /** `tee` writes every word left. */
  lemma TeeWrites(t: Recognizers, words: seq<string>)
    ensures CommandTargets(t, ["tee"] + words) == Left(words)
  {
    assert (["tee"] + words)[1..] == words;
    OperandsAreLeft(words);
  }

  /** `cp` and `mv` write the second word left, if there is one. */
  lemma CopyWrites(t: Recognizers, command: string, words: seq<string>)
    requires command == "cp" || command == "mv"
    ensures CommandTargets(t, [command] + words) == if |Left(words)| > 1 then [Left(words)[1]] else []
  {
    assert ([command] + words)[1..] == words;
    OperandsAreLeft(words);
  }

  lemma {:induction false} LeftAppend(a: seq<string>, b: seq<string>)
    ensures Left(a + b) == Left(a) + Left(b)
    decreases |b|
  {
    if b == [] {
      assert a + b == a;
    } else {
      assert (a + b)[..|a + b| - 1] == a + b[..|b| - 1];
      LeftAppend(a, b[..|b| - 1]);
    }
  }

  lemma LeftOne(word: string)
    requires !IsSetAside(word)
    ensures Left([word]) == [word]
  {
    assert [word][..0] == [] && Left([word][..0]) == [];
  }

  /** A copy with its source, then whatever, then its destination: the destination is what it is taken to write if
      and only if nothing in between counts as a word left, or the first that does has the same name. */
  lemma CopyWritesItsDestinationExactlyWhen(
    t: Recognizers, command: string, flags: seq<string>, source: string, between: seq<string>, destination: string,
    after: seq<string>)
    requires command == "cp" || command == "mv"
    requires !IsSetAside(source) && !IsSetAside(destination) && Left(flags) == []
    ensures CommandTargets(t, [command] + (flags + [source] + between + [destination] + after)) == [destination]
            <==> Left(between) == [] || Left(between)[0] == destination
  {
    var words := flags + [source] + between + [destination] + after;
    CopyWrites(t, command, words);
    LeftOne(source);
    LeftOne(destination);
    LeftAppend(flags, [source]);
    LeftAppend(flags + [source], between);
    LeftAppend(flags + [source] + between, [destination]);
    LeftAppend(flags + [source] + between + [destination], after);
    assert Left(words)[0] == source;
    assert Left(words)[1] == if Left(between) == [] then destination else Left(between)[0];
  }

  /** A redirect typed before the destination is taken for it. */
  lemma RedirectTakenForDestination(t: Recognizers, source: string, file: string, destination: string)
    requires !IsSetAside(source) && !IsSetAside(file) && !IsSetAside(destination) && file != destination
    ensures CommandTargets(t, ["cp"] + ([] + [source] + [">", file] + [destination] + [])) == [file]
  {
    var between := [">", file];
    assert between[..1] == [">"] && [">"][..0] == [] && Left([">"][..0]) == [];
    assert Left([">"]) == [] && Left(between) == [file];
    var words := [] + [source] + between + [destination] + [];
    CopyWrites(t, "cp", words);
    LeftOne(source);
    LeftOne(destination);
    LeftAppend([source], between);
    LeftAppend([source] + between, [destination]);
    assert words == [source] + between + [destination];
  }

  // ---- Edits in place ----

  /** A flag that asks for an edit in place: a dash and letters with an `i`; for `sed` also `--in-place`. */
  predicate AsksInPlace(command: string, word: string)
  {
    || (|word| >= 2 && word[0] == '-' && word[1] != '-' && exists k :: 1 <= k < |word| && word[k] == 'i')
    || (command == "sed" && word == "--in-place")
  }

  lemma InPlaceIs(command: string, word: string)
    ensures IsInPlace(command, word) <==> AsksInPlace(command, word)
  {
    if StartsWith(word, "-") {
      assert 'i' in word[1..] <==> exists k :: 1 <= k < |word| && word[k] == 'i' by {
        if k :| 1 <= k < |word| && word[k] == 'i' {
          assert word[1..][k - 1] == 'i';
        }
        if 'i' in word[1..] {
          var j :| 0 <= j < |word| - 1 && word[1..][j] == 'i';
          assert word[j + 1] == 'i';
        }
      }
      assert StartsWith(word, "--") <==> |word| >= 2 && word[1] == '-';
      assert StartsWith(word, "-i") ==> word[1] == 'i';
    }
  }

  /** A word or two of an edit in place: a flag, a flag with the script after it, or an operand. */
  datatype EditArg = Flag(flag: string) | Script(flag: string, script: string) | Operand(word: string)

  predicate IsFlag(word: string)
  {
    |word| >= 2 && word[0] == '-'
  }

  /** A flag that takes the script: `-e`, `-f`, `--expression`, or letters that end in `e`. */
  predicate TakesScript(flag: string)
  {
    flag in ["-e", "-f", "--expression"] || (IsFlag(flag) && flag[1] != '-' && flag[|flag| - 1] == 'e')
  }

  predicate IsEditArg(a: EditArg)
  {
    match a
    case Flag(flag) => IsFlag(flag) && !TakesScript(flag)
    case Script(flag, script) => TakesScript(flag)
    case Operand(word) => !IsFlag(word) && !(IsSetAside(word) && word[0] != '-')
  }

  function TypedEdit(a: EditArg): seq<string>
  {
    match a
    case Flag(flag) => [flag]
    case Script(flag, script) => [flag, script]
    case Operand(word) => [word]
  }

  function TypedEdits(args: seq<EditArg>): seq<string>
  {
    if args == [] then [] else TypedEdit(args[0]) + TypedEdits(args[1..])
  }

  predicate GivesScript(args: seq<EditArg>)
  {
    exists i :: 0 <= i < |args| && args[i].Script?
  }

  function EditOperands(args: seq<EditArg>): seq<string>
  {
    if args == [] then [] else (if args[0].Operand? then [args[0].word] else []) + EditOperands(args[1..])
  }

  lemma RoleIs(word: string)
    ensures RoleOf(word) ==
            if IsSetAside(word) && word[0] != '-' then Stop
            else if TakesScript(word) then Role.Script
            else if IsFlag(word) then Role.Flag
            else Role.Operand
  {
    SetAsideIs(word);
    if StartsWith(word, "-") {
      assert StartsWith(word, "--") <==> |word| >= 2 && word[1] == '-';
    }
  }

  lemma ArgsAppend(a: seq<string>, b: seq<string>)
    ensures Args(a + b) == Args(a) + Args(b)
  {
  }

  /** What is read from the words from here on, the operands and whether a flag gave the script. */
  lemma EditStep(a: EditArg, rest: seq<string>)
    requires IsEditArg(a)
    ensures var now, later := Positionals(Args(TypedEdit(a) + rest)), Positionals(Args(rest));
            && now.words == (if a.Operand? then [a.word] else []) + later.words
            && now.scriptGiven == (a.Script? || later.scriptGiven)
  {
    var args := Args(TypedEdit(a) + rest);
    ArgsAppend(TypedEdit(a), rest);
    match a
    case Flag(flag) =>
      RoleIs(flag);
      assert args[1..] == Args(rest);
    case Script(flag, script) =>
      RoleIs(flag);
      assert args[2..] == Args(rest);
    case Operand(word) =>
      RoleIs(word);
      assert args[1..] == Args(rest);
  }

  lemma GivesScriptCons(args: seq<EditArg>)
    requires args != []
    ensures GivesScript(args) <==> args[0].Script? || GivesScript(args[1..])
  {
    var later := args[1..];
    if i :| 0 <= i < |later| && later[i].Script? {
      assert args[i + 1].Script?;
    }
  }

  lemma {:induction false} EditWords(args: seq<EditArg>, rest: seq<string>)
    requires forall i :: 0 <= i < |args| ==> IsEditArg(args[i])
    requires rest != [] ==> IsSetAside(rest[0]) && rest[0][0] != '-'
    ensures var p := Positionals(Args(TypedEdits(args) + rest));
            p.words == EditOperands(args) && (p.scriptGiven <==> GivesScript(args))
  {
    if args == [] {
      assert TypedEdits(args) + rest == rest;
      if rest != [] {
        RoleIs(rest[0]);
      }
    } else {
      var later := args[1..];
      EditWords(later, rest);
      EditStep(args[0], TypedEdits(later) + rest);
      assert TypedEdits(args) + rest == TypedEdit(args[0]) + (TypedEdits(later) + rest);
      GivesScriptCons(args);
    }
  }

  /** An edit in place writes its operands up to the first redirect, less the first when no flag gave the script. */
  lemma EditWrites(t: Recognizers, command: string, args: seq<EditArg>, rest: seq<string>)
    requires command == "sed" || command == "perl"
    requires forall i :: 0 <= i < |args| ==> IsEditArg(args[i])
    requires rest != [] ==> IsSetAside(rest[0]) && rest[0][0] != '-'
    requires exists i :: 0 <= i < |TypedEdits(args)| && AsksInPlace(command, TypedEdits(args)[i])
    ensures CommandTargets(t, [command] + (TypedEdits(args) + rest))
            == var files := EditOperands(args);
               if GivesScript(args) then files else if files == [] then [] else files[1..]
  {
    var words := [command] + (TypedEdits(args) + rest);
    var i :| 0 <= i < |TypedEdits(args)| && AsksInPlace(command, TypedEdits(args)[i]);
    InPlaceIs(command, TypedEdits(args)[i]);
    assert words[i + 1] == TypedEdits(args)[i];
    assert words[1..] == TypedEdits(args) + rest;
    EditWords(args, rest);
  }

  /** Without such a flag they write nothing of their own. */
  lemma NoEditNoWrites(t: Recognizers, command: string, words: seq<string>)
    requires command == "sed" || command == "perl"
    requires forall i :: 0 <= i < |words| ==> !AsksInPlace(command, words[i])
    ensures CommandTargets(t, [command] + words) == []
  {
    var all := [command] + words;
    forall i | 0 <= i < |all| ensures !IsInPlace(command, all[i]) {
      InPlaceIs(command, all[i]);
      assert i > 0 ==> all[i] == words[i - 1];
    }
  }

  // ---- Scripts, and everything else ----

  /** `python`, by any name that starts so, writes what the script after its first `-c` writes. */
  lemma PythonWrites(t: Recognizers, command: string, before: seq<string>, code: string, after: seq<string>)
    requires "python" <= command && "-c" !in before
    ensures CommandTargets(t, [command] + before + ["-c", code] + after) == t.python(code)
  {
    var words := [command] + before + ["-c", code] + after;
    var n := 1 + |before|;
    assert command[0] == 'p' && command[1] == 'y';
    assert words[n] == "-c" && words[n + 1] == code;
    PositionIs(words, "-c", n);
  }

  lemma PositionIs(words: seq<string>, word: string, n: nat)
    requires n < |words| && words[n] == word && forall i :: 0 <= i < n ==> words[i] != word
    ensures Position(words, word) == n
  {
    var i := Position(words, word);
    assert forall j :: 0 <= j < i ==> words[..i][j] == words[j];
  }

  /** Other commands write nothing but what they redirect. */
  lemma OthersWriteNothing(t: Recognizers, words: seq<string>)
    requires words != [] && words[0] !in ["tee", "sed", "perl", "mv", "cp"] && !("python" <= words[0])
    ensures CommandTargets(t, words) == []
  {
  }
}
