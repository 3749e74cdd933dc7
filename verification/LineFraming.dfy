/**
  Reassembling a chunked byte stream into lines ended by LF, CR or CRLF (section 9.2.5 of the WHATWG
  HTML Living Standard). A CR at the end of what has arrived may still become a CRLF, so it is held.
 */
module LineFraming {
  import opened Prelude

  type Byte = b: int | 0 <= b < 256

  const LF: Byte := 10
  const CR: Byte := 13
  const MAX_BUFFERED_LINE_BYTES: nat := 32 * 1024 * 1024

  // ---- The reference: one pass, one byte at a time ----

  /** The lines so far, the line being read, and whether it ends in a CR that an LF would complete. */
  datatype Scan = Scan(lines: seq<seq<Byte>>, tail: seq<Byte>, held: bool)

  const EMPTY := Scan([], [], false)

  function Fresh(m: Scan, b: Byte): Scan
  {
    if b == LF then Scan(m.lines + [m.tail + [b]], [], false)
    else Scan(m.lines, m.tail + [b], b == CR)
  }

  function Feed(m: Scan, b: Byte): Scan
  {
    if m.held && b != LF then Fresh(Scan(m.lines + [m.tail], [], false), b) else Fresh(m, b)
  }

  function FeedAll(m: Scan, s: seq<Byte>): Scan
    decreases s
  {
    if s == [] then m else FeedAll(Feed(m, s[0]), s[1..])
  }

  /** The whole stream read in one pass. A lone CR at the very end stays in the tail. */
  function OnePass(s: seq<Byte>): Scan
  {
    FeedAll(EMPTY, s)
  }

  /** `m` with `lines` in front of its own. */
  function Before(lines: seq<seq<Byte>>, m: Scan): Scan
  {
    m.(lines := lines + m.lines)
  }

  lemma {:induction false} FeedAppend(m: Scan, s: seq<Byte>, t: seq<Byte>)
    ensures FeedAll(m, s + t) == FeedAll(FeedAll(m, s), t)
    decreases s
  {
    if s == [] {
      assert s + t == t;
    } else {
      assert (s + t)[1..] == s[1..] + t;
      FeedAppend(Feed(m, s[0]), s[1..], t);
    }
  }

  lemma {:induction false} FeedBefore(lines: seq<seq<Byte>>, m: Scan, s: seq<Byte>)
    ensures FeedAll(Before(lines, m), s) == Before(lines, FeedAll(m, s))
    decreases s
  {
    if s != [] {
      var next := Feed(m, s[0]);
      assert Feed(Before(lines, m), s[0]) == Before(lines, next) by {
        assert lines + (m.lines + [m.tail]) == (lines + m.lines) + [m.tail];
        assert lines + (m.lines + [m.tail + [s[0]]]) == (lines + m.lines) + [m.tail + [s[0]]];
        var cut := m.lines + [m.tail];
        assert lines + (cut + [[s[0]]]) == (lines + cut) + [[s[0]]];
      }
      FeedBefore(lines, next, s[1..]);
    }
  }

  lemma FeedLast(m: Scan, s: seq<Byte>, b: Byte)
    ensures FeedAll(m, s + [b]) == Feed(FeedAll(m, s), b)
  {
    FeedAppend(m, s, [b]);
    assert [b][1..] == [];
  }

  // ---- What a split is ----

  /** Bytes, then one terminator: no terminator comes earlier. */
  predicate Line(line: seq<Byte>)
  {
    || (|line| >= 1 && (line[|line| - 1] == LF || line[|line| - 1] == CR) && Plain(line[..|line| - 1]))
    || (|line| >= 2 && line[|line| - 2] == CR && line[|line| - 1] == LF && Plain(line[..|line| - 2]))
  }

  predicate Plain(s: seq<Byte>)
  {
    CR !in s && LF !in s
  }

  /** What follows line `i`. */
  function Following(m: Scan, i: nat): seq<Byte>
    requires i < |m.lines|
  {
    if i + 1 < |m.lines| then m.lines[i + 1] else m.tail
  }

  /** A split of `s`: nothing is lost; every line ends in one terminator, which is a lone CR only when
      something other than an LF follows; and the tail has no terminator, save a held CR at its end. */
  ghost predicate Splits(s: seq<Byte>, m: Scan)
  {
    && Concat(m.lines) + m.tail == s
    && (forall i :: 0 <= i < |m.lines| ==> Line(m.lines[i]))
    && (forall i :: 0 <= i < |m.lines| && m.lines[i][|m.lines[i]| - 1] == CR ==>
          Following(m, i) != [] && Following(m, i)[0] != LF)
    && TailIsOpen(m)
  }

  predicate TailIsOpen(m: Scan)
  {
    if m.held then |m.tail| >= 1 && m.tail[|m.tail| - 1] == CR && Plain(m.tail[..|m.tail| - 1]) else Plain(m.tail)
  }

  lemma CutSplits(s: seq<Byte>, m: Scan, b: Byte)
    requires Splits(s, m) && m.held && b != LF
    ensures Splits(s + [b], Scan(m.lines + [m.tail], [b], b == CR))
  {
    var cut := Scan(m.lines + [m.tail], [b], b == CR);
    ConcatSnoc(m.lines, m.tail);
    assert [b][..0] == [];
    forall i | 0 <= i < |m.lines| ensures Following(cut, i) == Following(m, i) {
    }
  }

  lemma EndSplits(s: seq<Byte>, m: Scan)
    requires Splits(s, m)
    ensures Splits(s + [LF], Scan(m.lines + [m.tail + [LF]], [], false))
  {
    var tail := m.tail + [LF];
    var ended := Scan(m.lines + [tail], [], false);
    assert tail[..|tail| - 1] == m.tail;
    if m.held {
      assert tail[..|tail| - 2] == m.tail[..|m.tail| - 1];
    }
    ConcatSnoc(m.lines, tail);
    forall i | 0 <= i < |m.lines| && m.lines[i][|m.lines[i]| - 1] == CR
      ensures Following(ended, i) != [] && Following(ended, i)[0] != LF
    {
      assert Following(m, i) != [] && Following(m, i)[0] != LF;
    }
  }

  lemma GrowSplits(s: seq<Byte>, m: Scan, b: Byte)
    requires Splits(s, m) && !m.held && b != LF
    ensures Splits(s + [b], Scan(m.lines, m.tail + [b], b == CR))
  {
    var grown := Scan(m.lines, m.tail + [b], b == CR);
    assert grown.tail[..|grown.tail| - 1] == m.tail;
    forall i | 0 <= i < |m.lines| && m.lines[i][|m.lines[i]| - 1] == CR
      ensures Following(grown, i) != [] && Following(grown, i)[0] != LF
    {
      assert Following(m, i) != [] && Following(m, i)[0] != LF;
    }
  }

  /** Every stream splits without loss. */
  lemma {:induction false} OnePassSplits(s: seq<Byte>)
    ensures Splits(s, OnePass(s))
  {
    if s != [] {
      var last := |s| - 1;
      var m, b := OnePass(s[..last]), s[last];
      OnePassSplits(s[..last]);
      FeedLast(EMPTY, s[..last], b);
      assert s == s[..last] + [b];
      if b == LF {
        EndSplits(s[..last], m);
      } else if m.held {
        CutSplits(s[..last], m, b);
        assert [] + [b] == [b];
      } else {
        GrowSplits(s[..last], m, b);
      }
    }
  }

  // ---- The framer ----

  /** Where the first complete terminator starts and how long it is; a CR at the very end is not complete. */
  function FindLineBreak(buf: seq<Byte>): (r: Option<(nat, nat)>)
    ensures r.Some? ==> r.value.1 >= 1 && r.value.0 + r.value.1 <= |buf|
  {
    var pos := FirstTerminator(buf);
    if pos == |buf| then None
    else if buf[pos] == LF then Some((pos, 1))
    else if pos + 1 == |buf| then None
    else if buf[pos + 1] == LF then Some((pos, 2))
    else Some((pos, 1))
  }

  function FirstTerminator(buf: seq<Byte>): (pos: nat)
    ensures pos <= |buf| && Plain(buf[..pos])
    ensures pos < |buf| ==> buf[pos] == LF || buf[pos] == CR
  {
    if buf == [] then 0
    else if buf[0] == LF || buf[0] == CR then 0
    else
      var rest := FirstTerminator(buf[1..]);
      assert buf[..1 + rest] == [buf[0]] + buf[1..][..rest];
      1 + rest
  }

  lemma {:induction false} FeedPlain(m: Scan, s: seq<Byte>)
    requires !m.held && Plain(s)
    ensures FeedAll(m, s) == Scan(m.lines, m.tail + s, false)
    decreases s
  {
    if s == [] {
      assert m.tail + s == m.tail;
    } else {
      FeedPlain(Feed(m, s[0]), s[1..]);
      assert m.tail + s == m.tail + [s[0]] + s[1..];
    }
  }

  /** Cutting at the first break leaves the rest of the scan as it would be on its own. */
  lemma BreakIsLine(buf: seq<Byte>)
    requires FindLineBreak(buf).Some?
    ensures var (pos, len) := FindLineBreak(buf).value;
            OnePass(buf) == Before([buf[..pos + len]], OnePass(buf[pos + len..]))
  {
    var (pos, len) := FindLineBreak(buf).value;
    var line, rest := buf[..pos + len], buf[pos + len..];
    FeedPlain(EMPTY, buf[..pos]);
    FeedLast(EMPTY, buf[..pos], buf[pos]);
    assert buf[..pos + 1] == buf[..pos] + [buf[pos]];
    assert [] + buf[..pos] == buf[..pos];
    if buf[pos] == LF {
      CompleteLine(line, rest);
    } else if len == 2 {
      FeedLast(EMPTY, buf[..pos + 1], LF);
      assert line == buf[..pos + 1] + [LF];
      CompleteLine(line, rest);
    } else {
      HeldLine(line, rest);
    }
    assert buf == line + rest;
  }

  lemma CompleteLine(line: seq<Byte>, rest: seq<Byte>)
    requires OnePass(line) == Scan([line], [], false)
    ensures OnePass(line + rest) == Before([line], OnePass(rest))
  {
    FeedAppend(EMPTY, line, rest);
    assert [line] + [] == [line];
    FeedBefore([line], EMPTY, rest);
  }

  lemma HeldLine(line: seq<Byte>, rest: seq<Byte>)
    requires OnePass(line) == Scan([], line, true) && rest != [] && rest[0] != LF
    ensures OnePass(line + rest) == Before([line], OnePass(rest))
  {
    FeedAppend(EMPTY, line, rest);
    assert [line] + [] == [line] && [] + [line] == [line];
    FeedBefore([line], EMPTY, rest);
    assert Feed(Scan([], line, true), rest[0]) == Feed(Before([line], EMPTY), rest[0]);
  }

  /** With no complete break, the whole buffer is tail. */
  lemma NoBreakIsTail(buf: seq<Byte>)
    requires FindLineBreak(buf).None?
    ensures OnePass(buf).lines == [] && OnePass(buf).tail == buf
  {
    var pos := FirstTerminator(buf);
    FeedPlain(EMPTY, buf[..pos]);
    assert [] + buf[..pos] == buf[..pos];
    if pos == |buf| {
      assert buf[..pos] == buf;
    } else {
      assert buf == buf[..pos] + [buf[pos]];
      FeedLast(EMPTY, buf[..pos], buf[pos]);
    }
  }

  /** Neither a line feed nor a carriage return among the first `n` bytes. */
  predicate NoTerminator(buf: seq<Byte>, n: nat)
    requires n <= |buf|
  {
    forall i :: 0 <= i < n ==> buf[i] != 10 && buf[i] != 13
  }

  lemma PlainIs(s: seq<Byte>, n: nat)
    requires n <= |s|
    ensures Plain(s[..n]) <==> NoTerminator(s, n)
  {
    if Plain(s[..n]) {
      forall i | 0 <= i < n ensures s[i] != 10 && s[i] != 13 {
        assert s[..n][i] in s[..n];
      }
    }
  }

  /** The break found is the first complete one: nothing before it ends a line, a CR with an LF after it is one
      break, and without one there is no terminator but a CR at the very end. */
  lemma FindsTheFirst(buf: seq<Byte>)
    ensures match FindLineBreak(buf)
            case Some((pos, len)) =>
              && pos + len <= |buf| && NoTerminator(buf, pos)
              && (if buf[pos] == 10 then len == 1
                  else buf[pos] == 13 && pos + 1 < |buf| && len == if buf[pos + 1] == 10 then 2 else 1)
            case None => NoTerminator(buf, |buf|) || (buf[|buf| - 1] == 13 && NoTerminator(buf, |buf| - 1))
  {
    assert buf[..|buf|] == buf;
    var pos := FirstTerminator(buf);
    PlainIs(buf, pos);
    PlainIs(buf, |buf|);
  }

  lemma FirstTerminatorAt(buf: seq<Byte>, k: nat)
    requires k < |buf| && Plain(buf[..k]) && (buf[k] == LF || buf[k] == CR)
    ensures FirstTerminator(buf) == k
  {
    var pos := FirstTerminator(buf);
    assert forall i :: 0 <= i < k ==> buf[..k][i] == buf[i];
    assert forall i :: 0 <= i < pos ==> buf[..pos][i] == buf[i];
  }

  lemma OpenTailHasNoBreak(m: Scan)
    requires TailIsOpen(m)
    ensures FindLineBreak(m.tail).None?
  {
    if m.held {
      FirstTerminatorAt(m.tail, |m.tail| - 1);
    }
    assert forall i :: 0 <= i < |m.tail| ==> m.tail[i] in m.tail;
  }

  /** Any split of `s` starts where the first break says. */
  lemma SplitStartsAtBreak(s: seq<Byte>, m: Scan)
    requires Splits(s, m) && m.lines != []
    ensures FindLineBreak(s).Some? && FindLineBreak(s).value.0 + FindLineBreak(s).value.1 == |m.lines[0]|
  {
    var line, rest := m.lines[0], Concat(m.lines[1..]) + m.tail;
    assert s == line + rest;
    var n := |line|;
    if n >= 2 && line[n - 2] == CR && line[n - 1] == LF && Plain(line[..n - 2]) {
      assert s[..n - 2] == line[..n - 2];
      FirstTerminatorAt(s, n - 2);
    } else {
      assert s[..n - 1] == line[..n - 1];
      FirstTerminatorAt(s, n - 1);
      if line[n - 1] == CR {
        assert rest[0] == Following(m, 0)[0];
      }
    }
  }

  /** What is left of a split after its first line is a split of what is left. */
  lemma SplitGoesOn(s: seq<Byte>, m: Scan)
    requires Splits(s, m) && m.lines != []
    ensures var n := |m.lines[0]|;
            n <= |s| && s[..n] == m.lines[0] && Splits(s[n..], m.(lines := m.lines[1..]))
  {
    var n, rest := |m.lines[0]|, m.(lines := m.lines[1..]);
    assert s == m.lines[0] + (Concat(rest.lines) + rest.tail);
    assert s[..n] == m.lines[0] && s[n..] == Concat(rest.lines) + rest.tail;
    forall i | 0 <= i < |rest.lines| ensures Following(rest, i) == Following(m, i + 1) {
    }
  }

  /** The one-pass scan is the only split a stream has. */
  lemma {:induction false} SplitIsUnique(s: seq<Byte>, m: Scan)
    requires Splits(s, m)
    ensures m.lines == OnePass(s).lines && m.tail == OnePass(s).tail
    decreases |m.lines|
  {
    if m.lines == [] {
      assert s == m.tail;
      OpenTailHasNoBreak(m);
      NoBreakIsTail(s);
    } else {
      var n := |m.lines[0]|;
      SplitStartsAtBreak(s, m);
      BreakIsLine(s);
      SplitGoesOn(s, m);
      SplitIsUnique(s[n..], m.(lines := m.lines[1..]));
      assert m.lines == [m.lines[0]] + m.lines[1..];
    }
  }

  class LineFramer {
    var buf: seq<Byte>
    /** Every byte received and every line handed out, since the start. */
    ghost var received: seq<Byte>
    ghost var taken: seq<seq<Byte>>

    /** The lines handed out, then the scan of what is buffered, make up the scan of all that came in: this
        holds between any two calls, in whatever order they are made. */
    ghost predicate Valid()
      reads this
    {
      && Concat(taken) + buf == received
      && OnePass(received) == Before(taken, OnePass(buf))
    }

    constructor ()
      ensures Valid() && buf == [] && received == [] && taken == []
    {
      buf := [];
      received := [];
      taken := [];
    }

    /** Append a chunk. The error is raised on the whole buffer's size, after appending. */
    method Extend(chunk: seq<Byte>) returns (ok: bool)
      requires Valid()
      modifies this
      ensures Valid() && taken == old(taken) && received == old(received) + chunk && buf == old(buf) + chunk
      ensures ok <==> |old(buf)| + |chunk| <= 33_554_432
    {
      FeedAppend(EMPTY, received, chunk);
      FeedAppend(EMPTY, buf, chunk);
      FeedBefore(taken, OnePass(buf), chunk);
      assert Concat(taken) + (buf + chunk) == received + chunk;
      buf := buf + chunk;
      received := received + chunk;
      ok := |buf| <= MAX_BUFFERED_LINE_BYTES;
    }

    /** The next line of the stream, or none once every complete line so far has been handed out. */
    method NextLine() returns (line: Option<seq<Byte>>)
      requires Valid()
      modifies this
      ensures Valid() && received == old(received)
      ensures line.Some? ==>
                && taken == old(taken) + [line.value] && taken <= OnePass(received).lines
                && |buf| < |old(buf)|
      ensures line.None? ==>
                && taken == old(taken) == OnePass(received).lines
                && buf == old(buf) == OnePass(received).tail
    {
      match FindLineBreak(buf) {
        case None =>
          NoBreakIsTail(buf);
          return None;
        case Some((pos, len)) =>
          BreakIsLine(buf);
          line := Some(buf[..pos + len]);
          ConcatSnoc(taken, buf[..pos + len]);
          assert Concat(taken) + buf == Concat(taken) + buf[..pos + len] + buf[pos + len..];
          ghost var rest := OnePass(buf[pos + len..]);
          assert taken + ([buf[..pos + len]] + rest.lines) == taken + [buf[..pos + len]] + rest.lines;
          taken := taken + [buf[..pos + len]];
          buf := buf[pos + len..];
      }
    }

    /** What is left at the end of the stream. */
    method TakeTail() returns (tail: Option<seq<Byte>>)
      requires Valid()
      modifies this
      ensures tail == if old(buf) == [] then None else Some(old(buf))
      ensures buf == []
    {
      if buf == [] {
        tail := None;
      } else {
        tail := Some(buf);
        buf := [];
      }
    }
  }

  /** Chunk `i`, on top of the tail of all before it, is more than the buffer may hold: 32 MiB. */
  predicate Overfills(chunks: seq<seq<Byte>>, i: nat)
    requires i < |chunks|
  {
    |OnePass(Concat(chunks[..i])).tail| + |chunks[i]| > 33_554_432
  }

  /** The loop stops at chunk `i` with the lines that were complete before it. */
  predicate StopsAt(chunks: seq<seq<Byte>>, i: nat, lines: seq<seq<Byte>>)
    requires i < |chunks|
  {
    && Overfills(chunks, i) && (forall j :: 0 <= j < i ==> !Overfills(chunks, j))
    && lines == OnePass(Concat(chunks[..i])).lines
  }

  /** The framing loop: every chunking of a stream gives the lines and tail of one pass over it; or the loop
      stops, exactly if some chunk overfills the buffer, at the first that does, with the lines before it. */
  method FrameStream(chunks: seq<seq<Byte>>) returns (lines: seq<seq<Byte>>, tail: Option<seq<Byte>>, ok: bool)
    ensures ok <==> forall i :: 0 <= i < |chunks| ==> !Overfills(chunks, i)
    ensures ok ==> lines == OnePass(Concat(chunks)).lines
    ensures ok ==> tail == if OnePass(Concat(chunks)).tail == [] then None else Some(OnePass(Concat(chunks)).tail)
    ensures !ok ==> tail == None && exists i :: 0 <= i < |chunks| && StopsAt(chunks, i, lines)
  {
    var framer := new LineFramer();
    lines := [];
    for i := 0 to |chunks|
      invariant framer.Valid() && framer.received == Concat(chunks[..i])
      invariant lines == framer.taken == OnePass(framer.received).lines
      invariant framer.buf == OnePass(framer.received).tail
      invariant forall j :: 0 <= j < i ==> !Overfills(chunks, j)
    {
      var accepted := framer.Extend(chunks[i]);
      assert chunks[..i + 1] == chunks[..i] + [chunks[i]];
      ConcatSnoc(chunks[..i], chunks[i]);
      if !accepted {
        assert StopsAt(chunks, i, lines);
        return lines, None, false;
      }
      var line := framer.NextLine();
      while line.Some?
        invariant framer.Valid() && framer.received == Concat(chunks[..i + 1])
        invariant line.Some? ==> framer.taken == lines + [line.value]
        invariant line.None? ==> lines == framer.taken == OnePass(framer.received).lines
        invariant line.None? ==> framer.buf == OnePass(framer.received).tail
        decreases |framer.buf|, line.Some?
      {
        lines := lines + [line.value];
        line := framer.NextLine();
      }
    }
    assert chunks[..|chunks|] == chunks;
    tail := framer.TakeTail();
    ok := true;
  }

  // ---- The limit, as it is said and as it is checked ----

  /** The check: the whole buffer, after the chunk is appended. */
  predicate Refused(buf: seq<Byte>, chunk: seq<Byte>)
  {
    |buf + chunk| > MAX_BUFFERED_LINE_BYTES
  }

  /** What is said: the unterminated line being assembled. */
  predicate TooLong(buf: seq<Byte>, chunk: seq<Byte>)
  {
    |OnePass(buf + chunk).tail| > MAX_BUFFERED_LINE_BYTES
  }

  lemma TailIsPart(s: seq<Byte>)
    ensures |OnePass(s).tail| <= |s|
  {
    OnePassSplits(s);
  }

  /** A line over the limit is always refused, and a chunk that completes no line is refused only for one. */
  lemma LimitOnOneLine(buf: seq<Byte>, chunk: seq<Byte>)
    ensures TooLong(buf, chunk) ==> Refused(buf, chunk)
    ensures FindLineBreak(buf + chunk).None? ==> (Refused(buf, chunk) <==> TooLong(buf, chunk))
  {
    TailIsPart(buf + chunk);
    if FindLineBreak(buf + chunk).None? {
      NoBreakIsTail(buf + chunk);
    }
  }

  function LineFeeds(n: nat): seq<Byte>
  {
    seq(n, _ => LF)
  }

  lemma {:induction false} LineFeedsAreLines(n: nat)
    ensures OnePass(LineFeeds(n)) == Scan(seq(n, _ => [LF]), [], false)
  {
    if n > 0 {
      LineFeedsAreLines(n - 1);
      assert LineFeeds(n) == LineFeeds(n - 1) + [LF];
      FeedLast(EMPTY, LineFeeds(n - 1), LF);
      assert [] + [LF] == [LF];
      assert seq(n, _ => [LF]) == seq(n - 1, _ => [LF]) + [[LF]];
    }
  }

  /** It does not always: a chunk of more line feeds than the limit is refused, though each of its lines is one
      byte long and none is left unterminated. */
  lemma ShortLinesAreRefused(n: nat)
    requires n > MAX_BUFFERED_LINE_BYTES
    ensures Overfills([LineFeeds(n)], 0) && Refused([], LineFeeds(n)) && !TooLong([], LineFeeds(n))
    ensures forall i :: 0 <= i < |OnePass(LineFeeds(n)).lines| ==> |OnePass(LineFeeds(n)).lines[i]| == 1
  {
    LineFeedsAreLines(n);
    assert [] + LineFeeds(n) == LineFeeds(n);
  }

  lemma LineFeedsLeaveNothing(buf: seq<Byte>, n: nat)
    requires n > 0
    ensures OnePass(buf + LineFeeds(n)).tail == []
  {
    var front := buf + LineFeeds(n - 1);
    assert buf + LineFeeds(n) == front + [LF];
    FeedLast(EMPTY, front, LF);
  }

  /** Whatever is buffered and however long the chunks may be: the check means what is said of every next chunk
      if and only if no chunk can fill the buffer. */
  lemma LimitMeansWhatIsSaidExactlyWhen(buf: seq<Byte>, n: nat)
    requires n > 0
    ensures (forall chunk | |chunk| <= n :: Refused(buf, chunk) <==> TooLong(buf, chunk))
            <==> |buf| + n <= 33_554_432
  {
    if |buf| + n <= MAX_BUFFERED_LINE_BYTES {
      forall chunk | |chunk| <= n ensures Refused(buf, chunk) <==> TooLong(buf, chunk) {
        LimitOnOneLine(buf, chunk);
      }
    } else {
      LineFeedsLeaveNothing(buf, n);
      assert Refused(buf, LineFeeds(n)) && !TooLong(buf, LineFeeds(n));
    }
  }
}
