/** UTF-8 well-formedness (section 4 of RFC 3629) of the lines cut from a stream. */
module Utf8 {
  import opened Prelude
  import opened LineFraming

  predicate Tail(b: Byte)
  {
    0x80 <= b <= 0xBF
  }

  /** The length of the character `s` starts with, or 0 if it starts with none. */
  function FirstChar(s: seq<Byte>): (n: nat)
    ensures n <= 4 && n <= |s|
  {
    if |s| >= 1 && s[0] <= 0x7F then 1
    else if |s| >= 2 && 0xC2 <= s[0] <= 0xDF && Tail(s[1]) then 2
    else if |s| >= 3 && Second3(s[0], s[1]) && Tail(s[2]) then 3
    else if |s| >= 4 && Second4(s[0], s[1]) && Tail(s[2]) && Tail(s[3]) then 4
    else 0
  }

  predicate Second3(a: Byte, b: Byte)
  {
    || (a == 0xE0 && 0xA0 <= b <= 0xBF)
    || (0xE1 <= a <= 0xEC && Tail(b))
    || (a == 0xED && 0x80 <= b <= 0x9F)
    || (0xEE <= a <= 0xEF && Tail(b))
  }

  predicate Second4(a: Byte, b: Byte)
  {
    || (a == 0xF0 && 0x90 <= b <= 0xBF)
    || (0xF1 <= a <= 0xF3 && Tail(b))
    || (a == 0xF4 && 0x80 <= b <= 0x8F)
  }

  predicate WellFormed(s: seq<Byte>)
  {
    s == [] || (FirstChar(s) > 0 && WellFormed(s[FirstChar(s)..]))
  }

  /** An ASCII byte ends a character, so a cut after one splits the question in two. */
  lemma {:induction false} CutAfterAscii(a: seq<Byte>, b: seq<Byte>)
    requires a != [] && a[|a| - 1] < 0x80
    ensures WellFormed(a + b) <==> WellFormed(a) && WellFormed(b)
    decreases |a|
  {
    var n := FirstChar(a);
    assert FirstChar(a + b) == n;
    if 0 < n < |a| {
      assert (a + b)[n..] == a[n..] + b;
      CutAfterAscii(a[n..], b);
    } else if n == |a| {
      assert (a + b)[n..] == b;
    }
  }

  /** A stream is well-formed exactly when each of its lines and its tail are, so however the chunks fall,
      decoding line by line fails only on a stream that is itself malformed. */
  lemma {:induction false} LinesAreWellFormed(s: seq<Byte>, m: Scan)
    requires Splits(s, m)
    ensures WellFormed(s) <==> (forall i :: 0 <= i < |m.lines| ==> WellFormed(m.lines[i])) && WellFormed(m.tail)
    decreases |m.lines|
  {
    if m.lines == [] {
      assert s == m.tail;
    } else {
      var rest := m.(lines := m.lines[1..]);
      var after := Concat(rest.lines) + rest.tail;
      assert s == m.lines[0] + after;
      CutAfterAscii(m.lines[0], after);
      assert Splits(after, rest) by {
        forall i | 0 <= i < |rest.lines| ensures Following(rest, i) == Following(m, i + 1) {
        }
      }
      LinesAreWellFormed(after, rest);
    }
  }

  /** For every chunking: the lines and tail of the framing loop all decode if and only if the stream does. */
  lemma EveryChunkingDecodes(chunks: seq<seq<Byte>>)
    ensures var m := OnePass(Concat(chunks));
            WellFormed(Concat(chunks))
            <==> (forall i :: 0 <= i < |m.lines| ==> WellFormed(m.lines[i])) && WellFormed(m.tail)
  {
    OnePassSplits(Concat(chunks));
    LinesAreWellFormed(Concat(chunks), OnePass(Concat(chunks)));
  }
}
