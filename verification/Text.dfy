/** Searching and trimming text. */
module Text {
  import opened Prelude

  /** The Unicode White_Space property. */
  predicate Whitespace(c: char)
  {
    var n := c as int;
    || 9 <= n <= 13 || n == 0x20 || n == 0x85 || n == 0xA0 || n == 0x1680
    || 0x2000 <= n <= 0x200A || n == 0x2028 || n == 0x2029 || n == 0x202F || n == 0x205F || n == 0x3000
  }

  /** The twenty-five of them. */
  lemma WhitespaceIs(c: char)
    ensures Whitespace(c) <==>
            c as int in {9, 10, 11, 12, 13, 32, 133, 160, 5760, 8192, 8193, 8194, 8195, 8196, 8197, 8198, 8199, 8200,
                         8201, 8202, 8232, 8233, 8239, 8287, 12288}
  {
  }

  predicate Quote(c: char)
  {
    c == '\'' || c == '"'
  }

  predicate OccursAt(s: string, key: string, i: int)
  {
    0 <= i && i + |key| <= |s| && s[i..i + |key|] == key
  }

  ghost predicate Contains(s: string, key: string)
  {
    exists i :: OccursAt(s, key, i)
  }

  /** The first occurrence of `key` in `s` at or after `from`. */
  function Find(s: string, key: string, from: nat): (r: Option<nat>)
    requires from <= |s|
    ensures r.Some? ==> from <= r.value <= r.value + |key| <= |s|
    decreases |s| - from
  {
    if OccursAt(s, key, from) then Some(from)
    else if from == |s| then None
    else Find(s, key, from + 1)
  }

  lemma {:induction false} FindIs(s: string, key: string, from: nat, at: nat)
    requires from <= at && OccursAt(s, key, at) && forall i :: from <= i < at ==> !OccursAt(s, key, i)
    ensures Find(s, key, from) == Some(at)
    decreases at - from
  {
    if from < at {
      FindIs(s, key, from + 1, at);
    }
  }

  /** How many leading characters satisfy `p`. */
  function Run(p: char -> bool, s: string): (n: nat)
    ensures n <= |s| && (forall i :: 0 <= i < n ==> p(s[i])) && (n < |s| ==> !p(s[n]))
  {
    if s == [] || !p(s[0]) then 0 else 1 + Run(p, s[1..])
  }

  lemma RunIs(p: char -> bool, s: string, n: nat)
    requires n <= |s| && (forall i :: 0 <= i < n ==> p(s[i])) && (n < |s| ==> !p(s[n]))
    ensures Run(p, s) == n
  {
  }

  predicate All(p: char -> bool, s: string)
  {
    forall i :: 0 <= i < |s| ==> p(s[i])
  }

  /** A run ends where text of another kind begins. */
  lemma RunOf(p: char -> bool, front: string, rest: string)
    requires All(p, front) && (rest != "" ==> !p(rest[0]))
    ensures Run(p, front + rest) == |front|
    ensures (front + rest)[..|front|] == front && (front + rest)[|front|..] == rest
  {
    RunIs(p, front + rest, |front|);
  }

  function TrimStart(s: string): string
  {
    s[Run(Whitespace, s)..]
  }

  function TrimEnd(s: string): string
  {
    if s == "" || !Whitespace(s[|s| - 1]) then s else TrimEnd(s[..|s| - 1])
  }

  function Trim(s: string): string
  {
    TrimEnd(TrimStart(s))
  }

  /** Text with nothing blank at either end. */
  predicate Tight(s: string)
  {
    s != "" ==> !Whitespace(s[0]) && !Whitespace(s[|s| - 1])
  }

  lemma {:induction false} TrimEndOf(core: string, blanks: string)
    requires All(Whitespace, blanks) && (core != "" ==> !Whitespace(core[|core| - 1]))
    ensures TrimEnd(core + blanks) == core
    decreases |blanks|
  {
    if blanks == "" {
      assert core + blanks == core;
    } else {
      var s := core + blanks;
      assert s[|s| - 1] == blanks[|blanks| - 1] && s[..|s| - 1] == core + blanks[..|blanks| - 1];
      TrimEndOf(core, blanks[..|blanks| - 1]);
    }
  }

  /** Trimming takes the blanks off both ends, and nothing else. */
  lemma TrimOf(before: string, core: string, after: string)
    requires All(Whitespace, before) && Tight(core) && All(Whitespace, after) && (core == "" ==> after == "")
    ensures Trim(before + core + after) == core
  {
    assert before + core + after == before + (core + after);
    assert core != "" ==> (core + after)[0] == core[0];
    RunOf(Whitespace, before, core + after);
    TrimEndOf(core, after);
  }

  lemma {:induction false} TrimEndLeaves(s: string)
    ensures TrimEnd(s) <= s && All(Whitespace, s[|TrimEnd(s)|..])
    ensures TrimEnd(s) != "" ==> !Whitespace(TrimEnd(s)[|TrimEnd(s)| - 1])
  {
    if s != "" && Whitespace(s[|s| - 1]) {
      var front := s[..|s| - 1];
      TrimEndLeaves(front);
      assert s[|TrimEnd(front)|..] == front[|TrimEnd(front)|..] + [s[|s| - 1]];
    }
  }

  lemma TrimLeaves(s: string) returns (before: string, after: string)
    ensures All(Whitespace, before) && All(Whitespace, after) && Tight(Trim(s)) && s == before + Trim(s) + after
  {
    var n := Run(Whitespace, s);
    before := s[..n];
    TrimEndLeaves(s[n..]);
    after := s[n..][|Trim(s)|..];
    assert Trim(s) != "" ==> Trim(s)[0] == s[n];
  }

  predicate StartsWith(s: string, prefix: string)
  {
    prefix <= s
  }
}
