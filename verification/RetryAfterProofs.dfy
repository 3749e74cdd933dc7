/** What the search over the `retry-after`s of an error message comes to. */
module RetryAfterProofs {
  import opened Prelude
  import opened Search
  import opened RateHint

  /** A number follows the occurrence, and no dash: it is not the start of a longer name. */
  predicate Readable(rest: string)
  {
    (rest == "" || rest[0] != '-') && ParseNumber(SkipSeparators(rest)).Some?
  }

  predicate NoneReadable(m: string, key: string, n: nat)
    requires key != "" && n <= |Visited(m, key, 0)|
  {
    forall k :: 0 <= k < n ==> !Readable(After(m, key, k))
  }

  lemma ReadIs(rest: string)
    ensures ReadRetryAfter(rest) ==
            if Readable(rest) then Some(Clamped(ParseNumber(SkipSeparators(rest)).value)) else None
  {
  }

  lemma NoneIs(m: string, key: string, n: nat)
    requires key != "" && n <= |Visited(m, key, 0)|
    ensures NoneReadable(m, key, n) <==> NoneBefore(ReadRetryAfter, m, key, n)
  {
    forall k | 0 <= k < n ensures Readable(After(m, key, k)) <==> ReadRetryAfter(After(m, key, k)).Some? {
      ReadIs(After(m, key, k));
    }
  }

  /** There is a wait if and only if some occurrence visited is readable. */
  lemma SomeExactlyWhenReadable(m: string)
    ensures RetryAfter(m).None? <==> NoneReadable(m, KEY, |Visited(m, KEY, 0)|)
  {
    FoundExactlyWhenReadable(ReadRetryAfter, m, KEY);
    NoneIs(m, KEY, |Visited(m, KEY, 0)|);
  }

  /** And it is the number after the first such occurrence, clamped to a day. */
  lemma ValueOfTheFirst(m: string, k: nat)
    requires k < |Visited(m, KEY, 0)| && Readable(After(m, KEY, k)) && NoneReadable(m, KEY, k)
    ensures RetryAfter(m) == Some(var seconds := ParseNumber(SkipSeparators(After(m, KEY, k))).value;
                                  if seconds < 0.0 then 0.0 else if seconds <= 86400.0 then seconds else 86400.0)
  {
    NoneIs(m, KEY, k);
    ReadIs(After(m, KEY, k));
    FoundIsTheFirst(ReadRetryAfter, m, KEY, k);
  }
}
