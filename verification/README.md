# Verified models of the agent core

Dafny 4.11 models of the parts of the agent core with the most state, branching and arithmetic, with proofs that hold
for every input, every run or every reachable state. `dafny verify dfyconfig.toml` checks the whole project.

**WebSocket delta transport.** `Transport` is a system of steps over any number of turns, one connection cache and a
server on the far end of each socket; a run is any sequence of enabled steps, so every interleaving of turns, failures,
retries, cancellations, evictions and clock ticks is covered. `TransportProofs` proves an invariant of all runs and
draws from it that the request the server resolves for any turn, whether sent whole or as a delta, is that turn's full
body; `Replay` says so in the protocol's own words, item by item. `TransportRuns` says what becomes of sockets over a run: let go for good, reused, and how old they get, and
`TransportAge` builds runs that reuse a socket of any age. `DeltaBody`, `Receiving`, `SocketCache` and `TryStream` model
the functions, the receive loop, the cache and the retry loop those steps are made of; `FrameShapes` and
`ReceivingProofs` say of the receive loop which arrival decides and what is kept; and `Driving` proves that whatever
happens to a call of the retry loop is a run of its turn's own steps.

**Stream framing.** `LineFraming` and `Utf8`: how a chunked byte stream becomes lines, against a one-pass splitter;
`Utf8Encoding` ties well-formedness to what encodes characters.

**Retries and hints.** `SendRetry` bounds the request loop and its waits. `RateHint` and `RateHintProofs` follow a wait
hint into an error message and out of it again; `Search` and `RetryAfterProofs` say what the search over a message's
`retry-after`s finds; `HintTexts` says what a message with its numbers, units and headers typed in it is read as.

**Shell writes.** `ShellWords`, `ShellSegments`, `Heredocs`, `Paths` and `WrittenPaths`: the files a shell command
writes, from heredoc splitting down to quoting. `TypedWrites` and `TypedLines`: the same said of a command as it is
typed. `Places`, `Tracking` and `Moves`: what the recorded paths denote, in
every world, a world being a starting directory and a home behind each `~` name.

**Pricing.** `Pricing` and `PricingProofs`: the reference pricer in exact arithmetic. `PriceFormula` and `PriceRows`:
what it charges as one formula over a row's counts, and the row's checks in order. `Reconciliation`: pricing the
totals of many rows against the sum of the rows.

**Deferred tools and branch windows.** `Deferred`, `LoadOrder` and `BranchWindow`: which tools a transcript has loaded,
in which order and by which call, and which tail of an abandoned branch is summarized.

`Prelude`, `Text` and `Json` hold what these share.

## Where the code parts from what is said of it

In each case the model does what the code does, one lemma gives an input on which the two part, and another says exactly
when they agree.

- A path joined onto a tracked directory that has become empty (`cd .`, `cd a/..`) is recorded as absolute; a `cd` to a
  home directory is joined like a plain name; a `cd` without an operand is not seen; and `~/..` is normalized as if `~`
  were a plain name. Inputs: `Tracking.EmptiedDirectoryGoesWrong`, `Tracking.HomeAfterDirectoryGoesWrong`,
  `WrittenPaths.BareCdGoesWrong`, `Tracking.ClimbingOverHomeGoesWrong`. Exactly when the right file is recorded:
  `Tracking.TrackingIsRightExactlyWhenSafe`, `Tracking.TargetIsRightExactlyWhenSafe`,
  `Tracking.NormalizeKeepsMeaningExactlyWhenStable` and, with `cd`s of every kind, `WrittenPaths.RecordedIsMeant`.
- The ceiling on a cached connection is said to be independent of activity, for backends that cap a connection's total
  lifetime; it is measured from the last check-in. Runs that reuse a socket of any age: `TransportAge.AnyAgeIsReused`.
  Exactly when the two are the same: `TransportRuns.CeilingIsOnAgeExactlyWhen`. What does hold of every reuse:
  `TransportRuns.EveryReuseWasIdleUnderTheCeiling`.
- The line limit is documented for one unterminated line; the buffer is checked whole, right after a chunk is appended
  and before its lines are taken. Input: `LineFraming.ShortLinesAreRefused`. Exactly when they agree on every next chunk
  up to a length: `LineFraming.LimitMeansWhatIsSaidExactlyWhen`.
- Doubling the backoff saturates, but the jitter after it can still be too long for a duration, where the source
  panics. Input: `SendRetry.LongestBaseOverflows`. Exactly when it never does: `SendRetry.NoOverflowExactlyWhen`.
- The provider's totals are to cost what the rows cost, within a micro-dollar a row. Rows that are each below the
  long-context threshold can add up past it. Input: `Reconciliation.TotalsCanCrossTheThreshold`. Exactly when the totals
  cost the sum: `Reconciliation.SumLawExactly`; when they cost more: `Reconciliation.CrossingCostsMore`; with the bound:
  `Reconciliation.ReconciledWithinOnePerRow`.
- "Under 90% of budget" is read as a rounded and saturated threshold. Input: `BranchWindow.UnderNinetyYetDropped`.
  Exactly when it is ninety percent: `BranchWindow.NinetyIsExactWhen`.
- The dearest endpoint's cost does not depend on the order of the endpoints, but the long-context tier reported with
  it can when two endpoints tie. Input: `PricingProofs.TierCanDependOnOrder`. Exactly when it does not:
  `PricingProofs.TierDependsOnTies`.
- `cp` and `mv` are to write their last operand; what is recorded is the second word that is neither a flag nor a
  redirect, and the file of a `> file` before the destination is such a word. Input:
  `TypedWrites.RedirectTakenForDestination`. Exactly when the destination is recorded:
  `TypedWrites.CopyWritesItsDestinationExactlyWhen`.
- The earlier builder of delta bodies and the one that replaced it can differ. Input: `DeltaBody.FormsPartOnNull`.
  Exactly when they agree: `DeltaBody.CloneThenTrim`.

## Model

| member | source | states |
|---|---|---|
| DeltaBody.DeltaExactlyWhenChaining | crates/agent-core/src/codex_websocket.rs:264-305 | For every JSON body and continuation: if the id, the fingerprint and the baseline all match, the wire body is an object that names the earlier response, carries exactly the input after the baseline and keeps every other field; otherwise it is the body unchanged. |
| DeltaBody.RequestNamesOnlyWhenChaining | crates/agent-core/src/codex_websocket.rs:264-305 | So a request that named no response of its own names one on the wire if and only if all three guards hold. |
| DeltaBody.SameFingerprintExactlyWhen | crates/agent-core/src/codex_websocket.rs:192-210 | Two objects have the same fingerprint if and only if they agree on every field other than `input`, `previous_response_id` and `max_output_tokens`. |
| DeltaBody.CloneThenRemove | crates/agent-core/benches/codex_ws.rs:93-114 | Copying the whole body and removing the excluded fields one by one gives the same fingerprint as filtering them into a new map, for every JSON value. |
| DeltaBody.CloneThenTrim | crates/agent-core/benches/codex_ws.rs:148-224 | Cloning the body and overwriting two fields gives the shipped wire body if and only if the body is an object or some guard fails; on the rest it returns the body unchanged. |
| DeltaBody.FormsPartOnNull | crates/agent-core/benches/codex_ws.rs:148-224 | A concrete body on which the two builders differ. |
| Receiving.ProgressIsHarvest | crates/agent-core/src/codex_websocket.rs:698-714 | Frame by frame, the receiver keeps what harvesting all outputs at once keeps, and the last response id named; `ReceivingProofs.KeptAre` says which those are. |
| ReceivingProofs.KeptAre | crates/agent-core/src/codex_websocket.rs:229-245 | After any frames, the id kept is the last `response.id` any of them names, and the items kept are exactly those of `response.output_item.done` frames whose type is `message`, `reasoning` or `function_call`, in order. |
| ReceivingProofs.FirstToSayDecides | crates/agent-core/src/codex_websocket.rs:642-747 | Whatever arrives, the first arrival that is neither a control message nor, after a first frame, one that decodes to nothing decides: a closed or broken socket, or none left, is a lost connection; an undecodable text, an error frame or a failed end is a protocol failure; anything else is events, finished exactly if it is the end. |
| Receiving.ReadingKeepsHarvest | crates/agent-core/src/codex_websocket.rs:642-734 | Whatever arrives, when a read reports events the receiver's progress is that of all frames consumed so far, and it is finished exactly when the last one ended the turn cleanly. |
| Receiving.Receiver.constructor | crates/agent-core/src/codex_websocket.rs:622-637 | A new receiver has read nothing and is not finished. |
| Receiving.Receiver.NextEvents | crates/agent-core/src/codex_websocket.rs:642-734 | The receive loop reports and leaves behind what the recursive reader does, of which `ReceivingProofs.FirstToSayDecides` says which outcome; once finished it reports done and changes nothing. |
| SocketCache.CodexWebSocketCache.constructor | crates/agent-core/src/codex_websocket.rs:353-359 | A new cache holds no connection and no marker. |
| SocketCache.CodexWebSocketCache.Checkout | crates/agent-core/src/codex_websocket.rs:364-371 | A connection is handed out if and only if its key is idle and younger than the ceiling; it leaves the pool, and so does every expired entry and nothing else. |
| SocketCache.CodexWebSocketCache.Checkin | crates/agent-core/src/codex_websocket.rs:381-388 | The connection replaces whatever its key held, expired entries are gone, all others stay. |
| SocketCache.CodexWebSocketCache.MarkFallback | crates/agent-core/src/codex_websocket.rs:399-414 | The key is marked now; only when the map is full and the key new does one longest-marked key go. |
| SocketCache.FindOldest | crates/agent-core/src/codex_websocket.rs:402-411 | The key found has the least mark time of all. |
| FallbackMarkers.MarkersAreLeastRecentlyMarked | crates/agent-core/src/codex_websocket.rs:399-421 | Over every sequence of marks at increasing times: at most 256 keys, the key just marked among them, and any key is remembered if and only if fewer than 256 distinct keys were marked since its own last mark. |
| TryStream.AttemptOnce | crates/agent-core/src/codex_websocket.rs:786-868 | One pass: what it leaves of the pool, when it reuses a socket, what it hands to it, and each outcome if and only if its cause. |
| TryStream.TryStream | crates/agent-core/src/codex_websocket.rs:873-951 | Whatever the sockets do: at most three passes and two frames, each retry at most once, each pass going as the sockets make it, the pool looked in once, the full body on every fresh socket, the four-pass cap never reached, the marker set exactly when the call gives up on the WebSocket after trying it. |
| Driving.TryStreamIsARun | crates/agent-core/src/codex_websocket.rs:786-951 | However such a call goes, beginning a turn in a state with the same pool and markers and taking only that turn's own steps can lead to the pool and markers the call leaves, with as many attempts and the same frames in order, and with the turn still there exactly if its answer has begun. |
| Driving.TryOnCache | crates/agent-core/src/codex_websocket.rs:873-951 | So every call of the retry loop on a cache is such a run. |
| Driving.DrivesLeads | crates/agent-core/src/codex_websocket.rs:786-951 | The turn's own steps are a run of the step system, so all that is proved of runs holds of calls. |
| Driving.FirstAnswerDecides | crates/agent-core/src/codex_websocket.rs:842-866 | Once a frame is out, if the first arrival with something to say is a lost connection the pass retries on a fresh socket when it had reused one and falls back otherwise; if a protocol failure it fails the turn; anything else starts it. |
| Driving.ReadIsOneFrame | crates/agent-core/src/codex_websocket.rs:642-734 | Reading a frame ends the turn, completes it with the progress so far, or goes on, as the receiver does on that frame. |
| Driving.FinishTurn | crates/agent-core/src/codex_websocket.rs:974-996 | When the receiver is done the cache is left as the step that checks the turn in leaves it. |
| TransportProofs.BaselineIsContext | crates/agent-core/src/codex_websocket.rs:976-995 | The baseline a clean turn stores is the server's context of its last response without the outputs that are not harvested; `Replay.StoredBaselineIs` says which those are. |
| TransportProofs.FrameIsSound | crates/agent-core/src/codex_websocket.rs:264-320 | Any frame a ready turn sends, full or delta, is one the server can resolve to the turn's body on that socket. |
| TransportProofs.SoundResolves | crates/agent-core/src/codex_websocket.rs:264-320 | Such a frame is never refused, and resolves to the turn's whole input. |
| TransportProofs.StepKeeps | crates/agent-core/src/codex_websocket.rs:786-1006 | Every enabled step of any turn, the clock or the server keeps the invariant. |
| TransportProofs.RunKeeps | crates/agent-core/src/codex_websocket.rs:786-1006 | So does every run. |
| TransportProofs.EveryRequestIsFaithful | crates/agent-core/src/codex_websocket.rs:264-305 | In every run, each request the server met resolved to its turn's full input, unharvested outputs apart, carried all its other fields, and chained, if at all, off the last response that same socket ended cleanly; `Replay.EveryRequestIsTheTranscript` says it item for item. |
| Replay.EveryRequestIsTheTranscript | crates/agent-core/src/codex_websocket.rs:229-305 | In every run, each request the server met is a `response.create` with every field of its turn's body, and the body's `input` is what the server resolved less exactly its own outputs that are no `message`, `reasoning` or `function_call`; when it put in none of those, the two are equal item for item. |
| Replay.StoredBaselineIs | crates/agent-core/src/codex_websocket.rs:976-995 | In every reachable state a pooled socket's baseline is the server's context of the response it names, less exactly the server's outputs of none of the three types. |
| TransportProofs.EveryStateIsOrderly | crates/agent-core/src/codex_websocket.rs:364-388 | In every reachable state each live socket has exactly one holder, an idle key or a turn; every pooled socket's last response ended cleanly and its stored baseline is what the server holds; no turn exceeds three passes or two sends. |
| TransportRuns.TurnLetsGo | crates/agent-core/src/codex_websocket.rs:786-868 | A turn whose send or read fails, that meets an error or a failed end, that is dropped, or that ends with nothing to cache it under, leaves its socket without an owner. |
| TransportRuns.PoolEvicts | crates/agent-core/src/codex_websocket.rs:364-388 | So does a pool entry that is past the ceiling when the pool is swept, or that is replaced. |
| TransportRuns.GoneForGood | crates/agent-core/src/codex_websocket.rs:970-1001 | A socket without an owner never has one again, in any run. |
| TransportRuns.NeverHeldAgain | crates/agent-core/src/codex_websocket.rs:970-1001 | In every run from the start: once a socket is let go or evicted, no later state has it in a turn or in the pool. |
| TransportRuns.NextTurnSendsTheTail | crates/agent-core/src/codex_websocket.rs:264-305 | After a clean turn is checked in, whatever other turns, failures and ticks come between, the next turn on its key that starts within the ceiling and continues its transcript takes the same socket and sends only what is new. |
| TransportRuns.EveryReuseWasIdleUnderTheCeiling | crates/agent-core/src/codex_websocket.rs:364-371 | In every run, a socket taken from the pool had been idle since its last check-in for less than the ceiling, and was opened no later than that. |
| TransportRuns.CeilingIsOnAgeExactlyWhen | crates/agent-core/src/codex_websocket.rs:160-164 | In every reachable state, the sweep treats a pooled socket at every time as a ceiling on its total age would, if and only if it was checked in the moment it was opened. |
| TransportAge.AnyAgeIsReused | crates/agent-core/src/codex_websocket.rs:981-994 | For every age some run reuses a socket at least that old, by turns following one another within the ceiling. |
| LineFraming.FindsTheFirst | crates/agent-core/src/client.rs:1054-1064 | The break found is the first complete one, CRLF being one break; none is found only if there is no terminator, or only a CR at the very end. |
| LineFraming.OnePassSplits | crates/agent-core/src/client.rs:936-964 | The one-pass splitter loses nothing: lines and tail concatenate to the stream, each line ends in one terminator, CRLF is one, and a final lone CR stays in the tail. |
| LineFraming.SplitIsUnique | crates/agent-core/src/client.rs:1054-1064 | There is no other way to split a stream so. |
| LineFraming.BreakIsLine | crates/agent-core/src/client.rs:1089-1092 | Cutting a buffer at its first break gives the first line of the one-pass split and leaves the rest of it. |
| LineFraming.NoBreakIsTail | crates/agent-core/src/client.rs:1054-1064 | A buffer without a complete break is all tail. |
| LineFraming.LineFramer.constructor | crates/agent-core/src/client.rs:979-1001 | A new framer has received and delivered nothing. |
| LineFraming.LineFramer.Extend | crates/agent-core/src/client.rs:1074-1082 | The chunk is appended, and refused if and only if the whole buffer is then over 33,554,432 bytes. |
| LineFraming.LineFramer.NextLine | crates/agent-core/src/client.rs:1089-1092 | Under any interleaving with `Extend`, the line delivered is the next line of the one-pass split of all bytes received; none is delivered only when none is complete. |
| LineFraming.LineFramer.TakeTail | crates/agent-core/src/client.rs:1096-1102 | Hands over what is left, if anything, and empties the buffer. |
| LineFraming.FrameStream | crates/agent-core/src/client.rs:936-964 | For every chunking the loop delivers the lines and tail of one pass over the whole stream, or it refuses, if and only if some chunk overfills the buffer, at the first that does and with exactly the lines complete before it. |
| LineFraming.LimitOnOneLine | crates/agent-core/src/client.rs:1072-1082 | A line over the limit is always refused, and a chunk that completes no line is refused exactly when the line being assembled is over the limit. |
| LineFraming.LimitMeansWhatIsSaidExactlyWhen | crates/agent-core/src/client.rs:1072-1082 | Whatever is buffered: over all next chunks up to a length, a chunk is refused exactly when it leaves an unterminated line over the limit, if and only if the buffer and a chunk of that length are together within the limit. |
| LineFraming.ShortLinesAreRefused | crates/agent-core/src/client.rs:1003-1008 | More line feeds than the limit in one chunk are refused, though every line is one byte. |
| Utf8.CutAfterAscii | crates/agent-core/src/client.rs:979-987 | A cut after an ASCII byte splits the question of well-formedness in two, both ways. |
| Utf8Encoding.WellFormedExactlyWhenEncoded | crates/agent-core/src/client.rs:979-987 | A byte string is well-formed by the table of section 4 of RFC 3629 if and only if it is the encoding of some sequence of Unicode scalar values. |
| Utf8.LinesAreWellFormed | crates/agent-core/src/client.rs:950-960 | A stream is well-formed UTF-8 (section 4 of RFC 3629) if and only if all its lines and its tail are. |
| Utf8.EveryChunkingDecodes | crates/agent-core/src/client.rs:936-964 | The same for the lines delivered from any chunking, including chunks that split a character. |
| SendRetry.Backoff | crates/agent-core/src/client.rs:1780-1821 | There is no wait if and only if the jittered backoff is longer than a duration can be; otherwise it is at least the hint and the least jittered backoff and at most the ceiling, without a hint within the jitter, and a hint above the backoff is taken as it is. |
| SendRetry.BackoffDoubles | crates/agent-core/src/client.rs:1813-1816 | Before jitter and ceiling, attempt n waits the base times two to the n, and 65,536 times the base from the sixteenth on, or the longest duration there is. |
| SendRetry.AskedWaitIsWaited | crates/agent-core/src/client.rs:1705-1821 | What a header asks for, milliseconds first, then seconds or a date, is waited exactly unless the jittered backoff is longer, which is then waited; without one the jittered backoff is; never past the ceiling. |
| SendRetry.NoOverflowExactlyWhen | crates/agent-core/src/client.rs:1804-1821 | No attempt and no jitter overflows if and only if sixteen doublings of the base and a fifth more fit a duration. |
| SendRetry.LongestBaseOverflows | crates/agent-core/src/client.rs:1780-1821 | A base on which the first retry can overflow. |
| SendRetry.TotalIsBounded | crates/agent-core/src/client.rs:1225-1430 | Waits of at most the ceiling add up to at most the retry budget times the ceiling. |
| SendRetry.SendWithRetry | crates/agent-core/src/client.rs:1225-1430 | Against any server: at most one more request than retries allowed, all with the same body, going on exactly while the sending may yet pass or the status is 500, 502, 503, 504 or 524 and no backoff overflows; a 429 or 529 ends the run; retries are reported 1, 2, 3 in order with their waits; total waiting is bounded. |
| RateHint.ParsePrinted | crates/agent-core/src/rate_limit.rs:171-176 | A printed whole number is read back exactly, whatever follows it that is not more of a number. |
| Search.FirstReadInLoop | crates/agent-core/src/rate_limit.rs:137-148 | The loop returns what the recursive search does. |
| Search.VisitedIs | crates/agent-core/src/rate_limit.rs:137-148 | The occurrences the search visits are apart and in order, and every occurrence is one of them or overlaps one. |
| Search.FirstReadIs | crates/agent-core/src/rate_limit.rs:137-148 | The search returns what the first readable occurrence visited says, and nothing exactly when none is readable. |
| RetryAfterProofs.SomeExactlyWhenReadable | crates/agent-core/src/rate_limit.rs:137-148 | A message has a `retry-after` wait if and only if some occurrence visited is followed by a number and not by a dash. |
| RetryAfterProofs.ValueOfTheFirst | crates/agent-core/src/rate_limit.rs:137-148 | The wait is the number of seconds after the first such occurrence, no less than 0 and no more than 86,400. |
| RateHint.ParseDuration | crates/agent-core/src/rate_limit.rs:180-201 | The loop over a duration's text gives the recursive sum of its leading numbers with units. |
| RateHintProofs.HintSurvives | crates/agent-core/src/client.rs:1405-1415 | For every host and status text that do not hold the header's name, every response body and whatever weaker hints it holds, the milliseconds written into the error are read back as thousandths of a second, or as 86,400 seconds when they are more than 86,400,000. |
| RateHintProofs.RetryHintSurvives | crates/agent-core/src/rate_limit.rs:132-158 | The same of the whole hint reader. |
| RateHintProofs.DurationOfPrinted | crates/agent-core/src/rate_limit.rs:180-201 | Any run of numbers with units from any table, printed with any spacing, is read back as the sum the table gives, no less than 0 and no more than 86,400 seconds, whatever text stops it. |
| HintTexts.NumeralIsRead | crates/agent-core/src/rate_limit.rs:171-176 | A whole or decimal number is read back digit for digit at its place value, whatever follows it that is not more of a number. |
| HintTexts.SpansAreRead | crates/agent-core/src/rate_limit.rs:180-206 | Numbers with units, typed one after the other, are read as the seconds they add up to, at 0.001, 1, 60 or 3,600 for each of the eighteen spellings, and at most a day. |
| HintTexts.OtherUnitsAreNotRead | crates/agent-core/src/rate_limit.rs:190-196 | A number followed by any other run of letters is no duration. |
| HintTexts.MillisecondsAreRead | crates/agent-core/src/rate_limit.rs:132-136 | Milliseconds in the error's own wording are what is waited, up to a day, whatever else the message says. |
| HintTexts.SecondsAreRead | crates/agent-core/src/rate_limit.rs:137-148 | Without them, the seconds after the first `retry-after` and its separators are, up to a day, whatever else the message says. |
| HintTexts.ProseIsRead | crates/agent-core/src/rate_limit.rs:149-154 | Without a `retry-after`, the duration after the first "try again in" is. |
| HintTexts.ResetsAreRead | crates/agent-core/src/rate_limit.rs:155-158 | Without that either, the longer of the two reset headers is, or the one there is, or there is no wait. |
| HintTexts.TwoSeconds | crates/agent-core/src/client.rs:1405-1415 | An error from `api.openai.com` with 2000 milliseconds in it asks for two seconds. |
| HintTexts.SixMinutes | crates/agent-core/src/rate_limit.rs:178-201 | `6m0s` is 360 seconds. |
| ShellWords.WordsInLoop | crates/agent-core/src/bash_writes.rs:186-211 | The loop gives the words of the character-by-character scan. |
| ShellWords.WordsOfWritten | crates/agent-core/src/bash_writes.rs:186-211 | However its words are spelled, bare or in either quotes piece by piece, and however they are spaced, a segment reads back as those words. |
| ShellWords.WordsRoundTrip | crates/agent-core/src/bash_writes.rs:186-211 | Every list of words over any characters survives being printed quoted and split again. |
| ShellSegments.SplitInLoop | crates/agent-core/src/bash_writes.rs:156-183 | The single pass gives the segments of the recursive split. |
| ShellSegments.SplitExactly | crates/agent-core/src/bash_writes.rs:156-183 | The split is the one and only way to cut a line into texts without separators outside quotes, quotes closed, and separators as long as they can be; nothing is lost. |
| ShellSegments.ScriptSplitsBackExactlyWhen | crates/agent-core/src/bash_writes.rs:156-183 | A line typed from any commands, empty ones and ones with a lone `&` among them, splits back into them and their separators if and only if no `&` runs into a `&&` after it and no two separators run into one. |
| ShellSegments.ScriptRoundTrip | crates/agent-core/src/bash_writes.rs:156-211 | Such a line, in any spelling and spacing, splits back into each command's words. |
| ShellSegments.AmpersandRunsIntoSeparator | crates/agent-core/src/bash_writes.rs:156-183 | A line whose `&` is taken for the start of its separator. |
| Heredocs.DelimiterOfWritten | crates/agent-core/src/bash_writes.rs:140-153 | A heredoc's delimiter is read back however it is written: with or without a dash, blanks and quotes, after anything that does not itself open one and before anything that ends a word. |
| Heredocs.HereStringOpensNothing | crates/agent-core/src/bash_writes.rs:138-153 | A here-string opens no body, whatever stands before it that does not open one. |
| Heredocs.ClosingLineIs | crates/agent-core/src/bash_writes.rs:123-130 | A line closes a body if and only if it is the delimiter with nothing but blanks around it. |
| Heredocs.ItemsExactly | crates/agent-core/src/bash_writes.rs:105-136 | Every command is, in exactly one way, a run of shell lines and heredocs whose bodies end at the first line that trims to the delimiter; the lines, bodies and delimiter lines interleave back to the command. |
| Heredocs.SplitHeredocs | crates/agent-core/src/bash_writes.rs:107-136 | The offset arithmetic yields exactly those shell lines and bodies, each body with the number of the line that opened it. |
| Paths.NormalizeInLoop | crates/agent-core/src/bash_writes.rs:453-471 | The stack loop gives the recursive normal form. |
| Paths.NormalParts | crates/agent-core/src/bash_writes.rs:452-471 | A normal path is leading `..`s and then only names, absolute exactly when the path was. |
| Paths.NormalizeIsIdempotent | crates/agent-core/src/bash_writes.rs:453-471 | Normalizing twice changes nothing more. |
| Tracking.NormalizeKeepsMeaningExactlyWhenStable | crates/agent-core/src/bash_writes.rs:453-471 | Normalizing keeps where a path leads, from every directory and with every home, if and only if the path does not climb above the home it starts in and nothing else brings a `~` to its front. |
| Tracking.ClimbingOverHomeGoesWrong | crates/agent-core/src/bash_writes.rs:453-471 | `~/..` is normalized to nothing. |
| Tracking.TrackingIsRightExactlyWhenSafe | crates/agent-core/src/bash_writes.rs:60-67 | The directory tracked over any run of `cd` operands is where they lead, from every start and with every home, if and only if: after an absolute operand there is no `~`; and without one, nothing is joined onto operands that have cancelled out, a `~` comes first or not at all and is not climbed above, and no `..` leaves a name with a `~` in front. |
| Tracking.TargetIsRightExactlyWhenSafe | crates/agent-core/src/bash_writes.rs:31-36 | So too for a target recorded after them, a target with a `~` standing by itself. |
| Tracking.EmptiedDirectoryGoesWrong | crates/agent-core/src/bash_writes.rs:31-36 | After `cd .`, every plain name is recorded as a file of the root. |
| Tracking.HomeAfterDirectoryGoesWrong | crates/agent-core/src/bash_writes.rs:60-67 | After `cd a`, a `cd` to any `~` path is tracked wrongly, and so is every relative target after it. |
| Moves.RecordedRightExactlyWhen | crates/agent-core/src/bash_writes.rs:31-67 | After any `cd`s, with or without operands, a target is recorded rightly if and only if: it is absolute; or it starts with `~` and is stable; or the last `cd` that does not depend on where it starts had an operand, or there is none, and the operands and the target are safe to join; or it had none, just `~` is left of the operands before it, and what follows does not climb above home. |
| Moves.AtHomeIsTracked | crates/agent-core/src/bash_writes.rs:60-67 | Just `~` is left of the operands exactly when the tracked directory is `~`. |
| WrittenPaths.InPlaceFilesInLoop | crates/agent-core/src/bash_writes.rs:255-282 | The pass with a skip flag gives the operands up to the first redirect, less the script unless a flag gave it. |
| WrittenPaths.PushAll | crates/agent-core/src/bash_writes.rs:26-47 | Pushing targets keeps the output equal to the report of all writes so far. |
| WrittenPaths.ScanSegment | crates/agent-core/src/bash_writes.rs:52-91 | One segment leaves the directory and the output of its trace: its redirects under the directory before it, then its own writes or its `cd`; `TypedWrites` and `TypedLines.CdLeaves` say what those are. |
| WrittenPaths.ScanScripts | crates/agent-core/src/bash_writes.rs:93-99 | Exactly the body opened on this line, if one was, is scanned and popped, under the directory after the line. |
| WrittenPaths.Written | crates/agent-core/src/bash_writes.rs:22-103 | The output is the report of the command's trace, which `TypedLines` gives for a command as typed; every heredoc body is scanned exactly once, in order, in the directory in effect after its opening line, and the stack ends empty. |
| TypedWrites.RedirectsAreArrows | crates/agent-core/src/bash_writes.rs:217-240 | The redirect targets of a typed command are the files its `>`, `>>`, `1>` and `1>>` point to, attached or apart, in order, and nothing else. |
| TypedWrites.DanglingArrow | crates/agent-core/src/bash_writes.rs:232-235 | An arrow with nothing after it points nowhere. |
| TypedWrites.TeeWrites | crates/agent-core/src/bash_writes.rs:68-71 | `tee` writes every word without a dash, `>`, `2>` or `&>` in front. |
| TypedWrites.CopyWrites | crates/agent-core/src/bash_writes.rs:75-83 | `cp` and `mv` write the second such word, if there is one. |
| TypedWrites.CopyWritesItsDestinationExactlyWhen | crates/agent-core/src/bash_writes.rs:75-83 | A copy with flags before its source records its destination if and only if no other such word stands between the two, or the first that does is the same. |
| TypedWrites.RedirectTakenForDestination | crates/agent-core/src/bash_writes.rs:75-83 | `cp source > file destination` records the file for the destination. |
| TypedWrites.InPlaceIs | crates/agent-core/src/bash_writes.rs:242-251 | A word asks for an in-place edit if and only if it is a single-dash flag with an `i`, or of `sed` also `--in-place`. |
| TypedWrites.EditWrites | crates/agent-core/src/bash_writes.rs:253-282 | An in-place `sed` or `perl` writes its operands up to the first redirect, less the first one unless a flag gave the script. |
| TypedWrites.NoEditNoWrites | crates/agent-core/src/bash_writes.rs:72-74 | One that is not in place writes none of its own. |
| TypedWrites.PythonWrites | crates/agent-core/src/bash_writes.rs:84-90 | A `python` command writes what the word after its first `-c` does. |
| TypedWrites.OthersWriteNothing | crates/agent-core/src/bash_writes.rs:91 | Every other command writes nothing of its own. |
| TypedLines.TypedLineIs | crates/agent-core/src/bash_writes.rs:52-101 | However its commands are spelled, spaced and separated, a typed line leaves what its commands leave, one after the other. |
| TypedLines.ShownIs | crates/agent-core/src/bash_writes.rs:52 | A line is read without its line feed, or its carriage return and line feed. |
| TypedLines.CdLeaves | crates/agent-core/src/bash_writes.rs:58-67 | `cd` moves to its first operand whatever follows it, or without one is noted as a move home; its own redirects count from where it started. |
| TypedLines.RecordedIs | crates/agent-core/src/bash_writes.rs:26-47 | A target is recorded, trimmed and located against the directory, unless it is empty, starts with `$`, holds a `*`, or lies under `/dev/`, `/proc/` or `/tmp/`. |
| TypedLines.WritesAreReported | crates/agent-core/src/bash_writes.rs:22-103 | `cd` to a directory and any other command, typed in any way: reported, each once, are exactly the files its arrows point to and those it writes of its own, under the directory. |
| TypedLines.RedirectIsReported | crates/agent-core/src/bash_writes.rs:22-103 | `cd dir` and then a command with one arrow reports exactly that file, under the directory. |
| TypedLines.RedirectIsReportedHere | crates/agent-core/src/bash_writes.rs:22-103 | The same without a `cd`. |
| TypedLines.TeeIsReported | crates/agent-core/src/bash_writes.rs:22-103 | `cd dir` and then `tee` with any files reports each of them, under the directory. |
| WrittenPaths.ReportIsExact | crates/agent-core/src/bash_writes.rs:21-47 | A report lists exactly the paths its writes are recorded as, each once, each normalized, none under the scratch directories. |
| WrittenPaths.ReportOnlyGrows | crates/agent-core/src/bash_writes.rs:21-103 | Reading more of a command keeps the report so far as the head of the report, and each write keeps the `cd`s that came before it. |
| WrittenPaths.RecordedIsMeant | crates/agent-core/src/bash_writes.rs:22-67 | Every target recorded denotes, in every world, the file it names after the `cd`s before it if and only if those `cd`s and the target meet that condition. |
| WrittenPaths.TrackedIsMeant | crates/agent-core/src/bash_writes.rs:26-47 | Where every `cd` had an operand, that is: if and only if the operands and the target are safe to join, or the target, starting with `~`, is stable. |
| WrittenPaths.BareCdGoesWrong | crates/agent-core/src/bash_writes.rs:60-67 | Right after a `cd` without an operand, whatever was tracked before it unless that is `~`, every relative target is recorded wrongly. |
| Pricing.Normalize | verify/pricing_reference.py:49-64 | Succeeds if and only if the counts are consistent, and then puts every prompt token in exactly one category, each count in its own: gateway writes, reads, one-hour writes, the other writes and the output. |
| Pricing.ChargeInLoops | verify/pricing_reference.py:144-168 | The two accumulating loops give the bill, stopping at the same first refusal. |
| Pricing.DearestInLoop | verify/pricing_reference.py:242-255 | The running best gives the same answer or refusal as the recursive search. |
| PricingProofs.ChargeIsSum | verify/pricing_reference.py:144-168 | A charge that succeeds is the exact sum of its entries. |
| PriceFormula.ChargeIs | verify/pricing_reference.py:144-168 | A charge is, in closed form over the row's counts, the token dollars times the multiplier plus the tool dollars times the fee; or it is refused, for the first amount too large or tool without a fee. |
| PriceFormula.SideIs | verify/pricing_reference.py:122-168 | A side is charged at the rates of its class and context length, off-peak when the calendar says so, times residency and fee, each refusal exactly where its cause is the first. |
| PriceRows.DearestIs | verify/pricing_reference.py:242-255 | Among the endpoints that serve the class and host, each answering by that formula at its own rates and the credit fee, the answer is the first refusal, or the first of the dearest, or that there is none. |
| PriceRows.CostIs | verify/pricing_reference.py:206-261 | The first of nine checks that fails refuses a row; one that none refuses costs what was reported times the credit fee, what its dearest endpoint answers, or the formula on its card. |
| PriceRows.PriceIs | verify/pricing_reference.py:201-265 | So on all three paths a row's price is nothing for a cache hit, its refusal, or its cost to the nearest micro-dollar, halves up. |
| Reconciliation.SummedUsageCostsTheSum | verify/README.md:184-187 | Rows that fell in one class and tier, with totals that fall in it too by their tokens and the calendar: the totals cost exactly the sum of the rows, whatever order and grouping the tools come in, or are refused only for being too much to bill. |
| Reconciliation.SumLawExactly | verify/README.md:184-187 | Whatever class and tier the totals fall in by their tokens and the calendar, they cost the sum of the rows if and only if their tokens come to the same at its rates as at the rows'. |
| Reconciliation.CrossingCostsMore | verify/README.md:184-187 | Totals that cross into rates none of which is lower, and one of which is higher for tokens there are, cost strictly more than the rows. |
| Reconciliation.ReconciledWithinOnePerRow | verify/README.md:184-187 | The rounded cost of the totals and the sum of the rows' rounded costs differ by at most half a micro-dollar per row. |
| Reconciliation.TotalsCanCrossTheThreshold | verify/README.md:184-187 | Two rows below the threshold whose total, above it, costs twice as much. |
| PricingProofs.RoundingDrift | verify/pricing_reference.py:171-175 | The rounded total of n rows and the sum of their rounded costs differ by at most half of n micro-dollars. |
| PricingProofs.DriftIsReached | verify/pricing_reference.py:171-175 | That bound is reached for every n. |
| PricingProofs.CostFits | verify/pricing_reference.py:115-119 | On every pricing path a cost that is not refused satisfies the 128-bit bound. |
| PricingProofs.RoundingNeverRefuses | verify/pricing_reference.py:171-175 | So rounding to 64-bit micro-dollars never refuses a row the bound let through: a row is priced if and only if it has a cost, and with the same refusal otherwise. |
| PricingProofs.DearestIsGreatest | verify/pricing_reference.py:242-255 | The dearest endpoint's cost is attained by a matching endpoint and no matching endpoint's is greater; there is one if and only if some endpoint matches and every match can be priced. |
| PricingProofs.OrderDoesNotMatter | verify/pricing_reference.py:242-255 | Any reordering of the endpoints gives the same cost. |
| PricingProofs.FirstOfEqualsIsReported | verify/pricing_reference.py:242-255 | Whichever of several equally dear endpoints stands first is the one reported. |
| PricingProofs.TierDependsOnTies | verify/pricing_reference.py:242-265 | The tier reported is independent of the order if and only if all the dearest endpoints agree on it. |
| PricingProofs.TierCanDependOnOrder | verify/pricing_reference.py:242-265 | Two endpoints and a row for which it is not. |
| Deferred.TokensAreWholeNames | crates/agent-core/src/deferred.rs:117-122 | The tokens of a text are exactly the names that stand in it whole, with no name character on either side. |
| LoadOrder.TokensAre | crates/agent-core/src/deferred.rs:117-122 | The tokens of a text are its runs of letters, digits, `_` and `-`, from left to right. |
| Deferred.ByNameIs | crates/agent-core/src/deferred.rs:86-90 | The index holds exactly the deferred names, each under its own. |
| Deferred.LastOfANameWins | crates/agent-core/src/deferred.rs:86-90 | Of several deferred tools with one name it holds the last. |
| Deferred.LoadsInLoops | crates/agent-core/src/deferred.rs:67-115 | The nested loops with their two early exits give the specified loads. |
| Deferred.LoadedExactlyWhenNamed | crates/agent-core/src/deferred.rs:67-115 | A tool is loaded if and only if it is deferred and some successful search result names it whole; none is loaded twice. |
| Deferred.ResultLoads | crates/agent-core/src/deferred.rs:92-113 | A result loads exactly the deferred tools it names that no earlier result named; naming none, it adds no entry. |
| LoadOrder.LoadedInOrder | crates/agent-core/src/deferred.rs:67-115 | The loaded names, in order, are the deferred names standing whole in the results of `tool_search` calls that did not fail, each once, where it is first named. |
| LoadOrder.LoadedUnder | crates/agent-core/src/deferred.rs:92-113 | Each load stands under the id of the call whose result was the first to hold its names; a result that adds none has no load. |
| Deferred.LoadsStay | crates/agent-core/src/deferred.rs:36-115 | Extending a transcript whose call ids are unique and whose results follow their calls keeps all earlier loads as a prefix. |
| Deferred.WithLoadedInLoop | crates/agent-core/src/deferred.rs:126-137 | The loop gives the request's tools extended by the loaded ones. |
| LoadOrder.ToolListIs | crates/agent-core/src/deferred.rs:126-137 | The tool list is the request's own tools and then, in order, those loaded whose names it does not have. |
| Deferred.ToolListStays | crates/agent-core/src/deferred.rs:124-137 | The tool list of the shorter transcript is a prefix of the longer one's; the request's own tools come first and no added tool repeats a name. |
| BranchWindow.Windowed | crates/agent-core/src/branch_summary.rs:85-102 | The backward loop starts the window at the longest tail that fits, or the last message alone, or at a nested summary just before it that the tail leaves room for. |
| BranchWindow.SummaryRecaps | crates/agent-core/src/branch_summary.rs:61-67 | A nested summary is a message whose first block is text that opens with one of the two summary headings. |
| BranchWindow.WindowIsUnique | crates/agent-core/src/branch_summary.rs:85-102 | Each budget has one such window. |
| BranchWindow.WindowShape | crates/agent-core/src/branch_summary.rs:69-102 | Below the largest budget: a non-empty tail that is one message, or fits, or is a nested summary before a tail under nine tenths; unless it stopped on one, one message more would overrun. |
| BranchWindow.LargestBudgetKeepsAll | crates/agent-core/src/branch_summary.rs:85-102 | At the largest budget the saturated sum never overruns and everything is kept. |
| BranchWindow.NinetyIs | crates/agent-core/src/branch_summary.rs:93 | The threshold is nine tenths of the budget rounded down, and 429,496,729 for every budget over 477,218,588. |
| BranchWindow.NinetyIsExactWhen | crates/agent-core/src/branch_summary.rs:93 | The threshold agrees with nine tenths of the budget on every tail if and only if the budget is a multiple of ten that nine times over does not saturate. |
| BranchWindow.UnderNinetyYetDropped | crates/agent-core/src/branch_summary.rs:78-102 | A summary dropped although the tail is under nine tenths. |

## Left out

- The server is not modelled beyond what the transport relies on: it resolves a request against the response it names,
  gives each response an id of its own, sends each output item once and in order, and sends nothing after the frame
  that ends a response.
- A transport request body is taken to be an object with an `input` array and no `previous_response_id` of its own.
- Sockets, TLS, HTTP, compression, header and URL construction, and timeouts as durations; their outcomes are
  nondeterministic steps, or arguments of the methods.
- The dialect decoders: whether a frame decodes to events is an input; what ends a turn, and how, is modelled.
- Floating point: numbers, waits and jitter are exact reals; what is kept of 64-bit floats is that too large a number
  is not finite and is not read, and that a duration product too large for the clock type panics.
- The random source of the jitter: any factor from 0.8 to 1.2.
- Recognizing what a Python script writes: an argument of the model.
- What a `cd` operand of `-`, an option or a variable leads to: such an operand is read as a name, as the source reads
  it. Quoting is gone by the time paths are read, so a quoted `~` counts as a home directory here and to the source
  alike.
- Segment splitting works on characters where the source works on bytes; separators and quotes are ASCII, so the cuts
  are the same.
- The off-peak calendar and the contents of the rate table: the calendar's answer and the table are arguments. Host
  names are compared as already lower-cased.
- Reading a row's JSON and its tool counts; a row arrives with them read or refused. Whether its counts were estimated
  is not kept.
- Looking a load up by its result id, native deferred loading, and where the loaded tools go in each dialect.
- Sizing a message in tokens: its cost is part of the message.
- The agent loop, sessions, compaction, title and hook modules, and the error classification tables, which would only
  add easy members.
