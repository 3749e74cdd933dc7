/**
  The connection cache a client keeps for its whole life: idle sockets by conversation key, and the
  keys whose WebSocket has failed and that now go straight to HTTP. A key present in `idle` is idle;
  a socket in use is in no map at all. Times are nanoseconds on one clock.
 */
module SocketCache {
  import opened Prelude
  import opened DeltaBody

  const MAX_CONNECTION_AGE: nat := 55 * 60 * 1_000_000_000
  const MAX_SSE_FALLBACK_KEYS: nat := 256

  type Key = string

  datatype Cached = Cached(socket: nat, createdAt: nat, continuation: Option<Continuation>)

  /** The idle map without every entry at or past the age ceiling, whatever its key. */
  function Swept(idle: map<Key, Cached>, now: nat): map<Key, Cached>
  {
    map k | k in idle && now - idle[k].createdAt < MAX_CONNECTION_AGE :: idle[k]
  }

  /** `victim` is a longest-marked key. */
  predicate Oldest(markers: map<Key, nat>, victim: Key)
  {
    victim in markers && forall k :: k in markers ==> markers[victim] <= markers[k]
  }

  predicate NeedsRoom(markers: map<Key, nat>, key: Key)
  {
    |markers| >= MAX_SSE_FALLBACK_KEYS && key !in markers
  }

  /** The markers after marking `key`, evicting `victim` if room is needed. */
  function Marked(markers: map<Key, nat>, key: Key, now: nat, victim: Key): map<Key, nat>
  {
    (if NeedsRoom(markers, key) then markers - {victim} else markers)[key := now]
  }

  /** `after` is `before` with `key` marked, and at most a longest-marked key gone to make room. */
  ghost predicate MarksOnly(before: map<Key, nat>, after: map<Key, nat>, key: Key, now: nat)
  {
    exists victim :: (NeedsRoom(before, key) ==> Oldest(before, victim)) && after == Marked(before, key, now, victim)
  }

  class CodexWebSocketCache {
    var idle: map<Key, Cached>
    var fallback: map<Key, nat>

    constructor ()
      ensures idle == map[] && fallback == map[]
    {
      idle := map[];
      fallback := map[];
    }

    /** Take `key`'s connection out of the pool if it is idle and young enough, sweeping every other
        expired entry on the way. */
    method Checkout(key: Key, now: nat) returns (r: Option<Cached>)
      modifies this`idle
      ensures idle == Swept(old(idle), now) - {key}
      ensures r.Some? <==> key in old(idle) && now - old(idle)[key].createdAt < MAX_CONNECTION_AGE
      ensures r.Some? ==> r.value == old(idle)[key]
    {
      idle := Swept(idle, now);
      if key in idle {
        r := Some(idle[key]);
      } else {
        r := None;
      }
      idle := idle - {key};
    }

    /** Put a connection back after a clean turn; an entry already there for `key` is replaced. */
    method Checkin(key: Key, connection: Cached, now: nat)
      modifies this`idle
      ensures idle == Swept(old(idle), now)[key := connection]
    {
      idle := Swept(idle, now);
      idle := idle[key := connection];
    }

    method MarkFallback(key: Key, now: nat)
      modifies this`fallback
      ensures MarksOnly(old(fallback), fallback, key, now)
    {
      ghost var victim := key;
      if NeedsRoom(fallback, key) {
        var oldest := FindOldest(fallback);
        victim := oldest;
        fallback := fallback - {oldest};
      }
      fallback := fallback[key := now];
      assert fallback == Marked(old(fallback), key, now, victim);
    }

    method IsFallbackActive(key: Key) returns (active: bool)
      ensures active <==> key in fallback
    {
      active := key in fallback;
    }
  }

  method FindOldest(markers: map<Key, nat>) returns (victim: Key)
    requires |markers| > 0
    ensures Oldest(markers, victim)
  {
    assert markers.Keys != {};
    victim :| victim in markers;
    var rest := markers.Keys - {victim};
    while rest != {}
      invariant victim in markers && rest <= markers.Keys
      invariant forall k :: k in markers && k !in rest ==> markers[victim] <= markers[k]
      decreases |rest|
    {
      var k :| k in rest;
      if markers[k] < markers[victim] {
        victim := k;
      }
      rest := rest - {k};
    }
  }
}

/** How long a fallback marker is remembered: the marker map behaves as a least-recently-marked set. */
module FallbackMarkers {
  import opened SocketCache

  datatype Mark = Mark(key: Key, at: nat)

  /** Marks made at strictly increasing times. */
  predicate InOrder(marks: seq<Mark>)
  {
    forall i, j :: 0 <= i < j < |marks| ==> marks[i].at < marks[j].at
  }

  /** Every key ever marked, with the time of its last mark: what an unbounded map would hold. */
  function LastMarked(marks: seq<Mark>): map<Key, nat>
  {
    if marks == [] then map[]
    else
      var last := |marks| - 1;
      LastMarked(marks[..last])[marks[last].key := marks[last].at]
  }

  /** `markers` is a result the marking method can leave after `marks`, started empty. */
  ghost predicate Reaches(marks: seq<Mark>, markers: map<Key, nat>)
  {
    if marks == [] then markers == map[]
    else
      var last := |marks| - 1;
      exists before :: Reaches(marks[..last], before) && MarksOnly(before, markers, marks[last].key, marks[last].at)
  }

  /** The keys marked more recently than `key` was. */
  function MarkedSince(history: map<Key, nat>, key: Key): set<Key>
    requires key in history
  {
    set k | k in history && history[k] > history[key]
  }

  /** Fewer than 256 distinct keys have been marked since `key` was. */
  predicate Recent(history: map<Key, nat>, key: Key)
    requires key in history
  {
    |MarkedSince(history, key)| < 256
  }

  /** Exactly the keys with fewer than 256 distinct keys marked since their own last mark, each with the
      time of that mark. */
  ghost predicate Remembers(history: map<Key, nat>, markers: map<Key, nat>)
  {
    && |markers| <= 256
    && (forall k :: k in markers ==> k in history && markers[k] == history[k])
    && (forall k :: k in history ==> (k in markers <==> Recent(history, k)))
  }

  predicate DistinctTimes(history: map<Key, nat>)
  {
    forall j, k :: j in history && k in history && j != k ==> history[j] != history[k]
  }

  lemma SubsetSize<T>(a: set<T>, b: set<T>)
    requires a <= b
    ensures |a| <= |b|
  {
    assert b == a + (b - a);
  }

  lemma DisjointFit<T>(a: set<T>, b: set<T>, whole: set<T>)
    requires a !! b && a + b <= whole
    ensures |a| + |b| <= |whole|
  {
    assert |a + b| == |a| + |b|;
    SubsetSize(a + b, whole);
  }

  /** A key marked after a remembered key is remembered too. */
  lemma LaterIsRemembered(history: map<Key, nat>, markers: map<Key, nat>, k: Key, j: Key)
    requires Remembers(history, markers) && k in markers && j in history && history[j] > history[k]
    ensures j in markers
  {
    SubsetSize(MarkedSince(history, j), MarkedSince(history, k));
  }

  /** Marking `key` later than everything adds it to the keys marked since any other key. */
  lemma SinceAfterMark(history: map<Key, nat>, key: Key, now: nat, k: Key)
    requires k in history && k != key
    requires forall j :: j in history ==> history[j] < now
    ensures MarkedSince(history[key := now], k) == MarkedSince(history, k) + {key}
  {
  }

  /** A remembered key other than the one evicted, if any, leaves room for one more mark after it. */
  lemma RoomForOneMore(history: map<Key, nat>, markers: map<Key, nat>, key: Key, victim: Key, k: Key)
    requires Remembers(history, markers) && DistinctTimes(history)
    requires key !in markers
    requires NeedsRoom(markers, key) ==> Oldest(markers, victim) && k != victim
    requires k in markers
    ensures |MarkedSince(history, k)| < MAX_SSE_FALLBACK_KEYS - 1
  {
    var since := MarkedSince(history, k);
    forall j | j in since ensures j in markers {
      LaterIsRemembered(history, markers, k, j);
    }
    var older := if NeedsRoom(markers, key) then {k, victim} else {k};
    DisjointFit(since, older, markers.Keys);
  }

  /** More keys have been marked since an older mark. */
  lemma OlderSeesMore(history: map<Key, nat>, older: Key, k: Key)
    requires older in history && k in history && history[k] > history[older]
    ensures |MarkedSince(history, k)| < |MarkedSince(history, older)|
  {
    DisjointFit(MarkedSince(history, k), {k}, MarkedSince(history, older));
  }

  lemma SinceBeforeMark(history: map<Key, nat>, markers: map<Key, nat>, key: Key, victim: Key, k: Key)
    requires Remembers(history, markers) && DistinctTimes(history)
    requires NeedsRoom(markers, key) ==> Oldest(markers, victim) && k != victim
    requires k in markers && k != key && key !in MarkedSince(history, k)
    ensures |MarkedSince(history, k)| < MAX_SSE_FALLBACK_KEYS - 1
  {
    if key in markers {
      assert history[key] != history[k];
      OlderSeesMore(history, key, k);
    } else {
      RoomForOneMore(history, markers, key, victim, k);
    }
  }

  lemma SinceStaysSmall(history: map<Key, nat>, markers: map<Key, nat>, key: Key, now: nat, victim: Key, k: Key)
    requires Remembers(history, markers) && DistinctTimes(history)
    requires forall j :: j in history ==> history[j] < now
    requires NeedsRoom(markers, key) ==> Oldest(markers, victim) && k != victim
    requires k in markers && k != key
    ensures |MarkedSince(history[key := now], k)| < MAX_SSE_FALLBACK_KEYS
  {
    SinceAfterMark(history, key, now, k);
    var since := MarkedSince(history, k);
    if key in since {
      assert since + {key} == since;
    } else {
      SinceBeforeMark(history, markers, key, victim, k);
    }
  }

  /** The other remembered keys were all marked since the oldest. */
  lemma OthersSinceOldest(history: map<Key, nat>, markers: map<Key, nat>, victim: Key)
    requires Remembers(history, markers) && DistinctTimes(history) && Oldest(markers, victim)
    ensures markers.Keys - {victim} <= MarkedSince(history, victim)
  {
    forall k | k in markers.Keys - {victim} ensures k in MarkedSince(history, victim) {
      assert markers[victim] <= markers[k] && history[k] != history[victim];
    }
  }

  lemma AllButOne<T>(s: set<T>, x: T, y: T)
    requires x in s && y !in s
    ensures |s - {x} + {y}| == |s|
  {
    assert s - {x} + {x} == s;
  }

  /** The evicted key has all the others, and the new one, marked since it. */
  lemma VictimIsDue(history: map<Key, nat>, markers: map<Key, nat>, key: Key, now: nat, victim: Key)
    requires Remembers(history, markers) && DistinctTimes(history)
    requires forall j :: j in history ==> history[j] < now
    requires NeedsRoom(markers, key) && Oldest(markers, victim)
    ensures |MarkedSince(history[key := now], victim)| >= MAX_SSE_FALLBACK_KEYS
  {
    SinceAfterMark(history, key, now, victim);
    OthersSinceOldest(history, markers, victim);
    AllButOne(markers.Keys, victim, key);
    SubsetSize(markers.Keys - {victim} + {key}, MarkedSince(history, victim) + {key});
  }

  lemma MarkingKeepsTheCap(markers: map<Key, nat>, key: Key, now: nat, victim: Key)
    requires |markers| <= MAX_SSE_FALLBACK_KEYS
    requires NeedsRoom(markers, key) ==> victim in markers
    ensures |Marked(markers, key, now, victim)| <= MAX_SSE_FALLBACK_KEYS
  {
    var kept := Marked(markers, key, now, victim);
    if key in markers {
      assert kept.Keys == markers.Keys;
    } else if NeedsRoom(markers, key) {
      assert kept.Keys == markers.Keys - {victim} + {key};
    } else {
      assert kept.Keys == markers.Keys + {key};
    }
  }

  /** Keys already forgotten stay forgotten. */
  lemma ForgottenStays(history: map<Key, nat>, key: Key, now: nat, k: Key)
    requires k in history && k != key && !Recent(history, k) && forall j :: j in history ==> history[j] < now
    ensures !Recent(history[key := now], k)
  {
    SinceAfterMark(history, key, now, k);
    SubsetSize(MarkedSince(history, k), MarkedSince(history[key := now], k));
  }

  lemma JustMarkedIsRecent(history: map<Key, nat>, key: Key, now: nat)
    requires forall j :: j in history ==> history[j] < now
    ensures Recent(history[key := now], key)
  {
    assert MarkedSince(history[key := now], key) == {};
  }

  lemma MarkingRemembersKey(history: map<Key, nat>, markers: map<Key, nat>, key: Key, now: nat, victim: Key, k: Key)
    requires Remembers(history, markers) && DistinctTimes(history)
    requires forall j :: j in history ==> history[j] < now
    requires NeedsRoom(markers, key) ==> Oldest(markers, victim)
    requires k in history[key := now]
    ensures k in Marked(markers, key, now, victim) <==> Recent(history[key := now], k)
  {
    if k == key {
      JustMarkedIsRecent(history, key, now);
    } else if k !in markers {
      ForgottenStays(history, key, now, k);
    } else if NeedsRoom(markers, key) && k == victim {
      VictimIsDue(history, markers, key, now, victim);
    } else {
      SinceStaysSmall(history, markers, key, now, victim, k);
    }
  }

  lemma MarkedTimes(history: map<Key, nat>, markers: map<Key, nat>, key: Key, now: nat, victim: Key)
    requires forall k :: k in markers ==> k in history && markers[k] == history[k]
    ensures forall k :: k in Marked(markers, key, now, victim) ==>
              k in history[key := now] && Marked(markers, key, now, victim)[k] == history[key := now][k]
  {
  }

  lemma MarkingRemembers(history: map<Key, nat>, markers: map<Key, nat>, key: Key, now: nat, victim: Key)
    requires Remembers(history, markers) && DistinctTimes(history)
    requires forall j :: j in history ==> history[j] < now
    requires NeedsRoom(markers, key) ==> Oldest(markers, victim)
    ensures Remembers(history[key := now], Marked(markers, key, now, victim))
  {
    MarkingKeepsTheCap(markers, key, now, victim);
    MarkedTimes(history, markers, key, now, victim);
    var later, kept := history[key := now], Marked(markers, key, now, victim);
    forall k | k in later ensures k in kept <==> Recent(later, k) {
      MarkingRemembersKey(history, markers, key, now, victim, k);
    }
  }

  lemma {:induction false} LastMarkedTimes(marks: seq<Mark>, bound: nat)
    requires InOrder(marks) && (marks != [] ==> marks[|marks| - 1].at < bound)
    ensures DistinctTimes(LastMarked(marks))
    ensures forall k :: k in LastMarked(marks) ==> LastMarked(marks)[k] < bound
  {
    if marks != [] {
      var last := |marks| - 1;
      LastMarkedTimes(marks[..last], marks[last].at);
    }
  }

  /** Over every sequence of marks at increasing times the map holds at most 256 keys, and a key is in it
      if and only if it was marked and fewer than 256 distinct other keys have been marked since. */
  lemma {:induction false} MarkersAreLeastRecentlyMarked(marks: seq<Mark>, markers: map<Key, nat>)
    requires InOrder(marks) && Reaches(marks, markers)
    ensures Remembers(LastMarked(marks), markers)
    ensures marks != [] ==> marks[|marks| - 1].key in markers
  {
    if marks == [] {
      assert |markers| == 0;
    } else {
      var last := |marks| - 1;
      var key, now := marks[last].key, marks[last].at;
      var before :| Reaches(marks[..last], before) && MarksOnly(before, markers, key, now);
      var victim :|
        (NeedsRoom(before, key) ==> Oldest(before, victim)) && markers == Marked(before, key, now, victim);
      MarkersAreLeastRecentlyMarked(marks[..last], before);
      LastMarkedTimes(marks[..last], marks[last].at);
      MarkingRemembers(LastMarked(marks[..last]), before, marks[last].key, marks[last].at, victim);
    }
  }
}
