/** Searching a text for a key again and again until what follows it can be read. */
module Search {
  import opened Prelude
  import opened Text

  /** What `read` makes of the text after the first occurrence of `key` it can read, searching on after each. */
  function FirstRead(read: string -> Option<real>, m: string, key: string, from: nat): Option<real>
    requires key != "" && from <= |m|
    decreases |m| - from
  {
    match Find(m, key, from)
    case None => None
    case Some(i) =>
      var next := i + |key|;
      if read(m[next..]).Some? then read(m[next..]) else FirstRead(read, m, key, next)
  }

  method FirstReadInLoop(read: string -> Option<real>, m: string, key: string) returns (r: Option<real>)
    requires key != ""
    ensures r == FirstRead(read, m, key, 0)
  {
    var from := 0;
    while true
      invariant from <= |m| && FirstRead(read, m, key, from) == FirstRead(read, m, key, 0)
      decreases |m| - from
    {
      var found := Find(m, key, from);
      if found.None? {
        return None;
      }
      from := found.value + |key|;
      r := read(m[from..]);
      if r.Some? {
        return;
      }
    }
  }

  // ---- Which occurrences the search visits, and what it finds there ----

  /** The occurrences of `key` found one after the other, each searched for after the end of the last. */
  function Visited(m: string, key: string, from: nat): seq<nat>
    requires key != "" && from <= |m|
    decreases |m| - from
  {
    match Find(m, key, from)
    case None => []
    case Some(i) => [i] + Visited(m, key, i + |key|)
  }

  /** They are occurrences, in order and apart, and every occurrence there is overlaps one of them. */
  ghost predicate VisitsAll(m: string, key: string, from: nat, visited: seq<nat>)
  {
    && (forall i :: i in visited ==> from <= i && OccursAt(m, key, i))
    && Apart(visited, |key|)
    && (forall j :: from <= j && OccursAt(m, key, j) ==> Overlapped(visited, |key|, j))
  }

  predicate Apart(visited: seq<nat>, n: nat)
  {
    forall k :: 0 < k < |visited| ==> visited[k - 1] + n <= visited[k]
  }

  ghost predicate Overlapped(visited: seq<nat>, n: nat, j: nat)
  {
    exists k :: 0 <= k < |visited| && visited[k] <= j < visited[k] + n
  }

  lemma {:induction false} NotFound(s: string, key: string, from: nat, j: nat)
    requires from <= |s| && from <= j && OccursAt(s, key, j)
    ensures Find(s, key, from).Some? && Find(s, key, from).value <= j
    decreases |s| - from
  {
    if !OccursAt(s, key, from) && from < |s| {
      NotFound(s, key, from + 1, j);
    }
  }

  lemma {:induction false} FoundOccurs(s: string, key: string, from: nat)
    requires from <= |s| && Find(s, key, from).Some?
    ensures OccursAt(s, key, Find(s, key, from).value)
    decreases |s| - from
  {
    if !OccursAt(s, key, from) {
      FoundOccurs(s, key, from + 1);
    }
  }

  lemma OverlappedLater(visited: seq<nat>, first: nat, n: nat, j: nat)
    requires Overlapped(visited, n, j)
    ensures Overlapped([first] + visited, n, j)
  {
    var k :| 0 <= k < |visited| && visited[k] <= j < visited[k] + n;
    assert ([first] + visited)[k + 1] == visited[k];
  }

  lemma {:induction false} VisitedOccur(m: string, key: string, from: nat)
    requires key != "" && from <= |m|
    ensures forall i :: i in Visited(m, key, from) ==> from <= i && OccursAt(m, key, i)
    decreases |m| - from
  {
    if Find(m, key, from).Some? {
      FoundOccurs(m, key, from);
      VisitedOccur(m, key, Find(m, key, from).value + |key|);
    }
  }

  lemma {:induction false} VisitedApart(m: string, key: string, from: nat)
    requires key != "" && from <= |m|
    ensures Apart(Visited(m, key, from), |key|)
    decreases |m| - from
  {
    if Find(m, key, from).Some? {
      var i := Find(m, key, from).value;
      VisitedApart(m, key, i + |key|);
      VisitedOccur(m, key, i + |key|);
      ApartCons(i, Visited(m, key, i + |key|), |key|);
    }
  }

  lemma ApartCons(first: nat, rest: seq<nat>, n: nat)
    requires Apart(rest, n) && forall i :: i in rest ==> first + n <= i
    ensures Apart([first] + rest, n)
  {
    var all := [first] + rest;
    forall k | 0 < k < |all| ensures all[k - 1] + n <= all[k] {
      assert all[k] == rest[k - 1] && rest[k - 1] in rest;
      if k > 1 {
        assert all[k - 1] == rest[k - 2];
      }
    }
  }

  lemma {:induction false} VisitedCover(m: string, key: string, from: nat, j: nat)
    requires key != "" && from <= |m| && from <= j && OccursAt(m, key, j)
    ensures Overlapped(Visited(m, key, from), |key|, j)
    decreases |m| - from
  {
    NotFound(m, key, from, j);
    var i, n := Find(m, key, from).value, |key|;
    if j < i + n {
      assert Visited(m, key, from)[0] <= j < Visited(m, key, from)[0] + n;
    } else {
      VisitedCover(m, key, i + n, j);
      OverlappedLater(Visited(m, key, i + n), i, n, j);
    }
  }

  lemma VisitedIs(m: string, key: string, from: nat)
    requires key != "" && from <= |m|
    ensures VisitsAll(m, key, from, Visited(m, key, from))
  {
    VisitedOccur(m, key, from);
    VisitedApart(m, key, from);
    forall j | from <= j && OccursAt(m, key, j) ensures Overlapped(Visited(m, key, from), |key|, j) {
      VisitedCover(m, key, from, j);
    }
  }

  /** `r` is what `read` makes of the first of the `visited` occurrences it can read. */
  ghost predicate IsFirst(read: string -> Option<real>, m: string, n: nat, visited: seq<nat>, r: Option<real>)
    requires forall k :: 0 <= k < |visited| ==> visited[k] + n <= |m|
  {
    if r.None? then forall k :: 0 <= k < |visited| ==> read(m[visited[k] + n..]).None?
    else
      exists k :: 0 <= k < |visited| && read(m[visited[k] + n..]) == r
                  && forall j :: 0 <= j < k ==> read(m[visited[j] + n..]).None?
  }

  lemma {:induction false} VisitedFits(m: string, key: string, from: nat)
    requires key != "" && from <= |m|
    ensures forall k :: 0 <= k < |Visited(m, key, from)| ==> Visited(m, key, from)[k] + |key| <= |m|
    decreases |m| - from
  {
    if Find(m, key, from).Some? {
      VisitedFits(m, key, Find(m, key, from).value + |key|);
    }
  }

  lemma IsFirstLater(read: string -> Option<real>, m: string, n: nat, first: nat, rest: seq<nat>, r: Option<real>)
    requires first + n <= |m| && forall k :: 0 <= k < |rest| ==> rest[k] + n <= |m|
    requires read(m[first + n..]).None? && IsFirst(read, m, n, rest, r)
    ensures IsFirst(read, m, n, [first] + rest, r)
  {
    var all := [first] + rest;
    assert forall k :: 0 < k < |all| ==> all[k] == rest[k - 1];
    if r.Some? {
      var k :| 0 <= k < |rest| && read(m[rest[k] + n..]) == r && forall j :: 0 <= j < k ==> read(m[rest[j] + n..]).None?;
      assert all[k + 1] == rest[k];
    }
  }

  /** The search returns what the first readable occurrence it visits says, and nothing exactly when none of
      them is readable. */
  lemma {:induction false} FirstReadIs(read: string -> Option<real>, m: string, key: string, from: nat)
    requires key != "" && from <= |m|
    ensures forall k :: 0 <= k < |Visited(m, key, from)| ==> Visited(m, key, from)[k] + |key| <= |m|
    ensures IsFirst(read, m, |key|, Visited(m, key, from), FirstRead(read, m, key, from))
    decreases |m| - from
  {
    VisitedFits(m, key, from);
    if Find(m, key, from).Some? {
      var i := Find(m, key, from).value;
      var next := i + |key|;
      var rest := Visited(m, key, next);
      FirstReadIs(read, m, key, next);
      if read(m[next..]).Some? {
        assert Visited(m, key, from)[0] == i;
      } else {
        IsFirstLater(read, m, |key|, i, rest, FirstRead(read, m, key, next));
      }
    }
  }

  /** What follows the occurrence visited `k`th. */
  function After(m: string, key: string, k: nat): string
    requires key != "" && k < |Visited(m, key, 0)|
  {
    VisitedFits(m, key, 0);
    m[Visited(m, key, 0)[k] + |key|..]
  }

  predicate NoneBefore(read: string -> Option<real>, m: string, key: string, n: nat)
    requires key != "" && n <= |Visited(m, key, 0)|
  {
    forall k :: 0 <= k < n ==> read(After(m, key, k)).None?
  }

  /** The search finds something if and only if some occurrence visited can be read. */
  lemma FoundExactlyWhenReadable(read: string -> Option<real>, m: string, key: string)
    requires key != ""
    ensures FirstRead(read, m, key, 0).None? <==> NoneBefore(read, m, key, |Visited(m, key, 0)|)
  {
    var v := Visited(m, key, 0);
    FirstReadIs(read, m, key, 0);
    forall k | 0 <= k < |v| ensures After(m, key, k) == m[v[k] + |key|..] {
    }
  }

  lemma FirstIsUnique(
    read: string -> Option<real>, m: string, n: nat, visited: seq<nat>, r: Option<real>, k: nat)
    requires forall i :: 0 <= i < |visited| ==> visited[i] + n <= |m|
    requires IsFirst(read, m, n, visited, r) && k < |visited| && read(m[visited[k] + n..]).Some?
    requires forall j :: 0 <= j < k ==> read(m[visited[j] + n..]).None?
    ensures r == read(m[visited[k] + n..])
  {
  }

  /** And then it finds what the first such occurrence says. */
  lemma FoundIsTheFirst(read: string -> Option<real>, m: string, key: string, k: nat)
    requires key != "" && k < |Visited(m, key, 0)|
    requires read(After(m, key, k)).Some? && NoneBefore(read, m, key, k)
    ensures FirstRead(read, m, key, 0) == read(After(m, key, k))
  {
    var v := Visited(m, key, 0);
    FirstReadIs(read, m, key, 0);
    forall j | 0 <= j < k ensures read(m[v[j] + |key|..]).None? {
      assert read(After(m, key, j)).None?;
    }
    FirstIsUnique(read, m, |key|, v, FirstRead(read, m, key, 0), k);
  }
}
