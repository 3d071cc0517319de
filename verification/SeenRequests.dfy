/** The agent's polling loop (`pollForNewRequests` of agent/agent.go) and the least-recently-used cache
    with which it tells new request IDs from IDs it has already started on. */
module SeenRequests {
  import opened Basics

  const REQUEST_CACHE_LIMIT: nat := 1000

  type RequestId = string

  // ---------------------------------------------------------------- recency

  function Without(s: seq<RequestId>, x: RequestId): seq<RequestId>
  {
    if s == [] then [] else (if s[0] == x then [] else [s[0]]) + Without(s[1..], x)
  }

  function Take(s: seq<RequestId>, n: nat): seq<RequestId> { if |s| <= n then s else s[..n] }

  /** The distinct IDs of a history of sightings, the most recently seen first. */
  function ByRecency(history: seq<RequestId>): seq<RequestId>
  {
    if history == [] then []
    else
      var x := history[|history| - 1];
      [x] + Without(ByRecency(history[..|history| - 1]), x)
  }

  /** The `n` most recently seen distinct IDs. */
  function Window(history: seq<RequestId>, n: nat): seq<RequestId> { Take(ByRecency(history), n) }

  function Ids(s: seq<RequestId>): set<RequestId> { set x | x in s }

  predicate Distinct(s: seq<RequestId>) { forall i, j :: 0 <= i < j < |s| ==> s[i] != s[j] }

  lemma {:induction false} WithoutMembers(s: seq<RequestId>, x: RequestId)
    ensures forall y :: y in Without(s, x) <==> y in s && y != x
  {
    if s != [] {
      WithoutMembers(s[1..], x);
      assert s == [s[0]] + s[1..];
    }
  }

  lemma {:induction false} WithoutAbsent(s: seq<RequestId>, x: RequestId)
    requires x !in s
    ensures Without(s, x) == s
  {
    if s != [] {
      WithoutAbsent(s[1..], x);
      assert s == [s[0]] + s[1..];
    }
  }

  lemma {:induction false} WithoutDistinct(s: seq<RequestId>, x: RequestId)
    requires Distinct(s)
    ensures Distinct(Without(s, x)) && |Without(s, x)| == if x in s then |s| - 1 else |s|
  {
    if s != [] {
      var rest := s[1..];
      assert s == [s[0]] + rest;
      WithoutDistinct(rest, x);
      WithoutMembers(rest, x);
      assert s[0] !in rest;
      if s[0] == x {
        assert Without(s, x) == Without(rest, x);
      } else {
        assert Without(s, x) == [s[0]] + Without(rest, x);
      }
    }
  }

  lemma {:induction false} WithoutAppend(a: seq<RequestId>, b: seq<RequestId>, x: RequestId)
    ensures Without(a + b, x) == Without(a, x) + Without(b, x)
  {
    if a == [] {
      assert a + b == b;
    } else {
      assert (a + b)[1..] == a[1..] + b;
      WithoutAppend(a[1..], b, x);
    }
  }

  lemma {:induction false} ByRecencyProperties(history: seq<RequestId>)
    ensures Distinct(ByRecency(history)) && forall y :: y in ByRecency(history) <==> y in history
  {
    if history != [] {
      var front, x := history[..|history| - 1], history[|history| - 1];
      ByRecencyProperties(front);
      WithoutMembers(ByRecency(front), x);
      WithoutDistinct(ByRecency(front), x);
      assert history == front + [x];
    }
  }

  lemma {:induction false} DistinctSize(s: seq<RequestId>)
    requires Distinct(s)
    ensures |Ids(s)| == |s|
  {
    if s != [] {
      var front := s[..|s| - 1];
      DistinctSize(front);
      assert Ids(s) == Ids(front) + {s[|s| - 1]};
      assert s[|s| - 1] !in Ids(front);
    }
  }

  /** What was seen later comes first, and what was seen only earlier follows. */
  lemma {:induction false} ByRecencyAppend(a: seq<RequestId>, b: seq<RequestId>) returns (older: seq<RequestId>)
    ensures ByRecency(a + b) == ByRecency(b) + older
    ensures forall x :: x in a && x !in b ==> x in older
    ensures a != [] && a[|a| - 1] !in b ==> older != [] && older[0] == a[|a| - 1]
    decreases |b|
  {
    if b == [] {
      assert a + b == a;
      older := ByRecency(a);
      ByRecencyProperties(a);
    } else {
      var front, y := b[..|b| - 1], b[|b| - 1];
      assert b == front + [y];
      assert (a + b)[..|a + b| - 1] == a + front;
      var o := ByRecencyAppend(a, front);
      older := Without(o, y);
      WithoutAppend(ByRecency(front), o, y);
      WithoutMembers(o, y);
      Assoc([y], Without(ByRecency(front), y), older);
    }
  }

  // ---------------------------------------------------------------- when an ID counts as new

  /** The sightings after the last one of `x`. */
  function Since(history: seq<RequestId>, x: RequestId): seq<RequestId>
  {
    if history == [] || history[|history| - 1] == x then []
    else Since(history[..|history| - 1], x) + [history[|history| - 1]]
  }

  lemma {:induction false} SinceSplits(history: seq<RequestId>, x: RequestId) returns (before: seq<RequestId>)
    requires x in history
    ensures history == before + Since(history, x) && before != [] && before[|before| - 1] == x
      && x !in Since(history, x)
  {
    var last := history[|history| - 1];
    if last == x {
      before := history;
    } else {
      var front := history[..|history| - 1];
      before := SinceSplits(front, x);
      assert history == front + [last];
    }
  }

  /** An ID is outside the window exactly if it was never seen, or if at least `n` other IDs have been
      seen since it last was. */
  lemma NewExactlyWhenForgotten(history: seq<RequestId>, x: RequestId, n: nat)
    ensures x !in Window(history, n) <==> x !in history || |Ids(Since(history, x))| >= n
  {
    ByRecencyProperties(history);
    if x in history {
      var before := SinceSplits(history, x);
      var later := Since(history, x);
      var older := ByRecencyAppend(before, later);
      ByRecencyProperties(later);
      DistinctSize(ByRecency(later));
      var r, p := ByRecency(history), |ByRecency(later)|;
      assert r[p] == x;
      assert Ids(ByRecency(later)) == Ids(later);
      if p < n {
        assert Window(history, n)[p] == x;
      } else {
        assert forall i :: 0 <= i < p ==> r[i] != x;
      }
    }
  }

  // ---------------------------------------------------------------- the cache and the loop

  /** The part of groupcache's `lru.Cache` that the agent uses; the values are the keys. */
  class Lru {
    const maxEntries: nat
    var order: seq<RequestId>

    constructor (maxEntries: nat)
      ensures this.maxEntries == maxEntries && order == []
    {
      this.maxEntries := maxEntries;
      order := [];
    }

    method Get(x: RequestId) returns (found: bool)
      modifies this
      ensures found <==> x in old(order)
      ensures order == (if found then [x] + Without(old(order), x) else old(order))
    {
      found := x in order;
      if found {
        order := [x] + Without(order, x);
      }
    }

    method Add(x: RequestId)
      modifies this
      ensures
        var moved := [x] + Without(old(order), x);
        order == if x !in old(order) && maxEntries != 0 && |moved| > maxEntries then moved[..|moved| - 1] else moved
    {
      if x in order {
        order := [x] + Without(order, x);
        return;
      }
      WithoutAbsent(order, x);
      order := [x] + order;
      if maxEntries != 0 && |order| > maxEntries {
        order := order[..|order| - 1];
      }
    }
  }

  /** The order of a cache of `n` entries after a sighting of `x`: `Get`, and `Add` if that missed. */
  function Touch(order: seq<RequestId>, x: RequestId, n: nat): seq<RequestId> {
    var moved := [x] + Without(order, x);
    if x !in order && |moved| > n then moved[..|moved| - 1] else moved
  }

  /** What the inner loop does for one sighting keeps the window. */
  lemma WindowStep(history: seq<RequestId>, x: RequestId, n: nat)
    requires n > 0
    ensures Window(history + [x], n) == Touch(Window(history, n), x, n)
  {
    var r := ByRecency(history);
    assert (history + [x])[..|history + [x]| - 1] == history;
    ByRecencyProperties(history);
    if |r| <= n {
      WithoutDistinct(r, x);
    } else {
      TouchOfPrefix(r[..n], r[n..], x);
      assert r == r[..n] + r[n..];
    }
  }

  /** Dropping the far end of a list of distinct IDs does not show in what a full cache keeps. */
  lemma TouchOfPrefix(w: seq<RequestId>, rest: seq<RequestId>, x: RequestId)
    requires Distinct(w + rest) && |w| > 0
    ensures Take([x] + Without(w + rest, x), |w|) == Touch(w, x, |w|)
  {
    assert Distinct(w) by {
      assert forall i :: 0 <= i < |w| ==> w[i] == (w + rest)[i];
    }
    WithoutAppend(w, rest, x);
    WithoutDistinct(w, x);
    Assoc([x], Without(w, x), Without(rest, x));
    if x !in w {
      WithoutAbsent(w, x);
    }
  }

  /** The IDs of `batch` that are outside the window when their turn comes. */
  function NewOnes(history: seq<RequestId>, batch: seq<RequestId>, n: nat): seq<RequestId>
  {
    if batch == [] then []
    else
      var front, x := batch[..|batch| - 1], batch[|batch| - 1];
      NewOnes(history, front, n) + (if x in Window(history + front, n) then [] else [x])
  }

  /** The answer to one list call. */
  datatype ListResult = Listed(ids: seq<RequestId>) | ListFailed

  /** All IDs seen in a sequence of answers. */
  function Sightings(answers: seq<ListResult>): seq<RequestId>
  {
    if answers == [] then []
    else
      var last := answers[|answers| - 1];
      Sightings(answers[..|answers| - 1]) + (if last.Listed? then last.ids else [])
  }

  /** What is started in answer to each list call. */
  function Started(answers: seq<ListResult>, n: nat): seq<seq<RequestId>>
  {
    if answers == [] then []
    else
      var front, last := answers[..|answers| - 1], answers[|answers| - 1];
      Started(front, n) + [if last.Listed? then NewOnes(Sightings(front), last.ids, n) else []]
  }

  lemma SightingStep(history: seq<RequestId>, batch: seq<RequestId>, i: nat, n: nat)
    requires i < |batch| && n > 0
    ensures Window(history + batch[..i + 1], n) == Touch(Window(history + batch[..i], n), batch[i], n)
    ensures NewOnes(history, batch[..i + 1], n) ==
      NewOnes(history, batch[..i], n) + (if batch[i] in Window(history + batch[..i], n) then [] else [batch[i]])
  {
    WindowStep(history + batch[..i], batch[i], n);
    assert batch[..i + 1] == batch[..i] + [batch[i]];
    Assoc(history, batch[..i], [batch[i]]);
  }

  /** The inner loop: one job per ID that is not in the cache. */
  method ProcessBatch(seen: Lru, batch: seq<RequestId>, ghost history: seq<RequestId>) returns (started: seq<RequestId>)
    requires seen.maxEntries > 0 && seen.order == Window(history, seen.maxEntries)
    modifies seen
    ensures seen.order == Window(history + batch, seen.maxEntries)
    ensures started == NewOnes(history, batch, seen.maxEntries)
  {
    started := [];
    assert history + batch[..0] == history;
    for i := 0 to |batch|
      invariant seen.order == Window(history + batch[..i], seen.maxEntries)
      invariant started == NewOnes(history, batch[..i], seen.maxEntries)
    {
      var requestId := batch[i];
      SightingStep(history, batch, i, seen.maxEntries);
      ghost var order := seen.order;
      var ok := seen.Get(requestId);
      if !ok {
        seen.Add(requestId);
        started := started + [requestId];
      }
      assert seen.order == Touch(order, requestId, seen.maxEntries);
    }
    assert batch[..|batch|] == batch;
  }

  /** `answers` are the results of the list calls until polling stops. The backoff between failed calls
      is not modelled beyond its counter. */
  method PollForNewRequests(answers: seq<ListResult>) returns (started: seq<seq<RequestId>>, retryCount: nat)
    ensures started == Started(answers, 1000)
    ensures retryCount <= |answers|
    ensures forall i :: |answers| - retryCount <= i < |answers| ==> answers[i].ListFailed?
    ensures retryCount < |answers| ==> answers[|answers| - retryCount - 1].Listed?
  {
    var previouslySeenRequests := new Lru(REQUEST_CACHE_LIMIT);
    started := [];
    retryCount := 0;
    for i := 0 to |answers|
      invariant previouslySeenRequests.maxEntries == REQUEST_CACHE_LIMIT
      invariant previouslySeenRequests.order == Window(Sightings(answers[..i]), REQUEST_CACHE_LIMIT)
      invariant started == Started(answers[..i], REQUEST_CACHE_LIMIT)
      invariant retryCount <= i
      invariant forall k :: i - retryCount <= k < i ==> answers[k].ListFailed?
      invariant retryCount < i ==> answers[i - retryCount - 1].Listed?
    {
      assert answers[..i + 1][..i] == answers[..i];
      match answers[i] {
        case ListFailed =>
          retryCount := retryCount + 1;
          started := started + [[]];
          assert Sightings(answers[..i]) + [] == Sightings(answers[..i]);
        case Listed(ids) =>
          retryCount := 0;
          var batch := ProcessBatch(previouslySeenRequests, ids, Sightings(answers[..i]));
          started := started + [batch];
      }
    }
    assert answers[..|answers|] == answers;
  }

  // ---------------------------------------------------------------- what every history guarantees

  lemma {:induction false} NewOnesAppend(history: seq<RequestId>, a: seq<RequestId>, b: seq<RequestId>, n: nat)
    ensures NewOnes(history, a + b, n) == NewOnes(history, a, n) + NewOnes(history + a, b, n)
    decreases |b|
  {
    if b == [] {
      assert a + b == a;
    } else {
      var front, x := b[..|b| - 1], b[|b| - 1];
      assert (a + b)[..|a + b| - 1] == a + front;
      NewOnesAppend(history, a, front, n);
      Assoc(history, a, front);
      var before, last := NewOnes(history + a, front, n), if x in Window(history + a + front, n) then [] else [x];
      Assoc(NewOnes(history, a, n), before, last);
    }
  }

  /** However the sightings are spread over list calls, and whatever calls fail, the jobs started are
      those of the one long history of sightings. */
  lemma {:induction false} GroupingDoesNotMatter(answers: seq<ListResult>, n: nat)
    ensures Flatten(Started(answers, n)) == NewOnes([], Sightings(answers), n)
  {
    if answers != [] {
      var front, last := answers[..|answers| - 1], answers[|answers| - 1];
      GroupingDoesNotMatter(front, n);
      var ids := if last.Listed? then last.ids else [];
      NewOnesAppend([], Sightings(front), ids, n);
      assert [] + Sightings(front) == Sightings(front);
      FlattenSnoc(Started(front, n), NewOnes(Sightings(front), ids, n));
    }
  }

  /** Position `j` of a history is one at which the agent starts a job. */
  predicate StartsAt(history: seq<RequestId>, j: nat, n: nat)
    requires j < |history|
  {
    history[j] !in Window(history[..j], n)
  }

  /** The positions of a history at which a job for `x` starts. */
  function Starts(history: seq<RequestId>, x: RequestId, n: nat): set<nat> {
    set j: nat | j < |history| && history[j] == x && StartsAt(history, j, n)
  }

  lemma StartsOfPrefix(history: seq<RequestId>, x: RequestId, n: nat)
    requires history != []
    ensures
      var front, last := history[..|history| - 1], |history| - 1;
      Starts(history, x, n) ==
        Starts(front, x, n) + (if history[last] == x && StartsAt(history, last, n) then {last} else {})
  {
    var front := history[..|history| - 1];
    forall j: nat | j < |front| ensures StartsAt(front, j, n) <==> StartsAt(history, j, n) {
      assert front[..j] == history[..j];
    }
  }

  /** An ID has exactly as many jobs as there are positions at which one starts. */
  lemma {:induction false} JobsAreStarts(history: seq<RequestId>, x: RequestId, n: nat)
    ensures multiset(NewOnes([], history, n))[x] == |Starts(history, x, n)|
  {
    if history != [] {
      var front, last := history[..|history| - 1], |history| - 1;
      JobsAreStarts(front, x, n);
      StartsOfPrefix(history, x, n);
      assert [] + front == front;
    }
  }

  /** Two jobs for one ID, or a job and any earlier sighting of its ID, are separated by sightings of at
      least 1000 other IDs. */
  lemma RestartsAreFarApart(history: seq<RequestId>, i: nat, j: nat)
    requires i < j < |history| && history[i] == history[j] && StartsAt(history, j, 1000)
    ensures |Ids(history[i + 1..j]) - {history[j]}| >= 1000
  {
    var x, front := history[j], history[..j];
    NewExactlyWhenForgotten(front, x, REQUEST_CACHE_LIMIT);
    assert front[i] == x;
    var before := SinceSplits(front, x);
    var later := Since(front, x);
    forall y | y in Ids(later) ensures y in Ids(history[i + 1..j]) - {x} {
      var k :| 0 <= k < |later| && later[k] == y;
      assert front[|before| + k] == y;
      assert history[i + 1..j][|before| + k - i - 1] == y;
    }
    SubsetSize(Ids(later), Ids(history[i + 1..j]) - {x});
  }

  /** Every ID in an answer is started at its first sighting, so no new request is missed. */
  lemma FirstSightingStarts(history: seq<RequestId>, j: nat)
    requires j < |history| && history[j] !in history[..j]
    ensures StartsAt(history, j, 1000)
  {
    NewExactlyWhenForgotten(history[..j], history[j], REQUEST_CACHE_LIMIT);
  }
}
