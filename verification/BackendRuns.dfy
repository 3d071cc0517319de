/** Backends against the run itself: trackers and definitions hold what the last step that concerns them
    put there, so liveness, routing and clean-up can be told from the steps of the run alone. */
module BackendRuns {
  import opened Basics
  import opened Backends

  /** The step writes or deletes the tracker of `b`. */
  predicate Touches(a: Step, b: BackendId) {
    (a.Poll? || a.AddTracker? || a.Delete? || a.CronDelete?) && a.b == b
  }

  function LastTouch(run: seq<Step>, b: BackendId): Option<Step>
  {
    if run == [] then None
    else if Touches(run[|run| - 1], b) then Some(run[|run| - 1])
    else LastTouch(run[..|run| - 1], b)
  }

  /** The step puts or deletes the definition of `b`. */
  predicate Defines(a: Step, b: BackendId) {
    (a.AddDefinition? && a.definition.id == b) || ((a.Delete? || a.CronDelete?) && a.b == b)
  }

  function LastDefining(run: seq<Step>, b: BackendId): Option<Step>
  {
    if run == [] then None
    else if Defines(run[|run| - 1], b) then Some(run[|run| - 1])
    else LastDefining(run[..|run| - 1], b)
  }

  function TickOf(a: Step): nat { if a.Tick? then a.seconds else 0 }

  /** How much time passes in the run. */
  function Elapsed(run: seq<Step>): nat
  {
    if run == [] then 0 else Elapsed(run[..|run| - 1]) + TickOf(run[|run| - 1])
  }

  // ---------------------------------------------------------------- the state that a run leaves

  /** A poll leaves the clock reading it was made from, an add one that is five minutes older. */
  predicate TrackerSays(s: State, b: BackendId, last: Option<Step>) {
    match last
    case None => b !in s.trackers
    case Some(a) =>
      if a.Poll? then b in s.trackers && s.trackers[b] == a.read && a.read <= s.now
      else if a.AddTracker? then b in s.trackers && s.trackers[b] == a.read - 300 && a.read <= s.now
      else b !in s.trackers
  }

  predicate DefinitionSays(s: State, b: BackendId, last: Option<Step>) {
    match last
    case None => b !in s.definitions
    case Some(a) =>
      if a.AddDefinition? then b in s.definitions && s.definitions[b] == a.definition else b !in s.definitions
  }

  ghost predicate LeftBy(start: int, run: seq<Step>, s: State) {
    && s.now == start + Elapsed(run)
    && (forall b :: TrackerSays(s, b, LastTouch(run, b)))
    && (forall b :: DefinitionSays(s, b, LastDefining(run, b)))
  }

  lemma StepLeaves(start: int, run: seq<Step>, s: State, a: Step)
    requires LeftBy(start, run, s) && Enabled(s, a)
    ensures LeftBy(start, run + [a], Next(s, a))
  {
    var longer, t := run + [a], Next(s, a);
    assert longer[..|longer| - 1] == run;
    forall b ensures TrackerSays(t, b, LastTouch(longer, b)) {
      assert TrackerSays(s, b, LastTouch(run, b));
    }
    forall b ensures DefinitionSays(t, b, LastDefining(longer, b)) {
      assert DefinitionSays(s, b, LastDefining(run, b));
    }
  }

  lemma {:induction false} RunLeaves(start: int, done: seq<Step>, s: State, run: seq<Step>)
    requires LeftBy(start, done, s) && Legal(s, run)
    ensures LeftBy(start, done + run, Final(s, run))
    decreases |run|
  {
    if run == [] {
      assert done + run == done;
    } else {
      StepLeaves(start, done, s, run[0]);
      RunLeaves(start, done + [run[0]], Next(s, run[0]), run[1..]);
      assert (done + [run[0]]) + run[1..] == done + run;
    }
  }

  lemma FinalIsLeft(start: int, run: seq<Step>)
    requires Legal(Init(start), run)
    ensures LeftBy(start, run, Final(Init(start), run))
  {
    RunLeaves(start, [], Init(start), run);
    assert [] + run == run;
  }

  // ---------------------------------------------------------------- what the run tells

  /** The last step of the run that touches the tracker of `b` is a poll that read the clock less than five
      minutes before the run's end. */
  predicate PolledRecently(start: int, run: seq<Step>, b: BackendId) {
    && LastTouch(run, b).Some? && LastTouch(run, b).value.Poll?
    && start + Elapsed(run) - LastTouch(run, b).value.read < 300
  }

  /** A backend counts as live exactly when the run says so: an add or a deletion after the last poll makes
      it dead, and so does the passing of five minutes. */
  lemma LiveExactlyIfPolledRecently(start: int, run: seq<Step>, b: BackendId)
    requires Legal(Init(start), run)
    ensures
      var s := Final(Init(start), run);
      HasBackend(s.trackers, s.now, b) <==> PolledRecently(start, run, b)
  {
    FinalIsLeft(start, run);
    assert TrackerSays(Final(Init(start), run), b, LastTouch(run, b));
  }

  /** Just the definitions whose last step in the run is an add are there, as they were added; a deletion, by
      hand or by the clean-up, removes both the definition and the tracker. */
  lemma DefinedExactlyIfLastAdded(start: int, run: seq<Step>, b: BackendId)
    requires Legal(Init(start), run)
    ensures
      var s, last := Final(Init(start), run), LastDefining(run, b);
      && (b in s.definitions <==> last.Some? && last.value.AddDefinition?)
      && (b in s.definitions ==> s.definitions[b] == last.value.definition)
    ensures
      var s, last := Final(Init(start), run), LastTouch(run, b);
      last.Some? && (last.value.Delete? || last.value.CronDelete?) ==> b !in s.trackers
  {
    FinalIsLeft(start, run);
    assert DefinitionSays(Final(Init(start), run), b, LastDefining(run, b));
    assert TrackerSays(Final(Init(start), run), b, LastTouch(run, b));
  }

  lemma {:induction false} JoinRuns(s: State, a: seq<Step>, b: seq<Step>)
    requires Legal(s, a) && Legal(Final(s, a), b)
    ensures Legal(s, a + b) && Final(s, a + b) == Final(Final(s, a), b)
    decreases |a|
  {
    if a == [] {
      assert a + b == b;
    } else {
      assert (a + b)[1..] == a[1..] + b;
      JoinRuns(Next(s, a[0]), a[1..], b);
    }
  }

  /** A lookup that returns a backend: one with a longest matching prefix among the user's, or among the
      shared ones if none of the user's matched, that by the end of the run has polled recently. */
  lemma LookupReturnsPolledBackend(start: int, run: seq<Step>, more: seq<Step>, yetMore: seq<Step>, user: string,
                                   path: string, own: seq<Backend>, shared: seq<Backend>, b: BackendId)
    requires Legal(Init(start), run)
    requires Legal(Final(Init(start), run), more)
    requires Legal(Final(Final(Init(start), run), more), yetMore)
    requires Enumerates(own, Final(Init(start), run), user)
    requires Enumerates(shared, Final(Final(Init(start), run), more), SHARED_BACKEND_USER)
    requires
      var s := Final(Final(Final(Init(start), run), more), yetMore);
      Lookup(path, own, shared, s.trackers, s.now) == Some(b)
    ensures
      var s1 := Final(Init(start), run);
      var s2 := Final(s1, more);
      if AnyMatch(s1, user, path) then IsLongestFor(s1, user, path, b) else IsLongestFor(s2, "allUsers", path, b)
    ensures PolledRecently(start, run + more + yetMore, b)
  {
    LookupIsLongestAndLive(start, run, more, yetMore, user, path, own, shared, b);
    JoinRuns(Init(start), run, more);
    JoinRuns(Init(start), run + more, yetMore);
    LiveExactlyIfPolledRecently(start, run + more + yetMore, b);
  }

  /** Conversely, a lookup returns the first longest match of the user's backends, if there is one and it has
      polled recently, and that of the shared ones, if the user has no match at all. */
  lemma PolledBackendIsReturned(start: int, run: seq<Step>, path: string, own: seq<Backend>, shared: seq<Backend>,
                                i: int, j: int)
    requires Legal(Init(start), run)
    requires
      || FirstLongest(path, own, i, j)
      || ((forall k, m :: !Matches(path, own, k, m)) && FirstLongest(path, shared, i, j))
    ensures
      var s := Final(Init(start), run);
      var b := if FirstLongest(path, own, i, j) then own[i].id else shared[i].id;
      Lookup(path, own, shared, s.trackers, s.now) == if PolledRecently(start, run, b) then Some(b) else None
  {
    var b := if FirstLongest(path, own, i, j) then own[i].id else shared[i].id;
    LiveExactlyIfPolledRecently(start, run, b);
    if FirstLongest(path, own, i, j) {
      BestMatchIs(path, own, i, j);
    } else {
      assert BestMatch(path, own) == None by {
        assert forall k, m :: FirstLongest(path, own, k, m) ==> Matches(path, own, k, m);
      }
      BestMatchIs(path, shared, i, j);
    }
  }

  // ---------------------------------------------------------------- clean-up

  /** No step of the run from position `i` on touches the tracker of `b`. */
  predicate UntouchedFrom(run: seq<Step>, i: nat, b: BackendId) {
    forall m :: i <= m < |run| ==> !Touches(run[m], b)
  }

  lemma {:induction false} LastTouchIsEarlier(run: seq<Step>, i: nat, b: BackendId)
    requires i <= |run| && UntouchedFrom(run, i, b)
    ensures LastTouch(run, b) == LastTouch(run[..i], b) && Elapsed(run) >= Elapsed(run[..i])
    decreases |run|
  {
    if i == |run| {
      assert run[..i] == run;
    } else {
      var front := run[..|run| - 1];
      assert forall m :: i <= m < |front| ==> front[m] == run[m];
      LastTouchIsEarlier(front, i, b);
      assert front[..i] == run[..i];
    }
  }

  lemma {:induction false} LegalPrefix(s: State, run: seq<Step>, i: nat)
    requires Legal(s, run) && i <= |run|
    ensures Legal(s, run[..i]) && Legal(Final(s, run[..i]), run[i..])
    decreases |run|
  {
    if i == 0 {
      assert run[..0] == [] && run[0..] == run;
    } else {
      var front, back := run[1..][..i - 1], run[1..][i - 1..];
      LegalPrefix(Next(s, run[0]), run[1..], i - 1);
      assert run[..i] == [run[0]] + front && run[i..] == back;
      assert ([run[0]] + front)[1..] == front;
    }
  }

  /** What a clean-up run listed, and nothing touched since, was last polled more than an hour ago, or added
      more than 55 minutes ago. */
  lemma ListedIsOld(start: int, run: seq<Step>, i: nat, k: nat, listed: set<BackendId>, b: BackendId)
    requires Legal(Init(start), run) && i < |run| && run[i] == StartCron(k, listed)
    requires b in listed && UntouchedFrom(run, i, b)
    ensures
      var last := LastTouch(run, b);
      && last.Some?
      && (last.value.Poll? ==> start + Elapsed(run) - last.value.read > 3600)
      && (last.value.AddTracker? ==> start + Elapsed(run) - last.value.read > 3300)
  {
    LegalPrefix(Init(start), run, i);
    var s := Final(Init(start), run[..i]);
    assert run[i..][0] == run[i];
    FinalIsLeft(start, run[..i]);
    assert TrackerSays(s, b, LastTouch(run[..i], b));
    LastTouchIsEarlier(run, i, b);
  }

  /** The backend was added or polled within the past 55 minutes, and not deleted since. */
  predicate IsRecentIn(start: int, run: seq<Step>, b: BackendId) {
    && LastTouch(run, b).Some? && (LastTouch(run, b).value.Poll? || LastTouch(run, b).value.AddTracker?)
    && start + Elapsed(run) - LastTouch(run, b).value.read < 3300
  }

  /** A clean-up run that deletes within 55 minutes of listing, where a write that lands after the listing did
      not read the clock before it, removes a recent backend exactly if its tracker was touched since; and
      whatever the timing, it removes one only if it was. */
  lemma RemovesRecentExactlyIfTouchedSince(start: int, run: seq<Step>, i: nat, k: nat, listed: set<BackendId>,
                                           b: BackendId)
    requires Legal(Init(start), run) && i < |run| && run[i] == StartCron(k, listed) && b in listed
    ensures IsRecentIn(start, run, b) ==> !UntouchedFrom(run, i, b)
    ensures
      var last, at := LastTouch(run, b), start + Elapsed(run[..i]);
      && start + Elapsed(run) - at < 3300
      && last.Some? && (last.value.Poll? || last.value.AddTracker?)
      && (!UntouchedFrom(run, i, b) ==> last.value.read >= at) ==>
      (IsRecentIn(start, run, b) <==> !UntouchedFrom(run, i, b))
  {
    if UntouchedFrom(run, i, b) {
      ListedIsOld(start, run, i, k, listed, b);
    }
  }

  /** What may be deleted by a clean-up run is what that run listed. */
  lemma {:induction false} DeletesOnlyListed(s: State, run: seq<Step>, k: nat, b: BackendId)
    requires Legal(s, run) && Enabled(Final(s, run), CronDelete(k, b))
    ensures
      || Enabled(s, CronDelete(k, b))
      || exists i :: 0 <= i < |run| && run[i].StartCron? && run[i].cron == k && b in run[i].listed
    decreases |run|
  {
    if run != [] {
      DeletesOnlyListed(Next(s, run[0]), run[1..], k, b);
      if i :| 0 <= i < |run[1..]| && run[1..][i].StartCron? && run[1..][i].cron == k && b in run[1..][i].listed {
        assert run[i + 1] == run[1..][i];
      }
    }
  }

  /** The tracker of `b` was written or deleted since `asOf` such steps had been made. */
  predicate WrittenSince(s: State, b: BackendId, asOf: nat) { b in s.latest && s.latest[b].number >= asOf }

  lemma {:induction false} WrittenIsOfRun(s: State, run: seq<Step>, b: BackendId, asOf: nat)
    requires Legal(s, run) && s.count >= asOf
    ensures WrittenSince(Final(s, run), b, asOf) <==> WrittenSince(s, b, asOf) || !UntouchedFrom(run, 0, b)
    decreases |run|
  {
    if run != [] {
      WrittenIsOfRun(Next(s, run[0]), run[1..], b, asOf);
      assert run == [run[0]] + run[1..];
      assert UntouchedFrom(run, 0, b) <==> !Touches(run[0], b) && UntouchedFrom(run[1..], 0, b) by {
        assert forall m :: 0 <= m < |run[1..]| ==> run[1..][m] == run[m + 1];
        assert forall m :: 1 <= m < |run| ==> run[m] == run[1..][m - 1];
      }
    }
  }

  lemma {:induction false} ListStays(s: State, run: seq<Step>, k: nat)
    requires Legal(s, run) && k in s.crons
    ensures k in Final(s, run).crons && Final(s, run).crons[k] == s.crons[k]
    decreases |run|
  {
    if run != [] {
      ListStays(Next(s, run[0]), run[1..], k);
    }
  }

  /** What the state says of a clean-up run is what the run says: it listed these backends, and one of them is
      untouched exactly if no step since has touched it. */
  lemma UntouchedIsOfRun(start: int, run: seq<Step>, i: nat, k: nat, listed: set<BackendId>, b: BackendId)
    requires Legal(Init(start), run) && i < |run| && run[i] == StartCron(k, listed)
    ensures
      var s := Final(Init(start), run);
      k in s.crons && s.crons[k].listed == listed && (Untouched(s, k, b) <==> b in listed && UntouchedFrom(run, i, b))
  {
    LegalPrefix(Init(start), run, i);
    RunKeepsInv(Init(start), run[..i]);
    var s, tail := Final(Init(start), run[..i]), run[i..];
    assert run[..i] + tail == run;
    JoinRuns(Init(start), run[..i], tail);
    assert tail[0] == run[i];
    var t := Next(s, tail[0]);
    ListStays(t, tail[1..], k);
    WrittenIsOfRun(t, tail[1..], b, s.count);
    assert tail[1..] == run[i + 1..];
    UntouchedRest(run, i, b);
  }

  lemma UntouchedRest(run: seq<Step>, i: nat, b: BackendId)
    requires i < |run| && !Touches(run[i], b)
    ensures UntouchedFrom(run, i, b) <==> UntouchedFrom(run[i + 1..], 0, b)
  {
    var rest := run[i + 1..];
    assert forall m :: 0 <= m < |rest| ==> rest[m] == run[i + 1 + m];
    assert forall m :: i + 1 <= m < |run| ==> run[m] == rest[m - i - 1];
  }
}
