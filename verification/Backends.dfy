/** Backend definitions and trackers of app/store/store.go: routing by longest path prefix,
    freshness by the clock, and clean-up. Times are in seconds. */
module Backends {
  import opened Basics

  const BACKEND_TIMEOUT := 300
  const ONE_HOUR := 3600
  const SHARED_BACKEND_USER := "allUsers"
  const MULTI_OP_SIZE_LIMIT := 500

  /** `parseBackend` refuses a definition whose ID is empty. */
  type BackendId = s: string | s != "" witness "b"

  datatype Backend = Backend(id: BackendId, backendUser: string, endUser: string, pathPrefixes: seq<string>)

  // ---------------------------------------------------------------- longest-prefix match

  predicate Matches(path: string, backends: seq<Backend>, i: int, j: int) {
    0 <= i < |backends| && 0 <= j < |backends[i].pathPrefixes| && backends[i].pathPrefixes[j] <= path
  }

  /** Prefix `j` of backend `i` matches, none that matches is longer, and none that comes earlier
      in the list is as long. */
  ghost predicate FirstLongest(path: string, backends: seq<Backend>, i: int, j: int) {
    && Matches(path, backends, i, j)
    && (forall k, m :: Matches(path, backends, k, m) ==>
          |backends[k].pathPrefixes[m]| <= |backends[i].pathPrefixes[j]|)
    && (forall k, m ::
          Matches(path, backends, k, m) && |backends[k].pathPrefixes[m]| == |backends[i].pathPrefixes[j]| ==>
          i < k || (i == k && j <= m))
  }

  /** The specification of `mostSpecificMatchingBackend`. */
  ghost function BestMatch(path: string, backends: seq<Backend>): Option<BackendId>
  {
    if exists i, j :: FirstLongest(path, backends, i, j)
    then var i, j :| FirstLongest(path, backends, i, j); Some(backends[i].id)
    else None
  }

  lemma BestMatchIs(path: string, backends: seq<Backend>, i: int, j: int)
    requires FirstLongest(path, backends, i, j)
    ensures BestMatch(path, backends) == Some(backends[i].id)
  {
    forall k, m | FirstLongest(path, backends, k, m) ensures k == i {
    }
  }

  /** Everything at or before position (`i`, `j`) in reading order, `j` excluded. */
  predicate Scanned(i: int, j: int, k: int, m: int) {
    k < i || (k == i && m < j)
  }

  /** The loop's two variables after it has scanned everything before (`i`, `j`). */
  ghost predicate BestSoFar(path: string, backends: seq<Backend>, i: int, j: int, closest: string, longest: string) {
    if closest == "" then forall k, m :: Matches(path, backends, k, m) ==> !Scanned(i, j, k, m)
    else exists bi, bj :: BestAt(path, backends, i, j, bi, bj, closest, longest)
  }

  ghost predicate BestAt(path: string, backends: seq<Backend>, i: int, j: int, bi: int, bj: int,
                         closest: string, longest: string)
  {
    && Matches(path, backends, bi, bj) && Scanned(i, j, bi, bj)
    && closest == backends[bi].id && longest == backends[bi].pathPrefixes[bj]
    && (forall k, m :: Matches(path, backends, k, m) && Scanned(i, j, k, m) ==>
          |backends[k].pathPrefixes[m]| <= |longest|)
    && (forall k, m ::
          Matches(path, backends, k, m) && Scanned(i, j, k, m) && |backends[k].pathPrefixes[m]| == |longest| ==>
          bi < k || (bi == k && bj <= m))
  }

  method MostSpecificMatchingBackend(path: string, backends: seq<Backend>) returns (r: Option<BackendId>)
    ensures r == BestMatch(path, backends)
    ensures r == None <==> forall i, j :: !Matches(path, backends, i, j)
  {
    var closestMatch := "";
    var longestMatchingPath := "";
    for i := 0 to |backends|
      invariant BestSoFar(path, backends, i, 0, closestMatch, longestMatchingPath)
    {
      var b := backends[i];
      for j := 0 to |b.pathPrefixes|
        invariant BestSoFar(path, backends, i, j, closestMatch, longestMatchingPath)
      {
        var p := b.pathPrefixes[j];
        ghost var closest, longest := closestMatch, longestMatchingPath;
        if p <= path {
          if closestMatch == "" || |p| > |longestMatchingPath| {
            longestMatchingPath := p;
            closestMatch := b.id;
          }
        }
        ScanOne(path, backends, i, j, closest, longest);
      }
      NextRow(path, backends, i, closestMatch, longestMatchingPath);
    }
    if closestMatch == "" {
      r := None;
    } else {
      r := Some(closestMatch);
      ghost var bi, bj :| BestAt(path, backends, |backends|, 0, bi, bj, closestMatch, longestMatchingPath);
      assert FirstLongest(path, backends, bi, bj);
      BestMatchIs(path, backends, bi, bj);
    }
  }

  lemma ScanOne(path: string, backends: seq<Backend>, i: nat, j: nat, closest: string, longest: string)
    requires i < |backends| && j < |backends[i].pathPrefixes|
    requires BestSoFar(path, backends, i, j, closest, longest)
    ensures
      var p := backends[i].pathPrefixes[j];
      if p <= path && (closest == "" || |p| > |longest|) then BestSoFar(path, backends, i, j + 1, backends[i].id, p)
      else BestSoFar(path, backends, i, j + 1, closest, longest)
  {
    var p := backends[i].pathPrefixes[j];
    if p <= path && (closest == "" || |p| > |longest|) {
      assert Matches(path, backends, i, j);
      assert BestAt(path, backends, i, j + 1, i, j, backends[i].id, p);
    } else if closest != "" {
      var bi, bj :| BestAt(path, backends, i, j, bi, bj, closest, longest);
      assert BestAt(path, backends, i, j + 1, bi, bj, closest, longest);
    }
  }

  lemma NextRow(path: string, backends: seq<Backend>, i: nat, closest: string, longest: string)
    requires i < |backends| && BestSoFar(path, backends, i, |backends[i].pathPrefixes|, closest, longest)
    ensures BestSoFar(path, backends, i + 1, 0, closest, longest)
  {
    var n := |backends[i].pathPrefixes|;
    if closest != "" {
      var bi, bj :| BestAt(path, backends, i, n, bi, bj, closest, longest);
      assert BestAt(path, backends, i + 1, 0, bi, bj, closest, longest);
    }
  }

  // ---------------------------------------------------------------- lookup

  type Trackers = map<BackendId, int>

  /** `hasBackend`. */
  predicate HasBackend(trackers: Trackers, now: int, b: BackendId) {
    b in trackers && now - trackers[b] < BACKEND_TIMEOUT
  }

  /** The specification of `LookupBackend`: the user's own backends first, the shared ones only if
      none of the user's matches at all. */
  ghost function Lookup(path: string, own: seq<Backend>, shared: seq<Backend>, trackers: Trackers, now: int)
    : Option<BackendId>
  {
    var best := if BestMatch(path, own).Some? then BestMatch(path, own) else BestMatch(path, shared);
    if best.Some? && HasBackend(trackers, now, best.value) then best else None
  }

  method LookupBackend(path: string, own: seq<Backend>, shared: seq<Backend>, trackers: Trackers, now: int)
    returns (r: Option<BackendId>)
    ensures r == Lookup(path, own, shared, trackers, now)
  {
    var best := MostSpecificMatchingBackend(path, own);
    if best == None {
      best := MostSpecificMatchingBackend(path, shared);
      if best == None {
        return None;
      }
    }
    if HasBackend(trackers, now, best.value) {
      return best;
    }
    return None;
  }

  // ---------------------------------------------------------------- runs with a clock

  /** The latest write to a backend's tracker, with the clock reading it was made from. */
  datatype Event = Added(read: int) | Polled(read: int) | Deleted

  /** `number` counts tracker writes and deletions over all backends. */
  datatype Latest = Latest(event: Event, number: nat)

  /** What a clean-up run listed, when, and after how many tracker writes. */
  datatype Cron = Cron(at: int, asOf: nat, listed: set<BackendId>)

  datatype State = State(
    now: int,
    definitions: map<BackendId, Backend>,
    trackers: Trackers,
    latest: map<BackendId, Latest>,
    count: nat,
    crons: map<nat, Cron>)

  /** A clock reading may be older than the write it goes into, but not newer. */
  datatype Step =
    | Tick(seconds: nat)
    | Poll(b: BackendId, read: int)
    | AddTracker(b: BackendId, read: int)
    | AddDefinition(definition: Backend)
    | Delete(b: BackendId)
    | StartCron(cron: nat, listed: set<BackendId>)
    | CronDelete(cron: nat, b: BackendId)

  function Init(now: int): State { State(now, map[], map[], map[], 0, map[]) }

  /** What `listOldBackends` selects from; it returns at most 500 of them. */
  function OldBackends(s: State): set<BackendId> {
    set b | b in s.trackers && s.trackers[b] < s.now - ONE_HOUR
  }

  predicate Enabled(s: State, a: Step) {
    match a
    case Poll(_, read) => read <= s.now
    case AddTracker(_, read) => read <= s.now
    case StartCron(k, listed) => k !in s.crons && listed <= OldBackends(s) && |listed| <= MULTI_OP_SIZE_LIMIT
    case CronDelete(k, b) => k in s.crons && b in s.crons[k].listed
    case _ => true
  }

  function Track(s: State, b: BackendId, seen: int, event: Event): State {
    s.(trackers := s.trackers[b := seen], latest := s.latest[b := Latest(event, s.count)], count := s.count + 1)
  }

  function Remove(s: State, b: BackendId): State {
    s.(definitions := s.definitions - {b}, trackers := s.trackers - {b},
       latest := s.latest[b := Latest(Deleted, s.count)], count := s.count + 1)
  }

  function Next(s: State, a: Step): State
    requires Enabled(s, a)
  {
    match a
    case Tick(d) => s.(now := s.now + d)
    case Poll(b, read) => Track(s, b, read, Polled(read))
    case AddTracker(b, read) => Track(s, b, read - BACKEND_TIMEOUT, Added(read))
    case AddDefinition(d) => s.(definitions := s.definitions[d.id := d])
    case Delete(b) => Remove(s, b)
    case StartCron(k, listed) => s.(crons := s.crons[k := Cron(s.now, s.count, listed)])
    case CronDelete(k, b) => Remove(s, b)
  }

  predicate Legal(s: State, run: seq<Step>)
    decreases |run|
  {
    run == [] || (Enabled(s, run[0]) && Legal(Next(s, run[0]), run[1..]))
  }

  function Final(s: State, run: seq<Step>): State
    requires Legal(s, run)
    decreases |run|
  {
    if run == [] then s else Final(Next(s, run[0]), run[1..])
  }

  /** The tracker of a backend says what the latest event left in it. */
  predicate TrackerInv(s: State, b: BackendId) {
    if b !in s.latest then b !in s.trackers
    else match s.latest[b].event
      case Deleted => b !in s.trackers
      case Polled(read) => read <= s.now && b in s.trackers && s.trackers[b] == read
      case Added(read) => read <= s.now && b in s.trackers && s.trackers[b] == read - BACKEND_TIMEOUT
  }

  /** A backend that a clean-up run listed, and whose tracker has not been written since. */
  predicate Untouched(s: State, k: nat, b: BackendId) {
    k in s.crons && b in s.crons[k].listed && (b in s.latest ==> s.latest[b].number < s.crons[k].asOf)
  }

  ghost predicate CronInv(s: State) {
    && (forall b :: b in s.latest ==> s.latest[b].number < s.count)
    && (forall k :: k in s.crons ==> s.crons[k].at <= s.now && s.crons[k].asOf <= s.count)
    && (forall k, b :: Untouched(s, k, b) ==> b in s.trackers && s.trackers[b] < s.crons[k].at - ONE_HOUR)
  }

  ghost predicate Inv(s: State) {
    (forall b :: TrackerInv(s, b)) && CronInv(s)
  }

  lemma StepKeepsTrackers(s: State, a: Step)
    requires (forall b :: TrackerInv(s, b)) && Enabled(s, a)
    ensures forall b :: TrackerInv(Next(s, a), b)
  {
    forall b ensures TrackerInv(Next(s, a), b) {
      assert TrackerInv(s, b);
    }
  }

  lemma StepKeepsCron(s: State, a: Step)
    requires CronInv(s) && Enabled(s, a)
    ensures CronInv(Next(s, a))
  {
    var t := Next(s, a);
    forall k, b | Untouched(t, k, b) ensures b in t.trackers && t.trackers[b] < t.crons[k].at - ONE_HOUR {
      if k in s.crons {
        assert Untouched(s, k, b);
      }
    }
  }

  lemma {:induction false} RunKeepsInv(s: State, run: seq<Step>)
    requires Inv(s) && Legal(s, run)
    ensures Inv(Final(s, run))
    decreases |run|
  {
    if run != [] {
      StepKeepsTrackers(s, run[0]);
      StepKeepsCron(s, run[0]);
      RunKeepsInv(Next(s, run[0]), run[1..]);
    }
  }

  /** A backend counts as live exactly when the latest write to its tracker, with no add or delete
      after it, is a poll that read the clock less than five minutes ago. */
  lemma LiveMeansPolledRecently(start: int, run: seq<Step>, b: BackendId)
    requires Legal(Init(start), run)
    ensures
      var s := Final(Init(start), run);
      HasBackend(s.trackers, s.now, b) <==>
      b in s.latest && s.latest[b].event.Polled? && s.now - s.latest[b].event.read < BACKEND_TIMEOUT
  {
    RunKeepsInv(Init(start), run);
    assert TrackerInv(Final(Init(start), run), b);
  }

  /** `list` holds the definitions for `user`, each once, in some order. */
  ghost predicate Enumerates(list: seq<Backend>, s: State, user: string) {
    && (forall i :: 0 <= i < |list| ==>
          list[i].id in s.definitions && s.definitions[list[i].id] == list[i] && list[i].endUser == user)
    && (forall b :: b in s.definitions && s.definitions[b].endUser == user ==> s.definitions[b] in list)
  }

  /** Nothing defined for `user` has a longer matching prefix than `b` has. */
  ghost predicate IsLongestFor(s: State, user: string, path: string, b: BackendId) {
    && b in s.definitions && s.definitions[b].endUser == user
    && exists p :: p in s.definitions[b].pathPrefixes && p <= path &&
         forall c, q ::
           (c in s.definitions && s.definitions[c].endUser == user && q in s.definitions[c].pathPrefixes
             && q <= path) ==>
           |q| <= |p|
  }

  ghost predicate AnyMatch(s: State, user: string, path: string) {
    exists c, q :: c in s.definitions && s.definitions[c].endUser == user && q in s.definitions[c].pathPrefixes
      && q <= path
  }

  /** `LookupBackend` over runs. Its two queries and its tracker read happen at three moments, with
      other steps in between: a backend is returned only if it has a longest matching prefix among
      the user's backends, or among the shared ones when none of the user's matched, and only if it
      polled within five minutes and after its latest add or delete. */
  lemma LookupIsLongestAndLive(start: int, run: seq<Step>, more: seq<Step>, yetMore: seq<Step>,
                               user: string, path: string, own: seq<Backend>, shared: seq<Backend>, b: BackendId)
    requires Legal(Init(start), run)
    requires Legal(Final(Init(start), run), more)
    requires Legal(Final(Final(Init(start), run), more), yetMore)
    requires Enumerates(own, Final(Init(start), run), user)
    requires Enumerates(shared, Final(Final(Init(start), run), more), SHARED_BACKEND_USER)
    requires
      var s := Final(Final(Final(Init(start), run), more), yetMore);
      Lookup(path, own, shared, s.trackers, s.now) == Some(b)
    ensures
      var s1 := Final(Init(start), run);
      var s2 := Final(s1, more);
      var s3 := Final(s2, yetMore);
      && (if AnyMatch(s1, user, path) then IsLongestFor(s1, user, path, b)
        else IsLongestFor(s2, SHARED_BACKEND_USER, path, b))
      && b in s3.latest && s3.latest[b].event.Polled? && s3.now - s3.latest[b].event.read < BACKEND_TIMEOUT
  {
    var s1 := Final(Init(start), run);
    var s2 := Final(s1, more);
    var s3 := Final(s2, yetMore);
    RunKeepsInv(Init(start), run);
    RunKeepsInv(s1, more);
    RunKeepsInv(s2, yetMore);
    assert TrackerInv(s3, b);
    BestOfEnumeration(s1, own, user, path);
    BestOfEnumeration(s2, shared, SHARED_BACKEND_USER, path);
  }

  lemma BestOfEnumeration(s: State, list: seq<Backend>, user: string, path: string)
    requires Enumerates(list, s, user)
    ensures BestMatch(path, list).Some? ==> IsLongestFor(s, user, path, BestMatch(path, list).value)
    ensures BestMatch(path, list).Some? <==> AnyMatch(s, user, path)
  {
    if BestMatch(path, list).Some? {
      var i, j :| FirstLongest(path, list, i, j) && BestMatch(path, list) == Some(list[i].id);
      var p := list[i].pathPrefixes[j];
      forall c, q | c in s.definitions && s.definitions[c].endUser == user && q in s.definitions[c].pathPrefixes
        && q <= path
        ensures |q| <= |p|
      {
        var k :| 0 <= k < |list| && list[k] == s.definitions[c];
        var m :| 0 <= m < |list[k].pathPrefixes| && list[k].pathPrefixes[m] == q;
        assert Matches(path, list, k, m);
      }
      assert p in s.definitions[list[i].id].pathPrefixes;
    } else if AnyMatch(s, user, path) {
      var c, q :| c in s.definitions && s.definitions[c].endUser == user && q in s.definitions[c].pathPrefixes
        && q <= path;
      var k :| 0 <= k < |list| && list[k] == s.definitions[c];
      var m :| 0 <= m < |list[k].pathPrefixes| && list[k].pathPrefixes[m] == q;
      assert Matches(path, list, k, m);
      LongestExists(path, list, k, m);
    }
  }

  /** If anything matches, something is the first longest match. */
  lemma {:induction false} LongestExists(path: string, list: seq<Backend>, k: int, m: int)
    requires Matches(path, list, k, m)
    ensures exists i, j :: FirstLongest(path, list, i, j)
    decreases |path| - |list[k].pathPrefixes[m]|, k, m
  {
    if !FirstLongest(path, list, k, m) {
      if k', m' :| Matches(path, list, k', m') && |list[k'].pathPrefixes[m']| > |list[k].pathPrefixes[m]| {
        LongestExists(path, list, k', m');
      } else {
        var k', m' :| Matches(path, list, k', m') && |list[k'].pathPrefixes[m']| == |list[k].pathPrefixes[m]|
                      && !(k < k' || (k == k' && m <= m'));
        LongestExists(path, list, k', m');
      }
    }
  }

  // ---------------------------------------------------------------- the clean-up of backends

  const FIFTY_FIVE_MINUTES := 3300

  /** The backend was added or polled within the past 55 minutes. */
  predicate IsRecent(s: State, b: BackendId) {
    b in s.latest && !s.latest[b].event.Deleted? && s.now - s.latest[b].event.read < FIFTY_FIVE_MINUTES
  }

  /** A clean-up run does not remove a backend that was added or polled within the past 55 minutes,
      if nothing wrote that backend's tracker since the run made its list. */
  lemma CronSparesRecentBackends(start: int, run: seq<Step>, k: nat, b: BackendId)
    requires Legal(Init(start), run) && Enabled(Final(Init(start), run), CronDelete(k, b))
    requires Untouched(Final(Init(start), run), k, b)
    ensures !IsRecent(Final(Init(start), run), b)
  {
    RunKeepsInv(Init(start), run);
    assert TrackerInv(Final(Init(start), run), b);
  }

  /** A tracker write with a clock reading of the past 55 minutes landed after the run made its list,
      and nothing was written there since. */
  predicate TouchedRecently(s: State, k: nat, b: BackendId)
    requires k in s.crons
  {
    && b in s.latest && s.latest[b].number >= s.crons[k].asOf && !s.latest[b].event.Deleted?
    && s.now - s.latest[b].event.read < FIFTY_FIVE_MINUTES
  }

  /** The backend is not deleted, the run deletes within 55 minutes of listing, and a tracker write that
      landed after the listing did not read the clock before it. */
  predicate Prompt(s: State, k: nat, b: BackendId)
    requires k in s.crons
  {
    && s.now - s.crons[k].at < FIFTY_FIVE_MINUTES
    && b in s.latest && !s.latest[b].event.Deleted?
    && (s.latest[b].number >= s.crons[k].asOf ==> s.latest[b].event.read >= s.crons[k].at)
  }

  /** Exactly when a clean-up run removes a recent backend: only a write that landed after the list was
      made counts, whatever was written before; and for a prompt run, any such write does. */
  lemma CronRemovesRecentExactlyWhenTouched(start: int, run: seq<Step>, k: nat, b: BackendId)
    requires Legal(Init(start), run) && Enabled(Final(Init(start), run), CronDelete(k, b))
    ensures
      var s := Final(Init(start), run);
      && (IsRecent(s, b) <==> TouchedRecently(s, k, b))
      && (Prompt(s, k, b) ==> (IsRecent(s, b) <==> !Untouched(s, k, b)))
  {
    RunKeepsInv(Init(start), run);
    assert TrackerInv(Final(Init(start), run), b);
  }

  /** The list is not checked again: a backend that polls after it was listed is still removed. */
  lemma CronCanRemoveLiveBackend()
    ensures exists run, k, b ::
              && Legal(Init(0), run) && Enabled(Final(Init(0), run), CronDelete(k, b))
              && HasBackend(Final(Init(0), run).trackers, Final(Init(0), run).now, b)
  {
    var b: BackendId := "b";
    var steps := [Poll(b, 0), Tick(4000), StartCron(0, {b}), Poll(b, 4000)];
    var s1 := Next(Init(0), steps[0]);
    var s2 := Next(s1, steps[1]);
    var s3 := Next(s2, steps[2]);
    assert b in s3.crons[0].listed;
    var s4 := Next(s3, steps[3]);
    assert steps[1..][1..] == steps[2..] && steps[2..][1..] == steps[3..] && steps[3..][1..] == [];
    assert Legal(s4, []) && Final(s4, []) == s4;
    assert Legal(s3, steps[3..]) && Final(s3, steps[3..]) == s4;
    assert Legal(s2, steps[2..]) && Final(s2, steps[2..]) == s4;
    assert Legal(s1, steps[1..]) && Final(s1, steps[1..]) == s4;
    assert Legal(Init(0), steps) && Final(Init(0), steps) == s4;
    assert Enabled(s4, CronDelete(0, b)) && HasBackend(s4.trackers, s4.now, b);
  }

  // ---------------------------------------------------------------- the clean-up of requests

  datatype RequestKey = RequestKey(backend: string, id: string)

  type Requests = map<RequestKey, int>

  /** The stored requests of `backend` that started before `cutoff`; the value is the start time. */
  function Expired(requests: Requests, backend: string, cutoff: int): set<RequestKey> {
    set k | k in requests && k.backend == backend && requests[k] < cutoff
  }

  lemma {:induction false} SubsetOfSize<T>(all: set<T>, n: nat) returns (some: set<T>)
    ensures some <= all && |some| <= n && (|some| == n || some == all)
  {
    if n == 0 || all == {} {
      some := {};
    } else {
      var x :| x in all;
      some := SubsetOfSize(all - {x}, n - 1);
      some := some + {x};
    }
  }

  class RequestStore {
    var requests: Requests

    constructor ()
      ensures requests == map[]
    {
      requests := map[];
    }

    /** The keys-only query of `deleteRequestsForBackend`. */
    method Query(backend: string, cutoff: int) returns (keys: set<RequestKey>)
      ensures IsPage(keys, requests, backend, cutoff)
    {
      ghost var page := SubsetOfSize(Expired(requests, backend, cutoff), MULTI_OP_SIZE_LIMIT);
      assert IsPage(page, requests, backend, cutoff);
      keys :| IsPage(keys, requests, backend, cutoff);
    }

    /** `DeleteMulti` of a page, and what other writers put before the next query. */
    method DeletePage(keys: set<RequestKey>, inserts: nat -> Requests, round: nat, backend: string, cutoff: int,
                      ghost was: Requests)
      requires Cleaning(was, requests, inserts, round, backend, cutoff)
      requires keys != {} && IsPage(keys, requests, backend, cutoff) && NoneExpired(inserts(round + 1), backend, cutoff)
      modifies this
      ensures Cleaning(was, requests, inserts, round + 1, backend, cutoff)
      ensures round + 1 <= PagesOf(was, backend, cutoff)
    {
      NextRound(was, requests, keys, inserts, round, backend, cutoff);
      requests := (requests - keys) + inserts(round + 1);
    }

    /** `deleteRequestsForBackend`. Other writers may put requests between its operations:
        `inserts(i)` lands before query number `i`. `healthy` is the number of datastore
        operations that would succeed before one fails, which ends the call with an error; nothing else
        does. The operations are queries and deletions in turn, and there is never more than one query
        for each page, and a last one. */
    method DeleteRequestsForBackend(backend: string, cutoff: int, inserts: nat -> Requests, healthy: nat)
      returns (ok: bool, ghost queries: nat)
      requires forall i: nat :: NoneExpired(inserts(i), backend, cutoff)
      modifies this
      ensures 0 < queries <= 1 + PagesOf(old(requests), backend, cutoff)
      ensures if ok then healthy >= 2 * queries - 1 else 2 * queries - 2 <= healthy <= 2 * queries - 1
      ensures !ok && healthy == 2 * queries - 1 ==> !NoneExpired(requests, backend, cutoff)
      ensures ok ==> requests == (old(requests) - Expired(old(requests), backend, cutoff)) + Merged(inserts, queries)
      ensures ok ==> NoneExpired(requests, backend, cutoff)
      ensures RemovedOnlyExpired(old(requests), requests, Merged(inserts, queries), backend, cutoff)
    {
      ghost var was := requests;
      requests := requests + inserts(0);
      FirstRound(was, inserts, backend, cutoff);
      queries := 1;
      if healthy == 0 {
        return false, queries;
      }
      var round := 0;
      var keys := Query(backend, cutoff);
      while keys != {}
        invariant IsPage(keys, requests, backend, cutoff)
        invariant Cleaning(was, requests, inserts, round, backend, cutoff)
        invariant round >= 0 && queries == round + 1 && healthy > 2 * round
        decreases PagesOf(was, backend, cutoff) - round
      {
        if healthy == 2 * round + 1 {
          CleaningIsBounded(was, requests, keys, inserts, round, backend, cutoff);
          return false, queries;
        }
        DeletePage(keys, inserts, round, backend, cutoff, was);
        round := round + 1;
        queries := round + 1;
        if healthy == 2 * round {
          return false, queries;
        }
        keys := Query(backend, cutoff);
      }
      LastRound(was, requests, inserts, round, backend, cutoff);
      ok := true;
    }
  }

  /** What other writers have put before the first `n` queries. */
  function Merged(inserts: nat -> Requests, n: nat): Requests
  {
    if n == 0 then map[] else Merged(inserts, n - 1) + inserts(n - 1)
  }

  ghost predicate RemovedOnlyExpired(was: Requests, now: Requests, written: Requests, backend: string, cutoff: int) {
    exists gone :: OnlyGone(was, now, gone, written, backend, cutoff)
  }

  /** The state after the query that ends a round. */
  ghost predicate Cleaning(was: Requests, now: Requests, inserts: nat -> Requests, round: nat,
                           backend: string, cutoff: int)
  {
    && RemovedOnlyExpired(was, now, Merged(inserts, round + 1), backend, cutoff)
    && round + PagesOf(now, backend, cutoff) <= PagesOf(was, backend, cutoff)
  }

  lemma FirstRound(was: Requests, inserts: nat -> Requests, backend: string, cutoff: int)
    requires NoneExpired(inserts(0), backend, cutoff)
    ensures Cleaning(was, was + inserts(0), inserts, 0, backend, cutoff)
  {
    assert Merged(inserts, 1) == inserts(0) by {
      assert Merged(inserts, 0) == map[];
    }
    assert OnlyGone(was, was + inserts(0), {}, inserts(0), backend, cutoff);
    InsertsExpireNothing(was, inserts(0), backend, cutoff);
  }

  lemma NextRound(was: Requests, now: Requests, keys: set<RequestKey>, inserts: nat -> Requests, round: nat,
                  backend: string, cutoff: int)
    requires Cleaning(was, now, inserts, round, backend, cutoff)
    requires keys != {} && IsPage(keys, now, backend, cutoff) && NoneExpired(inserts(round + 1), backend, cutoff)
    ensures Cleaning(was, (now - keys) + inserts(round + 1), inserts, round + 1, backend, cutoff)
    ensures |Expired((now - keys) + inserts(round + 1), backend, cutoff)| < |Expired(now, backend, cutoff)|
    ensures round + 1 <= PagesOf(was, backend, cutoff)
  {
    var written, more := Merged(inserts, round + 1), inserts(round + 1);
    var gone :| OnlyGone(was, now, gone, written, backend, cutoff);
    OneMorePage(was, now, gone, written, keys, more, backend, cutoff);
    PageShrinks(now, keys, more, backend, cutoff);
    assert Merged(inserts, round + 2) == written + more;
    assert OnlyGone(was, (now - keys) + more, gone + keys, written + more, backend, cutoff);
  }

  lemma CleaningIsBounded(was: Requests, now: Requests, keys: set<RequestKey>, inserts: nat -> Requests, round: nat,
                          backend: string, cutoff: int)
    requires Cleaning(was, now, inserts, round, backend, cutoff) && keys != {} && IsPage(keys, now, backend, cutoff)
    ensures round + 1 <= PagesOf(was, backend, cutoff) && !NoneExpired(now, backend, cutoff)
  {
    PageShrinks(now, keys, map[], backend, cutoff);
  }

  lemma LastRound(was: Requests, now: Requests, inserts: nat -> Requests, round: nat, backend: string, cutoff: int)
    requires Cleaning(was, now, inserts, round, backend, cutoff) && Expired(now, backend, cutoff) == {}
    ensures now == (was - Expired(was, backend, cutoff)) + Merged(inserts, round + 1)
    ensures round <= PagesOf(was, backend, cutoff)
  {
    var gone :| OnlyGone(was, now, gone, Merged(inserts, round + 1), backend, cutoff);
    AllGone(was, now, gone, Merged(inserts, round + 1), backend, cutoff);
  }

  predicate NoneExpired(requests: Requests, backend: string, cutoff: int) { Expired(requests, backend, cutoff) == {} }

  /** How many pages it takes to list `n` requests. */
  function Pages(n: nat): nat { (n + MULTI_OP_SIZE_LIMIT - 1) / MULTI_OP_SIZE_LIMIT }

  function PagesOf(requests: Requests, backend: string, cutoff: int): nat {
    Pages(|Expired(requests, backend, cutoff)|)
  }

  lemma PagesAreOfFiveHundred(n: nat)
    ensures 500 * (Pages(n) - 1) < n <= 500 * Pages(n) || n == Pages(n) == 0
  {
  }

  lemma PagesGrow(m: nat, n: nat)
    requires m <= n
    ensures Pages(m) <= Pages(n)
  {
  }

  lemma InsertsExpireNothing(requests: Requests, more: Requests, backend: string, cutoff: int)
    requires Expired(more, backend, cutoff) == {}
    ensures |Expired(requests + more, backend, cutoff)| <= |Expired(requests, backend, cutoff)|
    ensures PagesOf(requests + more, backend, cutoff) <= PagesOf(requests, backend, cutoff)
  {
    var before, after := Expired(requests, backend, cutoff), Expired(requests + more, backend, cutoff);
    forall k | k in after ensures k in before {
      assert k in more ==> k in Expired(more, backend, cutoff);
    }
    SubsetSize(after, before);
    PagesGrow(|after|, |before|);
  }

  /** From `was` to `now` only the expired requests `gone` were removed, and `written` was put on
      top, none of it expired. */
  ghost predicate OnlyGone(was: Requests, now: Requests, gone: set<RequestKey>, written: Requests,
                           backend: string, cutoff: int)
  {
    gone <= Expired(was, backend, cutoff) && now == (was - gone) + written && Expired(written, backend, cutoff) == {}
  }

  lemma OneMorePage(was: Requests, now: Requests, gone: set<RequestKey>, written: Requests,
                    keys: set<RequestKey>, more: Requests, backend: string, cutoff: int)
    requires OnlyGone(was, now, gone, written, backend, cutoff)
    requires keys <= Expired(now, backend, cutoff) && Expired(more, backend, cutoff) == {}
    ensures OnlyGone(was, (now - keys) + more, gone + keys, written + more, backend, cutoff)
  {
    forall k | k in keys ensures k !in written && k in Expired(was, backend, cutoff) {
      assert k in written ==> k in Expired(written, backend, cutoff);
    }
    assert forall k :: k in written + more ==> k !in Expired(written + more, backend, cutoff) by {
      forall k | k in written + more ensures k !in Expired(written + more, backend, cutoff) {
        assert k in more ==> k !in Expired(more, backend, cutoff);
        assert k in written ==> k !in Expired(written, backend, cutoff);
      }
    }
    assert (now - keys) + more == (was - (gone + keys)) + (written + more);
  }

  lemma AllGone(was: Requests, now: Requests, gone: set<RequestKey>, written: Requests, backend: string, cutoff: int)
    requires OnlyGone(was, now, gone, written, backend, cutoff) && Expired(now, backend, cutoff) == {}
    ensures now == (was - Expired(was, backend, cutoff)) + written
  {
    forall k | k in Expired(was, backend, cutoff) && k !in gone ensures k in written {
      assert k !in written ==> k in Expired(now, backend, cutoff);
    }
  }

  /** A possible answer to the keys-only query with its limit: all that match, or 500 of them. */
  predicate IsPage(keys: set<RequestKey>, requests: Requests, backend: string, cutoff: int) {
    var all := Expired(requests, backend, cutoff);
    keys <= all && |keys| <= MULTI_OP_SIZE_LIMIT && (|keys| == MULTI_OP_SIZE_LIMIT || keys == all)
  }

  lemma DeletionShrinks(requests: Requests, keys: set<RequestKey>, more: Requests, backend: string, cutoff: int)
    requires keys <= Expired(requests, backend, cutoff) && Expired(more, backend, cutoff) == {}
    ensures |Expired((requests - keys) + more, backend, cutoff)| <= |Expired(requests, backend, cutoff)| - |keys|
  {
    var before := Expired(requests, backend, cutoff);
    InsertsExpireNothing(requests - keys, more, backend, cutoff);
    assert Expired(requests - keys, backend, cutoff) == before - keys;
    assert |before - keys| == |before| - |keys|;
  }

  /** Deleting a page leaves fewer expired requests and one page less of them. */
  lemma PageShrinks(requests: Requests, keys: set<RequestKey>, more: Requests, backend: string, cutoff: int)
    requires keys != {} && IsPage(keys, requests, backend, cutoff) && Expired(more, backend, cutoff) == {}
    ensures |Expired((requests - keys) + more, backend, cutoff)| < |Expired(requests, backend, cutoff)|
    ensures PagesOf((requests - keys) + more, backend, cutoff) + 1 <= PagesOf(requests, backend, cutoff)
  {
    DeletionShrinks(requests, keys, more, backend, cutoff);
    var before, after := |Expired(requests, backend, cutoff)|, |Expired((requests - keys) + more, backend, cutoff)|;
    if |keys| == MULTI_OP_SIZE_LIMIT {
      PagesGrow(after, before - MULTI_OP_SIZE_LIMIT);
    } else {
      assert after == 0;
    }
  }
}
