/** The App Engine proxy against the run itself: what its reads return is what the run's own calls submitted
    and posted, and whatever is submitted can be answered. */
module AppRuns {
  import opened Basics
  import opened Quoting
  import opened BlobStore
  import opened AppProxy
  import opened AppReads
  import opened AppMixing
  import opened AppCompletion

  // ---------------------------------------------------------------- records and the calls that made them

  ghost predicate SubmissionsRecorded(run: seq<Step>, s: State) {
    && (forall id, b, u, c, n :: OfCall(Submit(id, b, u, c, n)) in run ==>
          id in s.submissions && s.submissions[id] == Submission(b, u, c, n))
    && (forall id :: id in s.submissions ==>
          var m := s.submissions[id];
          OfCall(Submit(id, m.backend, m.user, m.contents, m.start)) in run)
  }

  ghost predicate RepliesRecorded(run: seq<Step>, s: State) {
    && (forall p, b, id, c :: OfCall(BeginReply(p, b, id, c)) in run ==>
          p in s.replies && s.replies[p] == Reply(b, id, c))
    && (forall p :: p in s.replies ==>
          OfCall(BeginReply(p, s.replies[p].backend, s.replies[p].id, s.replies[p].contents)) in run)
  }

  ghost predicate ListsRecorded(run: seq<Step>, s: State) {
    forall a, id :: a in run && a.OfCall? && a.call.List? && id in a.call.ids ==>
      Listing(a.call.backend, id) in s.listed
  }

  ghost predicate Recorded(run: seq<Step>, s: State) {
    SubmissionsRecorded(run, s) && RepliesRecorded(run, s) && ListsRecorded(run, s)
  }

  lemma CallIsRecorded(env: Env, run: seq<Step>, s: State, b: CallStep)
    requires Recorded(run, s) && CallEnabled(env, s, b)
    ensures Recorded(run + [OfCall(b)], CallNext(env, s, b))
  {
    var t := CallNext(env, s, b);
    match b
    case Submit(id, _, _, _, _) => assert forall i :: i in s.submissions ==> t.submissions[i] == s.submissions[i];
    case Await(_) =>
    case List(_, _) =>
    case BeginReply(p, _, _, _) => assert forall i :: i in s.replies ==> t.replies[i] == s.replies[i];
  }

  lemma OtherIsRecorded(run: seq<Step>, s: State, a: Step, t: State)
    requires Recorded(run, s) && !a.OfCall?
    requires t.submissions == s.submissions && t.replies == s.replies && t.listed == s.listed
    ensures Recorded(run + [a], t)
  {
  }

  lemma StepIsRecorded(env: Env, run: seq<Step>, s: State, a: Step)
    requires Recorded(run, s) && Enabled(env, s, a)
    ensures Recorded(run + [a], Next(env, s, a))
  {
    match a
    case OfCall(b) => CallIsRecorded(env, run, s, b);
    case OfRead(b) => ReadIsRecorded(env, run, s, b);
    case OfWrite(b) => WriteIsRecorded(env, run, s, b);
    case OfSystem(b) => SystemIsRecorded(env, run, s, b);
  }

  lemma ReadIsRecorded(env: Env, run: seq<Step>, s: State, b: ReadStep)
    requires Recorded(run, s) && ReadEnabled(s, b)
    ensures Recorded(run + [OfRead(b)], ReadNext(env, s, b))
  {
    OtherIsRecorded(run, s, OfRead(b), ReadNext(env, s, b));
  }

  lemma WriteIsRecorded(env: Env, run: seq<Step>, s: State, b: WriteStep)
    requires Recorded(run, s) && WriteEnabled(s, b)
    ensures Recorded(run + [OfWrite(b)], WriteNext(env, s, b))
  {
    OtherIsRecorded(run, s, OfWrite(b), WriteNext(env, s, b));
  }

  lemma SystemIsRecorded(env: Env, run: seq<Step>, s: State, b: SystemStep)
    requires Recorded(run, s)
    ensures Recorded(run + [OfSystem(b)], SystemNext(env, s, b))
  {
    OtherIsRecorded(run, s, OfSystem(b), SystemNext(env, s, b));
  }

  lemma {:induction false} StaysRecorded(env: Env, done: seq<Step>, s: State, run: seq<Step>)
    requires Recorded(done, s) && Legal(env, s, run)
    ensures Recorded(done + run, Final(env, s, run))
    decreases |run|
  {
    if run == [] {
      assert done + run == done;
    } else {
      StepIsRecorded(env, done, s, run[0]);
      StaysRecorded(env, done + [run[0]], Next(env, s, run[0]), run[1..]);
      assert (done + [run[0]]) + run[1..] == done + run;
    }
  }

  lemma RunIsRecorded(env: Env, run: seq<Step>)
    requires Legal(env, Init, run)
    ensures Recorded(run, Final(env, Init, run)) && Reaches(env, Init, Final(env, Init, run))
  {
    StaysRecorded(env, [], Init, run);
    assert [] + run == run;
    RunReaches(env, Init, run);
  }

  // ---------------------------------------------------------------- what is read is what was called

  predicate SameRequest(v: Value, r: Request) { v.OfRequest? && v.request.(completed := false) == r }

  /** Wherever the request of `id` is found, by a read, in the cache or in the store, it is `r`. */
  ghost predicate OnlyRequestIs(s: State, r: Request) {
    && (forall p ::
          Replier(p) in s.searches && s.searches[Replier(p)].id == r.id && HasFound(s.searches[Replier(p)]) ==>
          SameRequest(s.searches[Replier(p)].search.value, r))
    && (forall k :: k in s.store && s.store[k].of.OfRequest? && IdOf(s.store[k].of) == r.id ==>
          SameRequest(s.store[k].of, r) && s.store[k].bytes == BlobOf(r.contents, BlobName(r.id, RequestBlob)))
    && (forall k :: k in s.memcache && s.memcache[k].Cached? && s.memcache[k].value.OfRequest?
                    && IdOf(s.memcache[k].value) == r.id ==>
          SameRequest(s.memcache[k].value, r))
  }

  /** If the run submits a request, then every copy of it that there is, and whatever any reply reads for it,
      has just the backend, user, contents and start time that were submitted. */
  lemma RequestsAreAsSubmitted(env: Env, run: seq<Step>, id: GoString, b: GoString, u: GoString, c: Bytes, n: int)
    requires Legal(env, Init, run) && OfCall(Submit(id, b, u, c, n)) in run
    ensures OnlyRequestIs(Final(env, Init, run), Request(b, id, u, c, n, false))
  {
    RunIsRecorded(env, run);
    var s, r := Final(env, Init, run), Request(b, id, u, c, n, false);
    ReachedKeepsInv(env, Init, s);
    assert Submitted(id, s.submissions[id]) == r;
    forall p | Replier(p) in s.searches && s.searches[Replier(p)].id == id && HasFound(s.searches[Replier(p)])
      ensures SameRequest(s.searches[Replier(p)].search.value, r)
    {
      CachedReadsAgreeWithWrites(env, s, p);
    }
    CopiesAreTrue(env, s, id);
  }

  lemma CopiesAreTrue(env: Env, s: State, id: GoString)
    requires Inv(env, s) && id in s.submissions
    ensures forall k :: k in s.store && s.store[k].of.OfRequest? && IdOf(s.store[k].of) == id ==>
      && SameRequest(s.store[k].of, Submitted(id, s.submissions[id]))
      && s.store[k].bytes == BlobOf(s.submissions[id].contents, BlobName(id, RequestBlob))
    ensures forall k :: k in s.memcache && s.memcache[k].Cached? && s.memcache[k].value.OfRequest?
                        && IdOf(s.memcache[k].value) == id ==>
      SameRequest(s.memcache[k].value, Submitted(id, s.submissions[id]))
  {
    forall k | k in s.store && s.store[k].of.OfRequest? && IdOf(s.store[k].of) == id
      ensures SameRequest(s.store[k].of, Submitted(id, s.submissions[id]))
      ensures s.store[k].bytes == BlobOf(s.submissions[id].contents, BlobName(id, RequestBlob))
    {
      assert EntityInv(env, s, k, s.store[k]);
    }
    forall k | k in s.memcache && s.memcache[k].Cached? && s.memcache[k].value.OfRequest?
               && IdOf(s.memcache[k].value) == id
      ensures SameRequest(s.memcache[k].value, Submitted(id, s.submissions[id]))
    {
      assert EntryInv(env, s, k, s.memcache[k]);
    }
  }

  /** A response that fits one field, and any if all accepted replies agree, is one that the run posts, in
      those bytes, for the request that it is returned for and by the backend that this was submitted to. */
  lemma ResponseIsPostedInRun(env: Env, run: seq<Step>, id: GoString, b: GoString, u: GoString, c: Bytes, n: int,
                              x: Response)
    requires Legal(env, Init, run) && OfCall(Submit(id, b, u, c, n)) in run && HasReturned(Final(env, Init, run), id, x)
    requires |x.contents| < 1_000_000 || RepliesAgree(Final(env, Init, run), id)
    ensures OfCall(BeginReply(x.poster, b, id, x.contents)) in run
  {
    RunIsRecorded(env, run);
    ResponseComesFromOwnBackend(env, Final(env, Init, run), id, x);
  }

  // ---------------------------------------------------------------- agents that answer what they were listed

  /** Every reply in the run comes after a list that the run returned to this backend with this ID on it. */
  ghost predicate RepliesFollowLists(run: seq<Step>) {
    forall i :: 0 <= i < |run| && run[i].OfCall? && run[i].call.BeginReply? ==>
      exists m :: 0 <= m < i && Lists(run[m], run[i].call.backend, run[i].call.id)
  }

  predicate Lists(a: Step, backend: GoString, id: GoString) {
    a.OfCall? && a.call.List? && a.call.backend == backend && id in a.call.ids
  }

  lemma {:induction false} FollowingIsAnsweringListed(env: Env, done: seq<Step>, s: State, run: seq<Step>)
    requires Recorded(done, s) && Legal(env, s, run) && RepliesFollowLists(done + run)
    ensures AnswersOnlyListed(env, s, run)
    decreases |run|
  {
    if run != [] {
      var a := run[0];
      assert (done + run)[|done|] == a;
      if a.OfCall? && a.call.BeginReply? {
        var m :| 0 <= m < |done| && Lists((done + run)[m], a.call.backend, a.call.id);
        assert done[m] in done && done[m] == OfCall(List(a.call.backend, done[m].call.ids));
      }
      StepIsRecorded(env, done, s, a);
      assert (done + [a]) + run[1..] == done + run;
      FollowingIsAnsweringListed(env, done + [a], Next(env, s, a), run[1..]);
    }
  }

  /** If every reply of the run follows a list with its ID, then a request whose completion was written is on
      no list that can come next. */
  lemma CompletedIsNotListedNext(env: Env, run: seq<Step>, p: ReplyId, backend: GoString, id: GoString, c: Bytes,
                                 ids: set<GoString>)
    requires Legal(env, Init, run) && RepliesFollowLists(run) && OfCall(BeginReply(p, backend, id, c)) in run
    requires IsDone(Final(env, Init, run), Completer(p)) && CallEnabled(env, Final(env, Init, run), List(backend, ids))
    ensures id !in ids
  {
    RunIsRecorded(env, run);
    assert [] + run == run;
    FollowingIsAnsweringListed(env, [], Init, run);
    CompletedIsNeverListedAgain(env, run, p, ids);
  }

  // ---------------------------------------------------------------- what is submitted can be answered

  /** Only the store, the parts and the progress of one write differ. */
  predicate OnlyStores(s: State, t: State, w: Writer) {
    w in t.writes && t == s.(store := t.store, parts := t.parts, writes := s.writes[w := t.writes[w]])
  }

  /** The value is stored with all of its parts. */
  ghost predicate IsStored(env: Env, s: State, v: Value) {
    && KeyOf(env, v) in s.store && s.store[KeyOf(env, v)] == EntityOf(v)
    && forall j: nat :: j < NumParts(ContentsOf(v)) ==> PartNameOf(v, j) in s.parts
  }

  /** A write that begins can store its value whole, without the cache. */
  lemma StoreWhole(env: Env, s: State, w: Writer, v: Value) returns (t: State)
    requires w in s.writes && s.writes[w] == Write(v, Begun)
    ensures Reaches(env, s, t) && OnlyStores(s, t, w) && t.writes[w] == Write(v, Done) && IsStored(env, t, v)
  {
    var a := OfWrite(TryCache(w, false));
    var s1 := Next(env, s, a);
    ReachesNext(env, s, a);
    assert s1 == s.(writes := s.writes[w := Write(v, Storing({}))]);
    var s2 := PutFirst(env, s1, w, v, NumParts(ContentsOf(v)));
    ReachesOn(env, s, s1, s2);
    t := PutEntityNow(env, s2, w, v);
    ReachesOn(env, s, s2, t);
    assert t.writes == s.writes[w := Write(v, Done)];
  }

  lemma PutEntityNow(env: Env, s: State, w: Writer, v: Value) returns (t: State)
    requires w in s.writes && s.writes[w].value == v && PartsDone(s.writes[w])
    requires forall j: nat :: j < NumParts(ContentsOf(v)) ==> PartNameOf(v, j) in s.parts
    ensures Reaches(env, s, t) && IsStored(env, t, v)
    ensures t == s.(store := t.store, writes := s.writes[w := Write(v, Done)])
  {
    var a := OfWrite(PutEntity(w, true));
    t := Next(env, s, a);
    ReachesNext(env, s, a);
  }

  /** A read that misses the cache finds what is stored whole. */
  lemma ReadWhole(env: Env, s: State, r: Reader, v: Value) returns (t: State)
    requires r in s.searches && s.searches[r].search.Asking? && CacheKeyFor(env, r, s.searches[r]) !in s.memcache
    requires IsStored(env, s, v) && KeyFor(env, r, s.searches[r]) == KeyOf(env, v)
    ensures Reaches(env, s, t) && r in t.searches && t == SetSearch(s, r, t.searches[r].search)
    ensures t.searches[r].search.Ready?
  {
    var a, b := OfRead(AskCache(r)), OfRead(AskStore(r));
    var s1 := Next(env, s, a);
    assert s1 == SetSearch(s, r, Missed);
    var s2 := Next(env, s1, b);
    assert s2.searches[r].search == Loading(EntityOf(v), EntityOf(v).bytes.inlined, []);
    ReachesNext(env, s1, b);
    ReachesBefore(env, s, a, s2);
    assert s2 == SetSearch(s, r, s2.searches[r].search);
    forall i | 0 <= i < |EntityOf(v).bytes.parts| ensures EntityOf(v).bytes.parts[i] in s2.parts {
      assert EntityOf(v).bytes.parts[i] == PartNameOf(v, i);
    }
    t := FetchAll(env, s2, r);
    ReachesOn(env, s, s2, t);
    SetTwice(s, r, s2.searches[r].search, t.searches[r].search);
  }

  /** Nothing is cached under the keys of a request that was never submitted. */
  lemma FreshIsUncached(env: Env, s: State, r: Reader, q: Inquiry)
    requires Inv(env, s) && q.id !in s.submissions
    ensures CacheKeyFor(env, r, q) !in s.memcache
  {
    var k := CacheKeyFor(env, r, q);
    if k in s.memcache {
      assert EntryInv(env, s, k, s.memcache[k]);
      CacheKeyTells(env, s, r, q);
    }
  }

  /** The request `r` is stored whole, nothing is cached for it, and nobody has read or answered it. */
  ghost predicate IsSubmitted(env: Env, s: State, r: Request) {
    && r.id in s.submissions && Submitted(r.id, s.submissions[r.id]) == r && HasWritten(s, r.id)
    && IsStored(env, s, OfRequest(r)) && Waiter(r.id) !in s.searches
    && RequestKey(env.printable, r.backend, r.id) !in s.memcache
    && ResponseKey(env.printable, r.backend, r.id) !in s.memcache
    && (forall p :: Responder(p) in s.writes && p in s.replies ==> s.replies[p].id != r.id)
  }

  lemma SubmitWhole(env: Env, s: State, r: Request) returns (t: State)
    requires Inv(env, s) && r.id !in s.submissions && !r.completed
    ensures Reaches(env, s, t) && IsSubmitted(env, t, r) && t.replies == s.replies
  {
    var a := OfCall(Submit(r.id, r.backend, r.user, r.contents, r.start));
    var u := Next(env, s, a);
    FreshIsUncached(env, s, Waiter(r.id), Inquiry(r.backend, r.id, Asking));
    FreshIsUncached(env, s, Replier(0), Inquiry(r.backend, r.id, Asking));
    assert Waiter(r.id) in s.searches ==> SearchInv(s, Waiter(r.id), s.searches[Waiter(r.id)]);
    forall p | Responder(p) in s.writes && p in s.replies ensures s.replies[p].id != r.id {
      assert WriteInv(s, Responder(p), s.writes[Responder(p)].value);
    }
    assert u.writes[Submitter(r.id)] == Write(OfRequest(r), Begun);
    ReachesNext(env, s, a);
    t := StoreWhole(env, u, Submitter(r.id), OfRequest(r));
    ReachesOn(env, s, u, t);
  }

  /** The reply `p` is the only one to `r` that got past `ReadRequest`. */
  ghost predicate IsAccepted(env: Env, s: State, r: Request, p: ReplyId, answer: Bytes) {
    && r.id in s.submissions && s.submissions[r.id].backend == r.backend && HasWritten(s, r.id)
    && Waiter(r.id) !in s.searches && ResponseKey(env.printable, r.backend, r.id) !in s.memcache
    && p in s.replies && s.replies[p] == Reply(r.backend, r.id, answer)
    && (forall x :: IsReplyTo(s, r.id, x) ==> x == p)
    && Replier(p) in s.searches && HasFound(s.searches[Replier(p)]) && s.searches[Replier(p)].id == r.id
  }

  /** And its answer is stored whole. */
  ghost predicate IsAnswered(env: Env, s: State, r: Request, p: ReplyId, answer: Bytes) {
    IsAccepted(env, s, r, p, answer) && IsStored(env, s, Answer(p, s.replies[p]))
  }

  lemma AcceptWhole(env: Env, s: State, r: Request, p: ReplyId, answer: Bytes) returns (t: State)
    requires IsSubmitted(env, s, r) && p !in s.replies
    ensures Reaches(env, s, t) && p in t.replies && Replier(p) in t.searches && t.searches[Replier(p)].search.Ready?
    ensures t == s.(replies := s.replies[p := Reply(r.backend, r.id, answer)], searches := t.searches)
    ensures t.searches[Replier(p)].id == r.id && (Waiter(r.id) in t.searches <==> Waiter(r.id) in s.searches)
  {
    var a := OfCall(BeginReply(p, r.backend, r.id, answer));
    var u := Next(env, s, a);
    assert u.searches[Replier(p)] == Inquiry(r.backend, r.id, Asking);
    ReachesNext(env, s, a);
    t := ReadWhole(env, u, Replier(p), OfRequest(r));
    ReachesOn(env, s, u, t);
  }

  lemma ConcludeReply(env: Env, s: State, p: ReplyId) returns (t: State)
    requires p in s.replies && Replier(p) in s.searches && s.searches[Replier(p)].search.Ready?
    ensures Reaches(env, s, t) && t == s.(writes := t.writes, searches := t.searches)
    ensures Responder(p) in t.writes && t.writes[Responder(p)] == Write(Answer(p, s.replies[p]), Begun)
    ensures forall w :: w in s.writes && w != Completer(p) && w != Responder(p) ==>
      w in t.writes && t.writes[w] == s.writes[w]
    ensures forall x :: Responder(x) in t.writes && x != p ==> Responder(x) in s.writes
    ensures forall id :: Waiter(id) in t.searches <==> Waiter(id) in s.searches
    ensures Replier(p) in t.searches && HasFound(t.searches[Replier(p)])
    ensures t.searches[Replier(p)].id == s.searches[Replier(p)].id
    ensures t.searches[Replier(p)].search.value == s.searches[Replier(p)].search.value
  {
    var a := OfRead(Conclude(Replier(p)));
    t := Next(env, s, a);
    ReachesNext(env, s, a);
  }

  lemma ReplyWhole(env: Env, s: State, r: Request, p: ReplyId, answer: Bytes) returns (t: State)
    requires IsSubmitted(env, s, r) && p !in s.replies
    ensures Reaches(env, s, t) && IsAccepted(env, t, r, p, answer)
    ensures Responder(p) in t.writes && t.writes[Responder(p)] == Write(Answer(p, t.replies[p]), Begun)
  {
    var u := AcceptWhole(env, s, r, p, answer);
    t := ConcludeReply(env, u, p);
    ReachesOn(env, s, u, t);
    OnlyOne(s, u, t, r, p);
  }

  lemma OnlyOne(s: State, u: State, t: State, r: Request, p: ReplyId)
    requires u.writes == s.writes
    requires forall x :: x in u.replies && x != p ==> x in s.replies && u.replies[x] == s.replies[x]
    requires t.replies == u.replies && (forall x :: Responder(x) in t.writes && x != p ==> Responder(x) in u.writes)
    requires forall x :: Responder(x) in s.writes && x in s.replies ==> s.replies[x].id != r.id
    ensures forall x :: IsReplyTo(t, r.id, x) ==> x == p
  {
  }

  lemma AnswerWhole(env: Env, s: State, r: Request, p: ReplyId, answer: Bytes) returns (t: State)
    requires IsAccepted(env, s, r, p, answer)
    requires Responder(p) in s.writes && s.writes[Responder(p)] == Write(Answer(p, s.replies[p]), Begun)
    ensures Reaches(env, s, t) && IsAnswered(env, t, r, p, answer)
  {
    t := StoreWhole(env, s, Responder(p), Answer(p, s.replies[p]));
    forall x | IsReplyTo(t, r.id, x) ensures x == p {
      assert x != p ==> IsReplyTo(s, r.id, x);
    }
  }

  /** The only reply to a request is what a read puts together. */
  lemma OnlyReplyIsFound(s: State, id: GoString, x: Response, from: seq<Value>, p: ReplyId)
    requires MadeOfReplies(s, x, from) && x.id == id && p in s.replies
    requires forall y :: IsReplyTo(s, id, y) ==> y == p
    ensures x.poster == p && x.contents == s.replies[p].contents
  {
    var c := s.replies[x.poster].contents;
    assert IsReplyTo(s, id, x.poster);
    forall i | 0 <= i < |from| ensures AllContents(from)[i] == c {
      assert Sourced(s, from[i]);
      assert IsReplyTo(s, id, from[i].response.poster);
    }
    AssembledSame(c, AllContents(from));
  }

  lemma ReturnWhole(env: Env, s: State, r: Request, p: ReplyId, answer: Bytes) returns (t: State, x: Response)
    requires Reaches(env, Init, s) && IsAnswered(env, s, r, p, answer) && answer != []
    ensures Reaches(env, s, t) && HasReturned(t, r.id, x) && x.contents == answer
    ensures forall y :: Replier(y) in s.searches ==>
      Replier(y) in t.searches && t.searches[Replier(y)] == s.searches[Replier(y)]
  {
    var w := Waiter(r.id);
    var a := OfCall(Await(r.id));
    var s1 := Next(env, s, a);
    assert s1.searches[w] == Inquiry(r.backend, r.id, Asking);
    ReachesNext(env, s, a);
    var s2 := ReadWhole(env, s1, w, Answer(p, s.replies[p]));
    ReachesOn(env, s, s1, s2);
    ReachesOn(env, Init, s, s2);
    ReachedSearch(env, s2, w);
    var q := s2.searches[w];
    x := q.search.value.response;
    assert q.id == r.id && MadeOfReplies(s2, x, q.search.from);
    assert forall y :: IsReplyTo(s2, r.id, y) ==> IsReplyTo(s, r.id, y);
    OnlyReplyIsFound(s2, r.id, x, q.search.from, p);
    t := ReturnNow(env, s2, r.id, x);
    ReachesOn(env, s, s2, t);
  }

  lemma ReturnNow(env: Env, s: State, id: GoString, x: Response) returns (t: State)
    requires Waiter(id) in s.searches && s.searches[Waiter(id)].search.Ready? && x.contents != []
    requires s.searches[Waiter(id)].search.value == OfResponse(x)
    ensures Reaches(env, s, t) && HasReturned(t, id, x)
    ensures forall y :: Replier(y) in s.searches ==>
      Replier(y) in t.searches && t.searches[Replier(y)] == s.searches[Replier(y)]
  {
    t := Next(env, s, OfRead(Conclude(Waiter(id))));
    ReachesNext(env, s, OfRead(Conclude(Waiter(id))));
  }

  /** From every reachable state, a new request of any size can be read by a reply as it was submitted, and
      the reply's answer, of any size, be returned as it was posted. */
  lemma EveryRequestCanBeAnswered(env: Env, s: State, r: Request, p: ReplyId, answer: Bytes)
    returns (t: State, x: Response)
    requires Reaches(env, Init, s) && r.id !in s.submissions && !r.completed && p !in s.replies && answer != []
    ensures Reaches(env, s, t) && HasReturned(t, r.id, x) && x.contents == answer
    ensures Replier(p) in t.searches && HasFound(t.searches[Replier(p)]) && t.searches[Replier(p)].id == r.id
  {
    ReachedKeepsInv(env, Init, s);
    var s1 := SubmitWhole(env, s, r);
    var s2 := ReplyWhole(env, s1, r, p, answer);
    ReachesOn(env, s, s1, s2);
    var s3 := AnswerWhole(env, s2, r, p, answer);
    ReachesOn(env, s, s2, s3);
    ReachesOn(env, Init, s, s3);
    t, x := ReturnWhole(env, s3, r, p, answer);
    ReachesOn(env, s, s3, t);
  }

  // ---------------------------------------------------------------- what is cached

  /** A cache set that lands keeps the value under its key exactly if its contents are below a million bytes;
      then a reader of the request or of the response is given it at once. */
  lemma CachedExactlyIfSmall(env: Env, s: State, w: Writer, r: Reader)
    requires w in s.writes && s.writes[w].progress.Begun? && r in s.searches && s.searches[r].search.Asking?
    requires CacheKeyOf(env, s.writes[w].value) !in s.memcache
    requires CacheKeyFor(env, r, s.searches[r]) == CacheKeyOf(env, s.writes[w].value)
    requires RoleFor(r) == RoleOf(s.writes[w].value)
    ensures
      var v := s.writes[w].value;
      var t := Next(env, s, OfWrite(TryCache(w, true)));
      var u := Next(env, t, OfRead(AskCache(r)));
      && (CacheKeyOf(env, v) in t.memcache <==> |ContentsOf(v)| < 1_000_000)
      && u.searches[r].search == if |ContentsOf(v)| < 1_000_000 then Ready(v, []) else Missed
  {
    var t := Next(env, s, OfWrite(TryCache(w, true)));
    assert t.searches == s.searches;
  }

  // ---------------------------------------------------------------- losses

  /** A read that asks for what was evicted goes on to the store. */
  lemma EvictionIsFelt(env: Env, s: State, r: Reader)
    requires r in s.searches && s.searches[r].search.Asking?
    ensures
      var k := CacheKeyFor(env, r, s.searches[r]);
      var t := SystemNext(env, s, Evict(k));
      k !in t.memcache && ReadNext(env, t, AskCache(r)).searches[r].search == Missed
  {
  }

  /** A read that asks for what has expired is refused. */
  lemma ExpiryIsFelt(env: Env, s: State, r: Reader)
    requires r in s.searches && s.searches[r].search.Missed?
    ensures
      var k := KeyFor(env, r, s.searches[r]);
      var t := SystemNext(env, s, ExpireEntity(k));
      k !in t.store && ReadNext(env, t, AskStore(r)).searches[r].search == Refused
  {
  }

  /** And so is one that gets to a part that has. */
  lemma LostPartIsFelt(env: Env, s: State, r: Reader)
    requires ReadEnabled(s, FetchPart(r))
    ensures
      var n := s.searches[r].search.entity.bytes.parts[|s.searches[r].search.from|];
      var t := SystemNext(env, s, ExpirePart(n));
      n !in t.parts && ReadNext(env, t, FetchPart(r)).searches[r].search == Refused
  {
  }

  // ---------------------------------------------------------------- trying again, and giving up

  /** `waitForResponse` never returns an empty response. */
  lemma ReturnedIsNotEmpty(env: Env, run: seq<Step>, id: GoString, x: Response)
    requires Legal(env, Init, run) && HasReturned(Final(env, Init, run), id, x)
    ensures x.contents != []
  {
    RunIsRecorded(env, run);
    ReachedSearch(env, Final(env, Init, run), Waiter(id));
  }

  /** A waiter that was refused asks again, and is then given the answer that has been stored in the meantime. */
  lemma RefusedWaiterGetsAnswer(env: Env, s: State, id: GoString, p: ReplyId) returns (t: State, x: Response)
    requires Reaches(env, Init, s) && Waiter(id) in s.searches && s.searches[Waiter(id)].search.Refused?
    requires CacheKeyFor(env, Waiter(id), s.searches[Waiter(id)]) !in s.memcache
    requires p in s.replies && s.replies[p].id == id && s.replies[p].contents != []
    requires IsStored(env, s, Answer(p, s.replies[p])) && forall y :: IsReplyTo(s, id, y) ==> y == p
    ensures Reaches(env, s, t) && HasReturned(t, id, x) && x.contents == s.replies[p].contents
  {
    var w := Waiter(id);
    ReachedSearch(env, s, w);
    var s1 := Next(env, s, OfRead(Retry(w)));
    ReachesNext(env, s, OfRead(Retry(w)));
    assert s1 == SetSearch(s, w, Asking);
    var s2 := ReadWhole(env, s1, w, Answer(p, s.replies[p]));
    ReachesOn(env, s, s1, s2);
    ReachesOn(env, Init, s, s2);
    ReachedSearch(env, s2, w);
    var q := s2.searches[w];
    x := q.search.value.response;
    assert q.id == id && MadeOfReplies(s2, x, q.search.from);
    assert forall y :: IsReplyTo(s2, id, y) ==> IsReplyTo(s, id, y);
    OnlyReplyIsFound(s2, id, x, q.search.from, p);
    t := ReturnNow(env, s2, id, x);
    ReachesOn(env, s, s2, t);
  }

  /** A submission with a failed part stays one: its entity is never put, and nobody waits for a response. */
  predicate HasFailedPart(s: State, id: GoString) {
    Submitter(id) in s.writes && s.writes[Submitter(id)].progress.PartFailed?
  }

  lemma StepKeepsFailedPart(env: Env, s: State, a: Step, id: GoString)
    requires Inv(env, s) && Enabled(env, s, a) && (HasFailedPart(s, id) || a == OfWrite(FailPart(Submitter(id))))
    ensures HasFailedPart(Next(env, s, a), id)
  {
    match a
    case OfCall(b) => FailedPartOverCall(env, s, b, id);
    case OfRead(b) => FailedPartOverRead(env, s, b, id);
    case OfWrite(b) => FailedPartOverWrite(env, s, b, id);
    case OfSystem(b) => FailedPartOverSystem(env, s, b, id);
  }

  lemma FailedPartOverRead(env: Env, s: State, b: ReadStep, id: GoString)
    requires ReadEnabled(s, b) && HasFailedPart(s, id)
    ensures HasFailedPart(ReadNext(env, s, b), id)
  {
  }

  lemma FailedPartOverSystem(env: Env, s: State, b: SystemStep, id: GoString)
    requires HasFailedPart(s, id)
    ensures HasFailedPart(SystemNext(env, s, b), id)
  {
  }

  lemma FailedPartOverCall(env: Env, s: State, b: CallStep, id: GoString)
    requires Inv(env, s) && CallEnabled(env, s, b) && HasFailedPart(s, id)
    ensures HasFailedPart(CallNext(env, s, b), id)
  {
    assert WriteInv(s, Submitter(id), s.writes[Submitter(id)].value);
  }

  lemma FailedPartOverWrite(env: Env, s: State, b: WriteStep, id: GoString)
    requires WriteEnabled(s, b) && (HasFailedPart(s, id) || b == FailPart(Submitter(id)))
    ensures HasFailedPart(WriteNext(env, s, b), id)
  {
  }

  lemma {:induction false} FailedPartIsFinal(env: Env, s: State, run: seq<Step>, id: GoString)
    requires Inv(env, s) && Legal(env, s, run)
    requires HasFailedPart(s, id) || OfWrite(FailPart(Submitter(id))) in run
    ensures HasFailedPart(Final(env, s, run), id)
    decreases |run|
  {
    if run != [] {
      assert run == [run[0]] + run[1..];
      if HasFailedPart(s, id) || run[0] == OfWrite(FailPart(Submitter(id))) {
        StepKeepsFailedPart(env, s, run[0], id);
      }
      StepKeepsInv(env, s, run[0]);
      FailedPartIsFinal(env, Next(env, s, run[0]), run[1..], id);
    }
  }

  /** A list may hold any pending requests of the backend, up to a hundred, and nothing else. */
  lemma ListsPendingOnly(env: Env, run: seq<Step>, backend: GoString, ids: set<GoString>)
    requires Legal(env, Init, run)
    ensures
      var s := Final(env, Init, run);
      CallEnabled(env, s, List(backend, ids)) <==>
      && |ids| <= 100
      && forall id :: id in ids ==>
           var k := RequestEntity(env, backend, id);
           k in s.store && s.store[k].of.OfRequest? && !s.store[k].of.request.completed
  {
    RunKeepsInv(env, Init, run);
    var s := Final(env, Init, run);
    RequestKindInjective(env.printable, backend, backend);
    forall id | RequestEntity(env, backend, id) in s.store
      ensures s.store[RequestEntity(env, backend, id)].of.OfRequest?
    {
      assert EntityInv(env, s, RequestEntity(env, backend, id), s.store[RequestEntity(env, backend, id)]);
    }
  }

  /** A write may fail at any put, and an entity whose put failed may land all the same; a part that failed too. */
  lemma WritesMayFail(s: State, w: Writer, i: nat)
    requires w in s.writes
    ensures s.writes[w].progress.Storing? && !PartsDone(s.writes[w]) ==> WriteEnabled(s, FailPart(w))
    ensures PartsDone(s.writes[w]) ==> WriteEnabled(s, PutEntity(w, false))
    ensures s.writes[w].progress.EntityFailed? ==> WriteEnabled(s, LateEntity(w))
    ensures s.writes[w].progress.PartFailed? && i < NumParts(ContentsOf(s.writes[w].value)) ==>
      WriteEnabled(s, PutPart(w, i))
  {
  }
}
