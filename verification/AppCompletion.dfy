/** Completion in the App Engine proxy: when a request that has been answered can be listed again. */
module AppCompletion {
  import opened Basics
  import opened Quoting
  import opened BlobStore
  import opened AppProxy
  import opened AppMixing

  predicate IsDone(s: State, w: Writer) { w in s.writes && s.writes[w].progress == Done }

  // ---------------------------------------------------------------- agents that answer what they were listed

  /** Agents answer only requests that were on a list returned to them. */
  predicate AnswersOnlyListed(env: Env, s: State, run: seq<Step>)
    requires Legal(env, s, run)
    decreases |run|
  {
    run == [] ||
    (AnswersListed(s, run[0]) && AnswersOnlyListed(env, Next(env, s, run[0]), run[1..]))
  }

  /** The submitter's entity has been put, so that nothing of that write is outstanding. */
  predicate Landed(s: State, id: GoString) {
    && Submitter(id) in s.writes
    && (s.writes[Submitter(id)].progress.Done? || s.writes[Submitter(id)].progress.Landed?)
  }

  ghost predicate PendingInv(s: State) {
    && (forall k :: PendingAt(s.store, k) && s.store[k].of.OfRequest? ==> Landed(s, s.store[k].of.request.id))
    && (forall l :: l in s.listed ==> Landed(s, l.id))
    && (forall p :: p in s.replies ==> Landed(s, s.replies[p].id))
  }

  ghost predicate CompletionInv(env: Env, s: State) {
    forall p :: IsDone(s, Completer(p)) && p in s.replies ==> !IsPending(env, s, s.replies[p].backend, s.replies[p].id)
  }

  // ---------------------------------------------------------------- what a step changes

  /** The value whose entity the step puts, if it puts one. */
  function PutBy(s: State, a: Step): Option<Value>
    requires a.OfWrite? ==> WriteEnabled(s, a.write)
  {
    if a.OfWrite? && (a.write.LateEntity? || (a.write.PutEntity? && a.write.lands))
    then Some(s.writes[a.write.writer].value)
    else None
  }

  predicate StoreMoves(env: Env, s: State, a: Step, t: State)
    requires a.OfWrite? ==> WriteEnabled(s, a.write)
  {
    match PutBy(s, a)
    case Some(v) => t.store == s.store[KeyOf(env, v) := EntityOf(v)]
    case None => forall k :: k in t.store ==> k in s.store && t.store[k] == s.store[k]
  }

  /** No write is lost. One that differs is new, or started again for a reply, or moved by this step. */
  ghost predicate WritesMove(s: State, a: Step, t: State)
    requires a.OfWrite? ==> WriteEnabled(s, a.write)
  {
    && (forall w :: w in s.writes ==> w in t.writes)
    && (forall w :: w in t.writes ==>
          if a.OfWrite? && a.write.writer == w then MovesBy(s.writes[w].progress, a.write, t.writes[w].progress)
          else
            || (w in s.writes && t.writes[w] == s.writes[w])
            || (t.writes[w].progress.Begun? && (w in s.writes ==> !w.Submitter?)))
  }

  /** How a write step moves the progress of its write. */
  predicate MovesBy(p: Progress, a: WriteStep, q: Progress) {
    && !q.Begun?
    && ((q.Done? || q.Landed?) ==> a.LateEntity? || (a.PutEntity? && a.lands))
    && ((q.Storing? || q.EntityFailed?) ==> p.Begun? || p.Storing?)
    && ((a.LateEntity? || (a.PutEntity? && a.lands)) ==> q.Done? || q.Landed?)
  }

  ghost predicate RecordsMove(s: State, a: Step, t: State) {
    && (forall p :: p in s.replies ==> p in t.replies && t.replies[p] == s.replies[p])
    && (forall p :: p in t.replies && p !in s.replies ==>
          a.OfCall? && a.call.BeginReply? && t.replies[p] == Reply(a.call.backend, a.call.id, a.call.contents))
    && (forall l :: l in t.listed && l !in s.listed ==>
          a.OfCall? && a.call.List? && l.backend == a.call.backend && l.id in a.call.ids)
  }

  ghost predicate Moves(env: Env, s: State, a: Step, t: State) {
    && (a.OfWrite? ==> WriteEnabled(s, a.write))
    && StoreMoves(env, s, a, t) && WritesMove(s, a, t) && RecordsMove(s, a, t)
  }

  lemma CallMoves(env: Env, s: State, b: CallStep)
    requires Inv(env, s) && CallEnabled(env, s, b)
    ensures Moves(env, s, OfCall(b), CallNext(env, s, b))
  {
    if b.Submit? {
      var w := Submitter(b.id);
      assert w in s.writes ==> WriteInv(s, w, s.writes[w].value);
    }
  }

  lemma ReadMoves(env: Env, s: State, b: ReadStep)
    requires ReadEnabled(s, b)
    ensures Moves(env, s, OfRead(b), ReadNext(env, s, b))
  {
    var t := ReadNext(env, s, b);
    assert t == s.(writes := t.writes, searches := t.searches);
    if b.Conclude? && b.reader.Replier? {
      var p := b.reader.reply;
      assert forall w :: w in t.writes && w != Completer(p) && w != Responder(p) ==>
        w in s.writes && t.writes[w] == s.writes[w];
    } else {
      assert t.writes == s.writes;
    }
  }

  lemma WriteMoves(env: Env, s: State, b: WriteStep)
    requires WriteEnabled(s, b)
    ensures Moves(env, s, OfWrite(b), WriteNext(env, s, b))
  {
    WriteMovesWrites(env, s, b);
    WriteMovesStore(env, s, b);
    WriteKeepsRecords(env, s, b);
  }

  lemma WriteMovesWrites(env: Env, s: State, b: WriteStep)
    requires WriteEnabled(s, b)
    ensures WritesMove(s, OfWrite(b), WriteNext(env, s, b))
  {
    var t := WriteNext(env, s, b);
    var w := b.writer;
    assert t.writes == s.writes[w := t.writes[w]];
    assert MovesBy(s.writes[w].progress, b, t.writes[w].progress);
  }

  lemma WriteMovesStore(env: Env, s: State, b: WriteStep)
    requires WriteEnabled(s, b)
    ensures StoreMoves(env, s, OfWrite(b), WriteNext(env, s, b))
  {
    if PutBy(s, OfWrite(b)) == None {
      assert WriteNext(env, s, b).store == s.store;
    }
  }

  lemma WriteKeepsRecords(env: Env, s: State, b: WriteStep)
    requires WriteEnabled(s, b)
    ensures RecordsMove(s, OfWrite(b), WriteNext(env, s, b))
  {
    var t := WriteNext(env, s, b);
    assert t.replies == s.replies && t.listed == s.listed;
  }

  lemma StepMoves(env: Env, s: State, a: Step)
    requires Inv(env, s) && Enabled(env, s, a)
    ensures Moves(env, s, a, Next(env, s, a))
  {
    match a
    case OfCall(b) => CallMoves(env, s, b);
    case OfRead(b) => ReadMoves(env, s, b);
    case OfWrite(b) => WriteMoves(env, s, b);
    case OfSystem(b) => SystemMoves(env, s, b);
  }

  lemma SystemMoves(env: Env, s: State, b: SystemStep)
    ensures Moves(env, s, OfSystem(b), SystemNext(env, s, b))
  {
  }

  /** Everything that has landed stays so. */
  lemma StaysLanded(env: Env, s: State, a: Step, t: State, id: GoString)
    requires Moves(env, s, a, t) && Landed(s, id)
    ensures Landed(t, id)
  {
  }

  // ---------------------------------------------------------------- what makes a request pending

  /** Exactly which step makes a request pending: the put of the submitter's own entity. */
  lemma PendingExactlyByOwnPut(env: Env, s: State, a: Step, t: State, id: GoString)
    requires Inv(env, s) && Moves(env, s, a, t) && id in s.submissions
    requires !IsPending(env, s, s.submissions[id].backend, id)
    ensures
      IsPending(env, t, s.submissions[id].backend, id) <==> PutBy(s, a).Some? && a.write.writer == Submitter(id)
  {
    if PutBy(s, a).Some? {
      var w := a.write.writer;
      var backend := s.submissions[id].backend;
      assert WriteInv(s, w, s.writes[w].value);
      RequestKindInjective(env.printable, backend, backend);
      PutMakesPending(env, s, w, s.writes[w].value, id, backend);
    }
  }

  lemma PutMakesPending(env: Env, s: State, w: Writer, v: Value, id: GoString, backend: GoString)
    requires WriteInv(s, w, v) && id in s.submissions && s.submissions[id].backend == backend
    requires !IsPending(env, s, backend, id) && RequestKind(env.printable, backend) != RESPONSE_KIND
    ensures PendingAt(s.store[KeyOf(env, v) := EntityOf(v)], RequestEntity(env, backend, id)) <==> w == Submitter(id)
  {
  }

  lemma ListedHasLanded(env: Env, s: State, backend: GoString, ids: set<GoString>, id: GoString)
    requires Inv(env, s) && PendingInv(s) && CallEnabled(env, s, List(backend, ids)) && id in ids
    ensures Landed(s, id)
  {
    assert IsPending(env, s, backend, id);
    var k := RequestEntity(env, backend, id);
    assert EntityInv(env, s, k, s.store[k]);
    RequestKindInjective(env.printable, backend, backend);
  }

  lemma StoredHasLanded(env: Env, s: State, a: Step, t: State, k: Key)
    requires Inv(env, s) && PendingInv(s) && Moves(env, s, a, t) && PendingAt(t.store, k) && t.store[k].of.OfRequest?
    ensures Landed(t, t.store[k].of.request.id)
  {
    if PutBy(s, a).Some? && k == KeyOf(env, PutBy(s, a).value) {
      var w := a.write.writer;
      assert WriteInv(s, w, s.writes[w].value);
      assert w == Submitter(t.store[k].of.request.id);
    } else {
      assert PendingAt(s.store, k);
      StaysLanded(env, s, a, t, s.store[k].of.request.id);
    }
  }

  /** The step answers only what was listed. */
  predicate AnswersListed(s: State, a: Step) {
    a.OfCall? && a.call.BeginReply? ==> Listing(a.call.backend, a.call.id) in s.listed
  }

  lemma StepKeepsPending(env: Env, s: State, a: Step, t: State)
    requires Inv(env, s) && PendingInv(s) && Moves(env, s, a, t) && AnswersListed(s, a)
    requires a.OfCall? ==> CallEnabled(env, s, a.call)
    ensures PendingInv(t)
  {
    forall k | PendingAt(t.store, k) && t.store[k].of.OfRequest? ensures Landed(t, t.store[k].of.request.id) {
      StoredHasLanded(env, s, a, t, k);
    }
    forall l | l in t.listed ensures Landed(t, l.id) {
      if l !in s.listed {
        ListedHasLanded(env, s, a.call.backend, a.call.ids, l.id);
      }
      StaysLanded(env, s, a, t, l.id);
    }
    forall p | p in t.replies ensures Landed(t, t.replies[p].id) {
      assert Landed(s, t.replies[p].id);
      StaysLanded(env, s, a, t, t.replies[p].id);
    }
  }

  /** A submission that has a reply has ended its own writes, so it cannot undo a completion. */
  lemma CompletedStays(env: Env, s: State, a: Step, t: State, p: ReplyId)
    requires Inv(env, s) && PendingInv(s) && CompletionInv(env, s) && Moves(env, s, a, t)
    requires IsDone(t, Completer(p)) && p in t.replies
    ensures !IsPending(env, t, t.replies[p].backend, t.replies[p].id)
  {
    var w := Completer(p);
    assert WriteInv(s, w, s.writes[w].value);
    if IsDone(s, w) {
      assert Landed(s, s.replies[p].id);
      PendingExactlyByOwnPut(env, s, a, t, s.replies[p].id);
    }
  }

  lemma StepKeepsCompletion(env: Env, s: State, a: Step)
    requires Inv(env, s) && PendingInv(s) && CompletionInv(env, s) && Enabled(env, s, a) && AnswersListed(s, a)
    ensures PendingInv(Next(env, s, a)) && CompletionInv(env, Next(env, s, a))
  {
    StepMoves(env, s, a);
    MovesKeepCompletion(env, s, a, Next(env, s, a));
  }

  lemma MovesKeepCompletion(env: Env, s: State, a: Step, t: State)
    requires Inv(env, s) && PendingInv(s) && CompletionInv(env, s) && Moves(env, s, a, t) && AnswersListed(s, a)
    requires a.OfCall? ==> CallEnabled(env, s, a.call)
    ensures PendingInv(t) && CompletionInv(env, t)
  {
    StepKeepsPending(env, s, a, t);
    forall p | IsDone(t, Completer(p)) && p in t.replies
      ensures !IsPending(env, t, t.replies[p].backend, t.replies[p].id)
    {
      CompletedStays(env, s, a, t, p);
    }
  }

  lemma {:induction false} RunKeepsCompletion(env: Env, s: State, run: seq<Step>)
    requires Inv(env, s) && PendingInv(s) && CompletionInv(env, s)
    requires Legal(env, s, run) && AnswersOnlyListed(env, s, run)
    ensures CompletionInv(env, Final(env, s, run))
    decreases |run|
  {
    if run != [] {
      StepKeepsInv(env, s, run[0]);
      StepKeepsCompletion(env, s, run[0]);
      RunKeepsCompletion(env, Next(env, s, run[0]), run[1..]);
    }
  }

  /** Once `postResponse` has marked a request completed, no later list contains that request,
      provided that agents answer only what they were listed. */
  lemma CompletedIsNeverListedAgain(env: Env, run: seq<Step>, p: ReplyId, ids: set<GoString>)
    requires Legal(env, Init, run) && AnswersOnlyListed(env, Init, run)
    requires var s := Final(env, Init, run); p in s.replies && IsDone(s, Completer(p))
    requires var s := Final(env, Init, run); CallEnabled(env, s, List(s.replies[p].backend, ids))
    ensures Final(env, Init, run).replies[p].id !in ids
  {
    RunKeepsCompletion(env, Init, run);
  }

  // ---------------------------------------------------------------- agents that answer anything

  /** Exactly which step makes an answered request pending again: the put of the submitter's own entity,
      whether that was reported as a success or not; whether the completed request is still stored or has
      been deleted by the clean-up does not matter. */
  lemma OnlySubmitterReverts(env: Env, s: State, a: Step, p: ReplyId)
    requires Inv(env, s) && Enabled(env, s, a) && Responder(p) in s.writes && p in s.replies
    requires !IsPending(env, s, s.replies[p].backend, s.replies[p].id)
    ensures
      var w := Submitter(s.replies[p].id);
      IsPending(env, Next(env, s, a), s.replies[p].backend, s.replies[p].id) <==>
      a == OfWrite(PutEntity(w, true)) || a == OfWrite(LateEntity(w))
  {
    assert WriteInv(s, Responder(p), s.writes[Responder(p)].value);
    StepMoves(env, s, a);
    PendingExactlyByOwnPut(env, s, a, Next(env, s, a), s.replies[p].id);
  }

  /** The submitter's entity may still be put: its write has not ended, or the put was reported as failed
      and may land all the same. */
  predicate Outstanding(s: State, id: GoString) {
    && Submitter(id) in s.writes
    && (s.writes[Submitter(id)].progress.Storing? || s.writes[Submitter(id)].progress.EntityFailed?)
  }

  predicate Settled(s: State, id: GoString) { HasBegun(s, id) && !Outstanding(s, id) }

  lemma StaysSettled(env: Env, s: State, a: Step, t: State, id: GoString)
    requires Moves(env, s, a, t) && Settled(s, id)
    ensures Settled(t, id)
  {
  }

  /** `t` still has the reply `p` of `s`, answered and not pending, with its submitter's writes ended. */
  ghost predicate StaysAnswered(env: Env, s: State, t: State, p: ReplyId)
    requires p in s.replies
  {
    && Inv(env, t) && Responder(p) in t.writes && p in t.replies && t.replies[p] == s.replies[p]
    && Settled(t, s.replies[p].id) && !IsPending(env, t, s.replies[p].backend, s.replies[p].id)
  }

  lemma StepStaysAnswered(env: Env, s: State, t: State, a: Step, p: ReplyId)
    requires p in s.replies && StaysAnswered(env, s, t, p) && Enabled(env, t, a)
    ensures StaysAnswered(env, s, Next(env, t, a), p)
  {
    StepKeepsInv(env, t, a);
    StepMoves(env, t, a);
    MovesStayAnswered(env, s, t, a, Next(env, t, a), p);
  }

  lemma MovesStayAnswered(env: Env, s: State, t: State, a: Step, u: State, p: ReplyId)
    requires p in s.replies && StaysAnswered(env, s, t, p) && Moves(env, t, a, u) && Inv(env, u)
    ensures StaysAnswered(env, s, u, p)
  {
    StaysSettled(env, t, a, u, s.replies[p].id);
    assert WriteInv(t, Responder(p), t.writes[Responder(p)].value);
    PendingExactlyByOwnPut(env, t, a, u, s.replies[p].id);
  }

  lemma StepAtStaysAnswered(env: Env, s: State, path: seq<State>, run: seq<Step>, p: ReplyId, i: nat)
    requires IsPath(env, path, run) && i < |run| && p in s.replies && StaysAnswered(env, s, path[i], p)
    ensures StaysAnswered(env, s, path[i + 1], p)
  {
    assert StepAt(env, path, run, i);
    StepStaysAnswered(env, s, path[i], run[i], p);
  }

  lemma {:induction false} PathStaysAnswered(env: Env, s: State, path: seq<State>, run: seq<Step>, p: ReplyId, i: nat)
    requires IsPath(env, path, run) && i <= |run| && p in s.replies && StaysAnswered(env, s, path[0], p)
    ensures StaysAnswered(env, s, path[i], p)
  {
    if i > 0 {
      PathStaysAnswered(env, s, path, run, p, i - 1);
      StepAtStaysAnswered(env, s, path, run, p, i - 1);
    }
  }

  /** In `t`, which is reached from `s`, a list call would return `id` to `backend`. */
  ghost predicate ListedAt(env: Env, s: State, t: State, backend: GoString, id: GoString) {
    Reaches(env, s, t) && exists ids :: CallEnabled(env, t, List(backend, ids)) && id in ids
  }

  lemma PendingIsListed(env: Env, s: State, t: State, backend: GoString, id: GoString)
    requires Reaches(env, s, t) && IsPending(env, t, backend, id)
    ensures ListedAt(env, s, t, backend, id)
  {
    assert CallEnabled(env, t, List(backend, {id}));
  }

  /** From a reachable state in which a request has been answered, some later list contains it if and
      only if it is pending by now or its submitter's entity may still be put. */
  lemma ListedAgainExactlyWhenOvertaken(env: Env, s: State, p: ReplyId)
    requires Reaches(env, Init, s) && Responder(p) in s.writes && p in s.replies
    ensures
      var y := s.replies[p];
      (exists t :: ListedAt(env, s, t, y.backend, y.id)) <==> IsPending(env, s, y.backend, y.id) || Outstanding(s, y.id)
  {
    ReachedKeepsInv(env, Init, s);
    var y := s.replies[p];
    assert WriteInv(s, Responder(p), s.writes[Responder(p)].value);
    if IsPending(env, s, y.backend, y.id) {
      ReachesItself(env, s);
      PendingIsListed(env, s, s, y.backend, y.id);
    } else if Outstanding(s, y.id) {
      var t := PutOutstanding(env, s, y.id);
      PendingIsListed(env, s, t, y.backend, y.id);
    } else {
      forall t | ListedAt(env, s, t, y.backend, y.id) ensures false {
        NeverListed(env, s, t, p);
      }
    }
  }

  lemma NeverListed(env: Env, s: State, t: State, p: ReplyId)
    requires p in s.replies && StaysAnswered(env, s, s, p) && Reaches(env, s, t)
    ensures !ListedAt(env, s, t, s.replies[p].backend, s.replies[p].id)
  {
    var path, run :| IsPath(env, path, run) && path[0] == s && path[|run|] == t;
    PathStaysAnswered(env, s, path, run, p, |run|);
  }

  /** The submitter puts the parts that it has not put, and then its entity. */
  lemma PutOutstanding(env: Env, s: State, id: GoString) returns (t: State)
    requires Inv(env, s) && Outstanding(s, id)
    ensures Reaches(env, s, t) && id in s.submissions && IsPending(env, t, s.submissions[id].backend, id)
  {
    var w := Submitter(id);
    assert WriteInv(s, w, s.writes[w].value);
    if s.writes[w].progress.EntityFailed? {
      t := Next(env, s, OfWrite(LateEntity(w)));
      ReachesNext(env, s, OfWrite(LateEntity(w)));
    } else {
      var u := PutRest(env, s, w, 0);
      t := Next(env, u, OfWrite(PutEntity(w, true)));
      ReachesNext(env, u, OfWrite(PutEntity(w, true)));
      ReachesOn(env, s, u, t);
    }
  }

  lemma {:induction false} PutRest(env: Env, s: State, w: Writer, i: nat) returns (t: State)
    requires w in s.writes && s.writes[w].progress.Storing? && i <= NumParts(ContentsOf(s.writes[w].value))
    requires forall j: nat :: j < i ==> j in s.writes[w].progress.done
    ensures Reaches(env, s, t) && w in t.writes && t.writes[w].value == s.writes[w].value && PartsDone(t.writes[w])
    decreases NumParts(ContentsOf(s.writes[w].value)) - i
  {
    if i == NumParts(ContentsOf(s.writes[w].value)) {
      t := s;
      ReachesItself(env, s);
    } else if i in s.writes[w].progress.done {
      t := PutRest(env, s, w, i + 1);
    } else {
      var u := Next(env, s, OfWrite(PutPart(w, i)));
      t := PutRest(env, u, w, i + 1);
      ReachesBefore(env, s, OfWrite(PutPart(w, i)), t);
    }
  }

  // ---------------------------------------------------------------- a run that reverts

  lemma SubmitToCache(env: Env) returns (s: State)
    ensures Reaches(env, Init, s) && s.replies == map[]
    ensures Submitter(ID) in s.writes && s.writes[Submitter(ID)] == Write(OfRequest(Submitted(ID, Asked)), Storing({}))
    ensures
      var k := RequestKey(env.printable, BACKEND, ID);
      k in s.memcache && s.memcache[k] == Cached(OfRequest(Submitted(ID, Asked)))
  {
    var a1, a2 := OfCall(Submit(ID, BACKEND, [], [], 0)), OfWrite(TryCache(Submitter(ID), true));
    var u := Next(env, Init, a1);
    s := Next(env, u, a2);
    ReachesNext(env, u, a2);
    ReachesBefore(env, Init, a1, s);
  }

  lemma AnswerFromCache(env: Env, s: State) returns (t: State)
    requires s.replies == map[]
    requires
      var k := RequestKey(env.printable, BACKEND, ID);
      k in s.memcache && s.memcache[k] == Cached(OfRequest(Submitted(ID, Asked)))
    ensures Reaches(env, s, t) && 0 in t.replies && t.replies[0] == Reply(BACKEND, ID, [7])
    ensures Completer(0) in t.writes
      && t.writes[Completer(0)] == Write(Completion(OfRequest(Submitted(ID, Asked))), Begun)
    ensures Responder(0) in t.writes && t.writes[Responder(0)] == Write(Answer(0, t.replies[0]), Begun)
    ensures Submitter(ID) in s.writes ==>
      Submitter(ID) in t.writes && t.writes[Submitter(ID)] == s.writes[Submitter(ID)]
  {
    var r := Replier(0);
    var a1, a2, a3 := OfCall(BeginReply(0, BACKEND, ID, [7])), OfRead(AskCache(r)), OfRead(Conclude(r));
    var s1 := Next(env, s, a1);
    assert s1.searches[r] == Inquiry(BACKEND, ID, Asking);
    var s2 := Next(env, s1, a2);
    assert s2.searches[r] == Inquiry(BACKEND, ID, Ready(OfRequest(Submitted(ID, Asked)), []));
    t := Next(env, s2, a3);
    ReachesNext(env, s2, a3);
    ReachesBefore(env, s1, a2, t);
    ReachesBefore(env, s, a1, t);
  }

  /** The two steps of a small write that succeeds. */
  lemma WriteSmall(env: Env, s: State, w: Writer) returns (t: State)
    requires w in s.writes && s.writes[w].progress == Begun && |ContentsOf(s.writes[w].value)| < FIELD_BYTE_LIMIT
    ensures Reaches(env, s, t) && t.replies == s.replies && IsDone(t, w)
    ensures forall x :: x in s.writes && x != w ==> x in t.writes && t.writes[x] == s.writes[x]
  {
    var a1, a2 := OfWrite(TryCache(w, false)), OfWrite(PutEntity(w, true));
    var u := Next(env, s, a1);
    t := Next(env, u, a2);
    ReachesNext(env, u, a2);
    ReachesBefore(env, s, a1, t);
  }

  /** Without that proviso the claim is false: an agent that answers on the strength of the cached
      copy alone can be overtaken by the submitter's store write. */
  lemma CompletedCanRevert(env: Env) returns (s: State, t: State)
    ensures Reaches(env, Init, s) && 0 in s.replies && IsDone(s, Completer(0)) && IsDone(s, Responder(0))
    ensures ListedAt(env, s, t, s.replies[0].backend, s.replies[0].id)
  {
    var s1 := SubmitToCache(env);
    var s2 := AnswerFromCache(env, s1);
    ReachesOn(env, Init, s1, s2);
    var s3 := WriteSmall(env, s2, Responder(0));
    ReachesOn(env, Init, s2, s3);
    s := WriteSmall(env, s3, Completer(0));
    ReachesOn(env, Init, s3, s);
    ListedAgainExactlyWhenOvertaken(env, s, 0);
    t :| ListedAt(env, s, t, s.replies[0].backend, s.replies[0].id);
  }
}
