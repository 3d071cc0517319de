/** The rendezvous against the run itself: the records that the guarantees speak of are those of the
    requests, answers and posts that the run names, and whatever is asked can be answered. */
module RendezvousRuns {
  import opened Basics
  import opened Rendezvous

  // ---------------------------------------------------------------- records and the steps that made them

  function CopiedBy(a: Step, id: RequestId): nat {
    if a.OfFrontend? && a.frontendStep.CopyBody? && a.frontendStep.id == id then a.frontendStep.size else 0
  }

  /** How many bytes the run copies to the client of `id`. */
  function CopiedIn(run: seq<Step>, id: RequestId): nat
  {
    if run == [] then 0 else CopiedIn(run[..|run| - 1], id) + CopiedBy(run[|run| - 1], id)
  }

  ghost predicate FrontendsRecorded(run: seq<Step>, s: State) {
    && (forall id :: id in s.frontends ==> OfFrontend(Register(id, s.frontends[id].registered)) in run)
    && (forall id, r :: OfFrontend(Register(id, r)) in run ==> id in s.frontends && s.frontends[id].registered == r)
    && (forall id :: id in s.frontends && s.frontends[id].received.Some? ==>
          OfPost(SendPost(s.frontends[id].received.value)) in run)
  }

  ghost predicate JobsRecorded(run: seq<Step>, s: State) {
    && (forall j, b :: OfJob(BackendAnswers(j, b)) in run ==>
          j in s.jobs && s.jobs[j].stage.Answered? && s.jobs[j].stage.answer == b)
    && (forall j :: j in s.jobs && s.jobs[j].stage.Answered? ==>
          OfJob(BackendAnswers(j, s.jobs[j].stage.answer)) in run)
    && (forall w :: w in s.forwards ==> OfJob(ForwardToBackend(w.job)) in run)
  }

  ghost predicate PostsRecorded(run: seq<Step>, s: State) {
    forall p :: p in s.posts ==> OfPost(LookUpPost(p, s.posts[p].id, s.posts[p].body, s.posts[p].origin)) in run
  }

  ghost predicate CopiesRecorded(run: seq<Step>, s: State) {
    forall id :: id in s.frontends ==> s.frontends[id].copied == CopiedIn(run, id)
  }

  /** Nothing is copied to a client that is not there. */
  ghost predicate NoStrayCopies(run: seq<Step>, s: State) {
    forall id :: id !in s.frontends ==> CopiedIn(run, id) == 0
  }

  ghost predicate Recorded(run: seq<Step>, s: State) {
    && FrontendsRecorded(run, s) && JobsRecorded(run, s) && PostsRecorded(run, s)
    && CopiesRecorded(run, s) && NoStrayCopies(run, s)
  }

  /** What the records speak of in a handler. */
  function Client(f: Frontend): (Request, Option<PostId>, nat) { (f.registered, f.received, f.copied) }

  predicate SameClients(s: State, t: State) {
    && t.frontends.Keys == s.frontends.Keys
    && forall id :: id in s.frontends ==> Client(t.frontends[id]) == Client(s.frontends[id])
  }

  lemma ClientsStay(run: seq<Step>, s: State, a: Step, t: State)
    requires FrontendsRecorded(run, s) && CopiesRecorded(run, s) && NoStrayCopies(run, s)
    requires SameClients(s, t) && (a.OfFrontend? ==> !a.frontendStep.Register? && !a.frontendStep.CopyBody?)
    ensures FrontendsRecorded(run + [a], t) && CopiesRecorded(run + [a], t) && NoStrayCopies(run + [a], t)
  {
    assert (run + [a])[..|run|] == run;
    assert forall id :: id in t.frontends ==> Client(t.frontends[id]) == Client(s.frontends[id]);
  }

  lemma JobsStay(run: seq<Step>, s: State, a: Step, t: State)
    requires JobsRecorded(run, s) && !a.OfJob? && t.forwards == s.forwards
    requires forall j :: j in s.jobs ==> j in t.jobs && t.jobs[j] == s.jobs[j]
    requires forall j :: j in t.jobs && j !in s.jobs ==> !t.jobs[j].stage.Answered?
    ensures JobsRecorded(run + [a], t)
  {
  }

  lemma PostsStay(run: seq<Step>, s: State, a: Step, t: State)
    requires PostsRecorded(run, s) && t.posts == s.posts
    ensures PostsRecorded(run + [a], t)
  {
  }

  lemma RegisterIsRecorded(run: seq<Step>, s: State, id: RequestId, r: Request)
    requires FrontendsRecorded(run, s) && CopiesRecorded(run, s) && NoStrayCopies(run, s) && id !in s.frontends
    ensures
      var a, t := OfFrontend(Register(id, r)), FrontendNext(s, Register(id, r));
      FrontendsRecorded(run + [a], t) && CopiesRecorded(run + [a], t) && NoStrayCopies(run + [a], t)
  {
    var a, t := OfFrontend(Register(id, r)), FrontendNext(s, Register(id, r));
    assert (run + [a])[..|run|] == run;
    assert forall i :: i in s.frontends ==> t.frontends[i] == s.frontends[i];
  }

  lemma CopyIsRecorded(run: seq<Step>, s: State, id: RequestId, n: nat)
    requires FrontendsRecorded(run, s) && CopiesRecorded(run, s) && NoStrayCopies(run, s)
    requires FrontendEnabled(s, CopyBody(id, n))
    ensures
      var a, t := OfFrontend(CopyBody(id, n)), FrontendNext(s, CopyBody(id, n));
      FrontendsRecorded(run + [a], t) && CopiesRecorded(run + [a], t) && NoStrayCopies(run + [a], t)
  {
    var a, t := OfFrontend(CopyBody(id, n)), FrontendNext(s, CopyBody(id, n));
    assert (run + [a])[..|run|] == run;
    assert forall i :: i in s.frontends && i != id ==> t.frontends[i] == s.frontends[i];
  }

  lemma FrontendIsRecorded(run: seq<Step>, s: State, b: FrontendStep)
    requires Recorded(run, s) && FrontendEnabled(s, b)
    ensures Recorded(run + [OfFrontend(b)], FrontendNext(s, b))
  {
    var a, t := OfFrontend(b), FrontendNext(s, b);
    JobsStay(run, s, a, t);
    PostsStay(run, s, a, t);
    match b
    case Register(id, r) => RegisterIsRecorded(run, s, id, r);
    case CopyBody(id, n) => CopyIsRecorded(run, s, id, n);
    case _ => ClientsStay(run, s, a, t);
  }

  lemma PollIsRecorded(run: seq<Step>, s: State, b: PollStep)
    requires Recorded(run, s) && PollEnabled(s, b)
    ensures Recorded(run + [OfPoll(b)], PollNext(s, b))
  {
    var a, t := OfPoll(b), PollNext(s, b);
    ClientsStay(run, s, a, t);
    JobsStay(run, s, a, t);
    PostsStay(run, s, a, t);
  }

  lemma JobIsRecorded(run: seq<Step>, s: State, b: JobStep)
    requires Recorded(run, s) && JobEnabled(s, b)
    ensures Recorded(run + [OfJob(b)], JobNext(s, b))
  {
    var a, t := OfJob(b), JobNext(s, b);
    assert SameClients(s, t);
    ClientsStay(run, s, a, t);
    PostsStay(run, s, a, t);
    JobMoves(run, s, b);
  }

  lemma JobMoves(run: seq<Step>, s: State, b: JobStep)
    requires JobsRecorded(run, s) && JobEnabled(s, b)
    ensures JobsRecorded(run + [OfJob(b)], JobNext(s, b))
  {
    var t := JobNext(s, b);
    if b.LeakBody? {
      assert t.jobs == s.jobs && t.forwards == s.forwards;
    } else {
      assert t.jobs == s.jobs[b.job := t.jobs[b.job]];
      assert s.jobs[b.job].stage.Answered? ==> false;
      assert t.jobs[b.job].stage.Answered? <==> b.BackendAnswers?;
      assert !b.ForwardToBackend? ==> t.forwards == s.forwards;
      assert b.ForwardToBackend? ==>
        t.forwards == s.forwards + [Forward(b.job, s.jobs[b.job].id, s.jobs[b.job].stage.view)];
    }
  }

  lemma PostIsRecorded(run: seq<Step>, s: State, b: PostStep)
    requires Recorded(run, s) && PostEnabled(s, b)
    ensures Recorded(run + [OfPost(b)], PostNext(s, b))
  {
    var a, t := OfPost(b), PostNext(s, b);
    JobsStay(run, s, a, t);
    PostMoves(run, s, b);
    if b.SendPost? {
      SendIsRecorded(run, s, b.post);
    } else {
      ClientsStay(run, s, a, t);
    }
  }

  lemma PostMoves(run: seq<Step>, s: State, b: PostStep)
    requires PostsRecorded(run, s) && PostEnabled(s, b)
    ensures PostsRecorded(run + [OfPost(b)], PostNext(s, b))
  {
  }

  lemma SendIsRecorded(run: seq<Step>, s: State, p: PostId)
    requires FrontendsRecorded(run, s) && CopiesRecorded(run, s) && NoStrayCopies(run, s) && PostEnabled(s, SendPost(p))
    ensures
      var a, t := OfPost(SendPost(p)), PostNext(s, SendPost(p));
      FrontendsRecorded(run + [a], t) && CopiesRecorded(run + [a], t) && NoStrayCopies(run + [a], t)
  {
    var a, t := OfPost(SendPost(p)), PostNext(s, SendPost(p));
    assert (run + [a])[..|run|] == run;
    assert forall i :: i in s.frontends && i != s.posts[p].id ==> t.frontends[i] == s.frontends[i];
  }

  lemma StepIsRecorded(run: seq<Step>, s: State, a: Step)
    requires Recorded(run, s) && Enabled(s, a)
    ensures Recorded(run + [a], Next(s, a))
  {
    match a
    case OfFrontend(b) => FrontendIsRecorded(run, s, b);
    case OfPoll(b) => PollIsRecorded(run, s, b);
    case OfJob(b) => JobIsRecorded(run, s, b);
    case OfPost(b) => PostIsRecorded(run, s, b);
  }

  lemma {:induction false} StaysRecorded(done: seq<Step>, s: State, run: seq<Step>)
    requires Recorded(done, s) && Legal(s, run)
    ensures Recorded(done + run, Final(s, run))
    decreases |run|
  {
    if run == [] {
      assert done + run == done;
    } else {
      var a := run[0];
      StepIsRecorded(done, s, a);
      StaysRecorded(done + [a], Next(s, a), run[1..]);
      assert (done + [a]) + run[1..] == done + run;
    }
  }

  lemma RunIsRecorded(run: seq<Step>)
    requires Legal(Init, run)
    ensures Recorded(run, Final(Init, run))
  {
    StaysRecorded([], Init, run);
    assert [] + run == run;
  }

  /** The promise of README.md against the run: if the run registers `request` for `id`, and the client has
      a response from an agent, then the run has a backend's answer for which the client has exactly the
      bytes that the run copied to it, from the first on; that answer was given to the one request
      forwarded under this ID, by a post that the run looked up and sent; and what was forwarded is
      `request` if and only if no GET for this ID lost a part of the body. */
  lemma ClientGetsAnswerOfRun(run: seq<Step>, id: RequestId, request: Request)
    requires Legal(Init, run) && OfFrontend(Register(id, request)) in run
    requires
      var s := Final(Init, run);
      && id in s.frontends && s.frontends[id].received.Some? && s.frontends[id].received.value in s.posts
      && s.posts[s.frontends[id].received.value].origin.FromJob?
    ensures
      var s := Final(Init, run);
      AnswersClient(s, run, id, request, s.frontends[id].received.value, !LosesBytesOf(Init, run, id))
  {
    RunKeepsInv(Init, run);
    RunIsRecorded(run);
    SpilledExactlyWhenLost(Init, run, id);
    var s := Final(Init, run);
    ReceivedAnswersClient(s, run, id, request, s.frontends[id].received.value);
  }

  /** The client of `id` has what the run copied of the answer to `request`, which the post `p` brought;
      `whole` says whether the request was forwarded as it was. */
  ghost predicate AnswersClient(s: State, run: seq<Step>, id: RequestId, request: Request, p: PostId, whole: bool) {
    && id in s.frontends && p in s.posts && s.posts[p].origin.FromJob?
    && var j := s.posts[p].origin.job;
    && OfPost(SendPost(p)) in run && OfPost(LookUpPost(p, id, s.posts[p].body, FromJob(j))) in run
    && OfJob(ForwardToBackend(j)) in run
    && exists answer, view ::
         && OfJob(BackendAnswers(j, answer)) in run && Forward(j, id, view) in s.forwards
         && HasFrontOf(s, run, id, p, answer) && IsRequest(view, request, whole)
  }

  /** The client has what the run copied of the post, which is the front of the answer. */
  predicate HasFrontOf(s: State, run: seq<Step>, id: RequestId, p: PostId, answer: Bytes)
    requires id in s.frontends && p in s.posts
  {
    s.posts[p].body <= answer && CopiedIn(run, id) <= |answer| && BytesFor(s, id) == answer[..CopiedIn(run, id)]
  }

  predicate IsRequest(view: Request, request: Request, whole: bool) {
    view.head == request.head && (view == request <==> whole)
  }

  lemma ReceivedAnswersClient(s: State, run: seq<Step>, id: RequestId, request: Request, p: PostId)
    requires Inv(s) && Recorded(run, s) && OfFrontend(Register(id, request)) in run
    requires id in s.frontends && s.frontends[id].received == Some(p) && p in s.posts && s.posts[p].origin.FromJob?
    ensures AnswersClient(s, run, id, request, p, SpilledOf(s, id) == 0)
  {
    AnswerComesFromForward(s, id, p);
    AnswerOfPost(s, id, p);
    var j := s.posts[p].origin.job;
    var answer, view := s.jobs[j].stage.answer, s.jobs[j].stage.view;
    StepsOfRun(s, run, id, p, j, Forward(j, id, view));
    assert HasFrontOf(s, run, id, p, answer);
    assert IsRequest(view, request, SpilledOf(s, id) == 0);
  }

  lemma StepsOfRun(s: State, run: seq<Step>, id: RequestId, p: PostId, j: JobId, w: Forward)
    requires Recorded(run, s) && id in s.frontends && s.frontends[id].received == Some(p)
    requires p in s.posts && s.posts[p].id == id && s.posts[p].origin == FromJob(j)
    requires j in s.jobs && s.jobs[j].stage.Answered? && w in s.forwards && w.job == j
    ensures OfPost(SendPost(p)) in run && OfPost(LookUpPost(p, id, s.posts[p].body, FromJob(j))) in run
    ensures OfJob(ForwardToBackend(j)) in run && OfJob(BackendAnswers(j, s.jobs[j].stage.answer)) in run
  {
  }

  lemma AnswerOfPost(s: State, id: RequestId, p: PostId)
    requires Inv(s) && id in s.frontends && s.frontends[id].received == Some(p) && p in s.posts
    requires s.posts[p].origin.FromJob?
    ensures
      var j := s.posts[p].origin.job;
      && s.posts[p].id == id && j in s.jobs && s.jobs[j].stage.Answered? && s.posts[p].body <= s.jobs[j].stage.answer
      && BytesFor(s, id) == s.posts[p].body[..s.frontends[id].copied] && s.frontends[id].copied <= |s.posts[p].body|
      && s.jobs[j].id == id
  {
    assert CanPostFrom(s.jobs, s.posts[p].id, s.posts[p].body, s.posts[p].origin);
  }

  // ---------------------------------------------------------------- what is asked can be answered

  /** A post finds its entry exactly as long as the handler has not gone. */
  lemma FoundExactlyUntilGone(run: seq<Step>, p: PostId, id: RequestId, body: Bytes, origin: Origin)
    requires Legal(Init, run) && Enabled(Final(Init, run), OfPost(LookUpPost(p, id, body, origin)))
    ensures
      var s := Final(Init, run);
      var t := Next(s, OfPost(LookUpPost(p, id, body, origin)));
      && t.posts[p] == Post(id, body, origin, t.posts[p].stage)
      && (t.posts[p].stage == NotFound <==> id !in s.frontends || s.frontends[id].phase == Gone)
      && (t.posts[p].stage == LookedUp <==> id in s.frontends && s.frontends[id].phase != Gone)
  {
    RunKeepsInv(Init, run);
  }

  /** The job `j` posts the whole answer, and all of it is copied to the client. */
  function Delivering(id: RequestId, j: JobId, p: PostId, answer: Bytes): seq<Step> {
    [OfPost(LookUpPost(p, id, answer, FromJob(j))), OfPost(SendPost(p)), OfFrontend(CopyBody(id, |answer|))]
  }

  /** From every reachable state: a client that waits and whose request has been answered can be given all
      of the answer. */
  lemma AnswerCanBeDelivered(s: State, id: RequestId, j: JobId, p: PostId)
    requires Inv(s) && InPhase(s, id, Waiting) && p !in s.posts
    requires j in s.jobs && s.jobs[j].id == id && s.jobs[j].stage.Answered?
    ensures
      var answer := s.jobs[j].stage.answer;
      var run := Delivering(id, j, p, answer);
      Legal(s, run) && id in Final(s, run).frontends && BytesFor(Final(s, run), id) == answer
  {
    var answer := s.jobs[j].stage.answer;
    var a1, a2 := OfPost(LookUpPost(p, id, answer, FromJob(j))), OfPost(SendPost(p));
    assert s.frontends[id].copied == 0 && id in s.table;
    var s1 := Next(s, a1);
    assert s1.posts[p] == Post(id, answer, FromJob(j), LookedUp) && s1.frontends == s.frontends;
    HandOver(s1, id, p);
    ThreeSteps(s, a1, a2, OfFrontend(CopyBody(id, |answer|)));
  }

  lemma HandOver(s: State, id: RequestId, p: PostId)
    requires AtStage(s, p, LookedUp) && s.posts[p].id == id && InPhase(s, id, Waiting) && s.frontends[id].copied == 0
    ensures Enabled(s, OfPost(SendPost(p)))
    ensures
      var t, copy := Next(s, OfPost(SendPost(p))), OfFrontend(CopyBody(id, |s.posts[p].body|));
      Enabled(t, copy) && id in Next(t, copy).frontends && BytesFor(Next(t, copy), id) == s.posts[p].body
  {
    var body := s.posts[p].body;
    var t := Next(s, OfPost(SendPost(p)));
    assert t.frontends[id] == s.frontends[id].(phase := Copying, received := Some(p)) && t.posts[p].body == body;
    var u := Next(t, OfFrontend(CopyBody(id, |body|)));
    assert u.frontends[id].copied == |body| && u.posts[p].body == body;
    assert body[..|body|] == body;
  }

  lemma ThreeSteps(s: State, a1: Step, a2: Step, a3: Step)
    requires Enabled(s, a1) && Enabled(Next(s, a1), a2) && Enabled(Next(Next(s, a1), a2), a3)
    ensures Legal(s, [a1, a2, a3]) && Final(s, [a1, a2, a3]) == Next(Next(Next(s, a1), a2), a3)
  {
    var s3 := Next(Next(Next(s, a1), a2), a3);
    var run := NoSteps(s3);
    run := Prepend(Next(Next(s, a1), a2), a3, run);
    run := Prepend(Next(s, a1), a2, run);
    run := Prepend(s, a1, run);
    assert run == [a1, a2, a3];
  }

  // ---------------------------------------------------------------- the whole way

  /** The state `t` is `s` after the client of `id` was listed to `k` and the job `j` was started. */
  predicate Dispatched(s: State, t: State, id: RequestId, request: Request, j: JobId) {
    && id in t.table && id in t.frontends
    && t.frontends[id] == Frontend(request, request.body, false, 0, None, Waiting, None, 0)
    && j in t.jobs && t.jobs[j].id == id && t.jobs[j].stage == Fetching(0, false, [])
    && t.posts == s.posts
  }

  /** `run` leads from `s` to `t`. */
  predicate Leads(s: State, run: seq<Step>, t: State) { Legal(s, run) && Final(s, run) == t }

  lemma LeadsOn(s: State, run: seq<Step>, t: State, more: seq<Step>, u: State)
    requires Leads(s, run, t) && Leads(t, more, u)
    ensures Leads(s, run + more, u)
  {
    JoinRuns(s, run, more);
  }

  lemma LeadsStep(s: State, run: seq<Step>, t: State, a: Step)
    requires Leads(s, run, t) && Enabled(t, a)
    ensures Leads(s, run + [a], Next(t, a))
  {
    var one := NoSteps(Next(t, a));
    one := Prepend(t, a, one);
    LeadsOn(s, run, t, [a], Next(t, a));
  }

  lemma DispatchFresh(s: State, id: RequestId, request: Request, k: PollId, j: JobId) returns (run: seq<Step>, t: State)
    requires Inv(s) && id !in s.frontends && k !in s.polls && j !in s.jobs
    ensures Leads(s, run, t) && Dispatched(s, t, id, request, j)
  {
    var r0 := NoSteps(s);
    var a := OfFrontend(Register(id, request));
    var s1 := Next(s, a);
    LeadsStep(s, r0, s, a);
    var b := OfPoll(OpenPoll(k));
    var s2 := Next(s1, b);
    LeadsStep(s, r0 + [a], s1, b);
    var c := OfPoll(TakeId(k, id));
    var s3 := Next(s2, c);
    LeadsStep(s, r0 + [a] + [b], s2, c);
    assert s3.listed == s.listed + [Listing(k, id)] && s3.polls[k] == Open;
    assert s3.handled == s.handled && s3.jobs == s.jobs;
    var more, u := DispatchLast(s3, |s.listed|, j);
    t := u;
    run := r0 + [a] + [b] + [c] + more;
    LeadsOn(s, r0 + [a] + [b] + [c], s3, more, t);
  }

  lemma DispatchLast(s: State, i: nat, j: JobId) returns (run: seq<Step>, t: State)
    requires i < |s.listed| && i !in s.handled && Pollable(s, s.listed[i].poll, Open) && j !in s.jobs
    ensures Leads(s, run, t)
    ensures t.table == s.table && t.frontends == s.frontends && t.posts == s.posts
    ensures j in t.jobs && t.jobs[j] == Job(i, s.listed[i].id, Fetching(0, false, []))
  {
    var a, b := OfPoll(ReportPoll(s.listed[i].poll)), OfPoll(Dispatch(i, j));
    var r0 := NoSteps(s);
    var s1 := Next(s, a);
    LeadsStep(s, r0, s, a);
    t := Next(s1, b);
    LeadsStep(s, r0 + [a], s1, b);
    run := r0 + [a] + [b];
  }

  /** The job gets the whole request, forwards it and is answered. */
  lemma FetchAndForward(s: State, id: RequestId, request: Request, j: JobId, answer: Bytes)
    returns (run: seq<Step>, t: State)
    requires Dispatched(s, s, id, request, j)
    ensures Leads(s, run, t) && InPhase(t, id, Waiting) && t.posts == s.posts
    ensures j in t.jobs && t.jobs[j].id == id && t.jobs[j].stage == Answered(request, answer)
    ensures Forward(j, id, request) in t.forwards
  {
    var get, u := FetchWhole(s, id, request, j);
    var a, b := OfJob(ForwardToBackend(j)), OfJob(BackendAnswers(j, answer));
    var u1 := Next(u, a);
    LeadsStep(s, get, u, a);
    assert u1.jobs[j].stage == Forwarded(request) && u1.forwards == u.forwards + [Forward(j, id, request)];
    t := Next(u1, b);
    LeadsStep(s, get + [a], u1, b);
    run := get + [a] + [b];
  }

  lemma FetchWhole(s: State, id: RequestId, request: Request, j: JobId) returns (run: seq<Step>, t: State)
    requires Dispatched(s, s, id, request, j)
    ensures Leads(s, run, t) && InPhase(t, id, Waiting) && t.posts == s.posts
    ensures j in t.jobs && t.jobs[j].id == id && t.jobs[j].stage == Fetched(request)
  {
    var a, b, c := OfJob(OpenGet(j)), OfJob(ReadBody(j, |request.body|)), OfJob(FinishGet(j));
    var r0 := NoSteps(s);
    var s1 := Next(s, a);
    LeadsStep(s, r0, s, a);
    assert s1.jobs[j].stage == Fetching(0, true, []) && s1.frontends[id] == s.frontends[id].(openedBy := Some(j));
    var s2 := Next(s1, b);
    LeadsStep(s, r0 + [a], s1, b);
    assert request.body[..|request.body|] == request.body && [] + request.body == request.body;
    assert s2.jobs[j].stage == Fetching(0, true, request.body) && s2.frontends[id].undrained == [];
    t := Next(s2, c);
    LeadsStep(s, r0 + [a] + [b], s2, c);
    run := r0 + [a] + [b] + [c];
  }

  /** From every reachable state, a new request can be forwarded to the backend as it is, and its client be
      given all of the backend's answer. */
  lemma EveryRequestCanBeAnswered(s: State, id: RequestId, request: Request, answer: Bytes,
                                  k: PollId, j: JobId, p: PostId)
    returns (run: seq<Step>)
    requires Inv(s) && id !in s.frontends && k !in s.polls && j !in s.jobs && p !in s.posts
    ensures Legal(s, run)
    ensures
      var t := Final(s, run);
      Forward(j, id, request) in t.forwards && id in t.frontends && BytesFor(t, id) == answer
  {
    var first, s1 := DispatchFresh(s, id, request, k, j);
    var second, s2 := FetchAndForward(s1, id, request, j, answer);
    LeadsOn(s, first, s1, second, s2);
    RunKeepsInv(s, first + second);
    AnswerCanBeDelivered(s2, id, j, p);
    var third := Delivering(id, j, p, answer);
    run := first + second + third;
    LeadsOn(s, first + second, s2, third, Final(s2, third));
    ForwardsStay(s2, third, Forward(j, id, request));
  }

  lemma {:induction false} ForwardsStay(s: State, run: seq<Step>, w: Forward)
    requires Legal(s, run) && w in s.forwards
    ensures w in Final(s, run).forwards
    decreases |run|
  {
    if run != [] {
      ForwardStays(s, run[0], w);
      ForwardsStay(Next(s, run[0]), run[1..], w);
    }
  }

  lemma ForwardStays(s: State, a: Step, w: Forward)
    requires Enabled(s, a) && w in s.forwards
    ensures w in Next(s, a).forwards
  {
    match a
    case OfFrontend(b) => assert FrontendNext(s, b).forwards == s.forwards;
    case OfPoll(b) => assert PollNext(s, b).forwards == s.forwards;
    case OfJob(b) => assert w in JobNext(s, b).forwards;
    case OfPost(b) => assert PostNext(s, b).forwards == s.forwards;
  }

  // ---------------------------------------------------------------- how often a job asks

  function OpensIn(run: seq<Step>, j: JobId): nat
  {
    if run == [] then 0
    else OpensIn(run[..|run| - 1], j) + (if run[|run| - 1] == OfJob(OpenGet(j)) then 1 else 0)
  }

  /** A job that is still fetching has made no more GETs than its attempts tell. */
  ghost predicate OpensBounded(run: seq<Step>, s: State, j: JobId) {
    && OpensIn(run, j) <= 3
    && (j !in s.jobs ==> OpensIn(run, j) == 0)
    && (j in s.jobs && s.jobs[j].stage.Fetching? ==>
          OpensIn(run, j) <= s.jobs[j].stage.attempts + (if s.jobs[j].stage.reading then 1 else 0))
  }

  lemma JobStepKeepsOpens(run: seq<Step>, s: State, b: JobStep, j: JobId)
    requires OpensBounded(run, s, j) && JobEnabled(s, b)
    ensures OpensBounded(run + [OfJob(b)], JobNext(s, b), j)
  {
    assert (run + [OfJob(b)])[..|run|] == run;
    if b.LeakBody? || b.job != j {
      assert j in s.jobs ==> JobNext(s, b).jobs[j] == s.jobs[j];
    }
  }

  lemma StepKeepsOpens(run: seq<Step>, s: State, a: Step, j: JobId)
    requires OpensBounded(run, s, j) && Enabled(s, a)
    ensures OpensBounded(run + [a], Next(s, a), j)
  {
    assert (run + [a])[..|run|] == run;
    match a
    case OfFrontend(b) => assert FrontendNext(s, b).jobs == s.jobs;
    case OfPoll(b) => assert j in s.jobs ==> PollNext(s, b).jobs[j] == s.jobs[j];
    case OfJob(b) => JobStepKeepsOpens(run, s, b, j);
    case OfPost(b) => assert PostNext(s, b).jobs == s.jobs;
  }

  lemma {:induction false} StaysBounded(done: seq<Step>, s: State, run: seq<Step>, j: JobId)
    requires OpensBounded(done, s, j) && Legal(s, run)
    ensures OpensBounded(done + run, Final(s, run), j)
    decreases |run|
  {
    if run == [] {
      assert done + run == done;
    } else {
      StepKeepsOpens(done, s, run[0], j);
      StaysBounded(done + [run[0]], Next(s, run[0]), run[1..], j);
      assert (done + [run[0]]) + run[1..] == done + run;
    }
  }

  /** `getRequestWithRetries` asks for a request at most three times, and again as long as fewer than three
      have failed and the request is there. */
  lemma AtMostThreeGets(run: seq<Step>, j: JobId)
    requires Legal(Init, run)
    ensures OpensIn(run, j) <= 3
    ensures
      var s := Final(Init, run);
      (&& j in s.jobs && s.jobs[j].stage.Fetching? && !s.jobs[j].stage.reading && s.jobs[j].stage.attempts < 3
       && s.jobs[j].id in s.table && s.jobs[j].id in s.frontends) ==>
      Enabled(s, OfJob(OpenGet(j)))
  {
    StaysBounded([], Init, run, j);
    assert [] + run == run;
  }

  // ---------------------------------------------------------------- what has ended

  predicate Returns(a: Step, id: RequestId) {
    a == OfFrontend(CancelOffer(id)) || a == OfFrontend(CancelWait(id)) || a == OfFrontend(FinishCopy(id))
  }

  lemma FrontendReturns(s: State, b: FrontendStep, id: RequestId)
    requires FrontendEnabled(s, b)
    requires Returns(OfFrontend(b), id) || (id in s.frontends && HasReturned(s.frontends[id]))
    ensures id in FrontendNext(s, b).frontends && HasReturned(FrontendNext(s, b).frontends[id])
  {
  }

  lemma StepReturns(s: State, a: Step, id: RequestId)
    requires Inv(s) && Enabled(s, a) && (Returns(a, id) || (id in s.frontends && HasReturned(s.frontends[id])))
    ensures id in Next(s, a).frontends && HasReturned(Next(s, a).frontends[id])
  {
    match a
    case OfFrontend(b) => FrontendReturns(s, b, id);
    case OfPoll(b) => PollStepKeepsReceipts(s, b, id);
    case OfJob(b) => JobStepKeepsReceipts(s, b, id);
    case OfPost(b) => PostStepKeepsReceipts(s, b, id);
  }

  lemma {:induction false} ReturnedIsFinal(s: State, run: seq<Step>, id: RequestId)
    requires Inv(s) && Legal(s, run)
    requires (exists i :: 0 <= i < |run| && Returns(run[i], id)) || (id in s.frontends && HasReturned(s.frontends[id]))
    ensures id in Final(s, run).frontends && HasReturned(Final(s, run).frontends[id])
    decreases |run|
  {
    if run != [] {
      if Returns(run[0], id) || (id in s.frontends && HasReturned(s.frontends[id])) {
        StepReturns(s, run[0], id);
      } else {
        var i :| 0 <= i < |run| && Returns(run[i], id);
        assert run[1..][i - 1] == run[i];
      }
      StepKeepsInv(s, run[0]);
      ReturnedIsFinal(Next(s, run[0]), run[1..], id);
    }
  }

  /** Once the run cancels the client's request or ends its copying, no post can be sent to that client and no
      byte copied to it any more. */
  lemma CancelledGetsNothing(run: seq<Step>, i: nat, id: RequestId)
    requires Legal(Init, run) && i < |run| && Returns(run[i], id)
    ensures
      var s := Final(Init, run);
      && (forall p :: p in s.posts && s.posts[p].id == id ==> !Enabled(s, OfPost(SendPost(p))))
      && (forall n :: !Enabled(s, OfFrontend(CopyBody(id, n))))
  {
    ReturnedIsFinal(Init, run, id);
  }

  /** A list call that was lost on its way stays lost, an ID that was skipped stays skipped, and a post that was
      dropped stays dropped. */
  ghost predicate EndedStays(run: seq<Step>, s: State) {
    && (forall k :: OfPoll(LosePoll(k)) in run ==> Pollable(s, k, Lost))
    && (forall i :: OfPoll(SkipListing(i)) in run ==> i in s.handled && s.handled[i] == None)
    && (forall p :: OfPost(DropPost(p)) in run ==> AtStage(s, p, Dropped))
  }

  lemma StepKeepsEnded(run: seq<Step>, s: State, a: Step)
    requires EndedStays(run, s) && Enabled(s, a)
    ensures EndedStays(run + [a], Next(s, a))
  {
    match a
    case OfFrontend(b) => FrontendKeepsEnded(run, s, b);
    case OfPoll(b) => PollKeepsEnded(run, s, b);
    case OfJob(b) => JobKeepsEnded(run, s, b);
    case OfPost(b) => PostKeepsEnded(run, s, b);
  }

  lemma OtherKeepsEnded(run: seq<Step>, s: State, a: Step, t: State)
    requires EndedStays(run, s) && t.polls == s.polls && t.posts == s.posts && t.handled == s.handled
    requires a.OfFrontend? || a.OfJob?
    ensures EndedStays(run + [a], t)
  {
  }

  lemma FrontendKeepsEnded(run: seq<Step>, s: State, b: FrontendStep)
    requires EndedStays(run, s) && FrontendEnabled(s, b)
    ensures EndedStays(run + [OfFrontend(b)], FrontendNext(s, b))
  {
    OtherKeepsEnded(run, s, OfFrontend(b), FrontendNext(s, b));
  }

  lemma JobKeepsEnded(run: seq<Step>, s: State, b: JobStep)
    requires EndedStays(run, s) && JobEnabled(s, b)
    ensures EndedStays(run + [OfJob(b)], JobNext(s, b))
  {
    OtherKeepsEnded(run, s, OfJob(b), JobNext(s, b));
  }

  lemma PollKeepsEnded(run: seq<Step>, s: State, b: PollStep)
    requires EndedStays(run, s) && PollEnabled(s, b)
    ensures EndedStays(run + [OfPoll(b)], PollNext(s, b))
  {
    assert PollNext(s, b).posts == s.posts;
  }

  lemma PostKeepsEnded(run: seq<Step>, s: State, b: PostStep)
    requires EndedStays(run, s) && PostEnabled(s, b)
    ensures EndedStays(run + [OfPost(b)], PostNext(s, b))
  {
    assert PostNext(s, b).polls == s.polls && PostNext(s, b).handled == s.handled;
  }

  lemma {:induction false} RunKeepsEnded(done: seq<Step>, s: State, run: seq<Step>)
    requires EndedStays(done, s) && Legal(s, run)
    ensures EndedStays(done + run, Final(s, run))
    decreases |run|
  {
    if run == [] {
      assert done + run == done;
    } else {
      StepKeepsEnded(done, s, run[0]);
      RunKeepsEnded(done + [run[0]], Next(s, run[0]), run[1..]);
      assert (done + [run[0]]) + run[1..] == done + run;
    }
  }

  /** No job is started from a list that was lost, or for an ID that the agent skipped, and no post is sent that
      was dropped. */
  lemma LostAndDroppedStaySo(run: seq<Step>)
    requires Legal(Init, run)
    ensures
      var s := Final(Init, run);
      && (forall i: nat, j :: i < |s.listed| && OfPoll(LosePoll(s.listed[i].poll)) in run ==>
            !Enabled(s, OfPoll(Dispatch(i, j))))
      && (forall i, j :: OfPoll(SkipListing(i)) in run ==> !Enabled(s, OfPoll(Dispatch(i, j))))
      && (forall p :: OfPost(DropPost(p)) in run ==> !Enabled(s, OfPost(SendPost(p))))
  {
    RunKeepsEnded([], Init, run);
    assert [] + run == run;
  }

  /** Whatever is under way may fail at any time: a client may go, a list or a GET be lost, a GET break off and
      its handler read on, a job be given up, and a post be dropped; and anyone may post. */
  lemma AnythingMayFail(s: State, id: RequestId, k: PollId, i: nat, j: JobId, p: PostId)
    ensures InPhase(s, id, Offering) ==> Enabled(s, OfFrontend(CancelOffer(id)))
    ensures InPhase(s, id, Waiting) ==> Enabled(s, OfFrontend(CancelWait(id)))
    ensures InPhase(s, id, Copying) ==> Enabled(s, OfFrontend(FinishCopy(id)))
    ensures InPhase(s, id, Leaving) ==> Enabled(s, OfFrontend(Unregister(id)))
    ensures Pollable(s, k, Open) ==> Enabled(s, OfPoll(LosePoll(k)))
    ensures Unhandled(s, i) ==> Enabled(s, OfPoll(SkipListing(i)))
    ensures IsFetching(s, j, true) ==> Enabled(s, OfJob(LoseGet(j))) && Enabled(s, OfJob(BreakGet(j)))
    ensures IsFetching(s, j, false) ==> Enabled(s, OfJob(LoseGet(j)))
    ensures id in s.frontends && s.frontends[id].leaking && s.frontends[id].undrained != [] ==>
      Enabled(s, OfJob(LeakBody(id, |s.frontends[id].undrained|)))
    ensures j in s.jobs && (s.jobs[j].stage.Fetching? || s.jobs[j].stage.Fetched?) ==> Enabled(s, OfJob(AbandonJob(j)))
    ensures AtStage(s, p, LookedUp) ==> Enabled(s, OfPost(DropPost(p)))
    ensures p !in s.posts ==> Enabled(s, OfPost(LookUpPost(p, id, [], Stray)))
  {
  }
}
