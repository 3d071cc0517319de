/** The stand-alone proxy (server/server.go) together with any number of polling agents
    (agent/agent.go), as a step relation over every interleaving.

    A frontend handler registers its request, offers the ID on an unbuffered channel, waits for
    a response on its own unbuffered channel, and finally removes its table entry. An agent's
    list call takes offered IDs; each reported ID may start one job, which fetches the request,
    forwards it to the backend and posts the answer. A post looks its entry up in one step and
    hands over its response in another, so a cancellation can fall in between. */
module Rendezvous {
  import opened Basics

  type RequestId = string
  type PollId = nat
  type JobId = nat
  type PostId = nat

  /** A client request: everything but the body, and the body, which can be read only once. */
  datatype Request = Request(head: Bytes, body: Bytes)

  datatype Phase = Offering | Waiting | Copying | Leaving | Gone

  /** One call of `handleFrontendRequest`. `undrained` is what is left in the request's body
      reader, and `leaking` says that a GET which failed on its way to the agent may still be
      reading from it. `spilled`, `openedBy` and `received` record history: how many bytes of the
      body no longer reach the job, the job that fetches the request, and the post that answered it.
      `copied` is how much of that post's body the client has. */
  datatype Frontend = Frontend(
    registered: Request,
    undrained: Bytes,
    leaking: bool,
    spilled: nat,
    openedBy: Option<JobId>,
    phase: Phase,
    received: Option<PostId>,
    copied: nat)

  datatype PollStatus = Open | Reported | Lost

  /** The ID `id` was taken off the channel by the list call `poll`. */
  datatype Listing = Listing(poll: PollId, id: RequestId)

  /** A job that is fetching has made `attempts` GETs that failed; if it is `reading`, the present one
      has brought `got` of the body. */
  datatype JobStage =
    | Fetching(attempts: nat, reading: bool, got: Bytes)
    | Fetched(view: Request)
    | Forwarded(view: Request)
    | Answered(view: Request, answer: Bytes)
    | Abandoned

  datatype Job = Job(listing: nat, id: RequestId, stage: JobStage)

  /** The backend received `view` from `job`. */
  datatype Forward = Forward(job: JobId, id: RequestId, view: Request)

  /** Posts of the model's agents come from a job; any other caller's post is `Stray`. */
  datatype Origin = FromJob(job: JobId) | Stray

  datatype PostStage = LookedUp | Sent | Dropped | NotFound

  datatype Post = Post(id: RequestId, body: Bytes, origin: Origin, stage: PostStage)

  datatype State = State(
    table: set<RequestId>,
    frontends: map<RequestId, Frontend>,
    polls: map<PollId, PollStatus>,
    listed: seq<Listing>,
    handled: map<nat, Option<JobId>>,
    jobs: map<JobId, Job>,
    forwards: seq<Forward>,
    posts: map<PostId, Post>)

  const Init := State({}, map[], map[], [], map[], map[], [], map[])

  /** GETs are attempted at most three times (maxReadRequestRetryCount is 2). */
  const MAX_FETCHES := 3

  /** Steps of `handleFrontendRequest`. */
  datatype FrontendStep =
    | Register(id: RequestId, request: Request)
    | CancelOffer(id: RequestId)
    | CancelWait(id: RequestId)
    | CopyBody(id: RequestId, size: nat)
    | FinishCopy(id: RequestId)
    | Unregister(id: RequestId)

  /** Steps of a list call and of the agent that made it. */
  datatype PollStep =
    | OpenPoll(poll: PollId)
    | TakeId(poll: PollId, id: RequestId)
    | ReportPoll(poll: PollId)
    | LosePoll(poll: PollId)
    | Dispatch(listing: nat, job: JobId)
    | SkipListing(listing: nat)

  /** Steps of `processOneRequest` and `forwardRequest`. */
  datatype JobStep =
    | OpenGet(job: JobId)
    | ReadBody(job: JobId, size: nat)
    | FinishGet(job: JobId)
    | BreakGet(job: JobId)
    | LoseGet(job: JobId)
    | LeakBody(id: RequestId, size: nat)
    | AbandonJob(job: JobId)
    | ForwardToBackend(job: JobId)
    | BackendAnswers(job: JobId, answer: Bytes)

  /** Steps of `handleAgentPostResponse`. */
  datatype PostStep =
    | LookUpPost(post: PostId, id: RequestId, body: Bytes, origin: Origin)
    | SendPost(post: PostId)
    | DropPost(post: PostId)

  datatype Step =
    | OfFrontend(frontendStep: FrontendStep)
    | OfPoll(pollStep: PollStep)
    | OfJob(jobStep: JobStep)
    | OfPost(postStep: PostStep)

  predicate InPhase(s: State, id: RequestId, phase: Phase) {
    id in s.frontends && s.frontends[id].phase == phase
  }

  predicate AtStage(s: State, p: PostId, stage: PostStage) {
    p in s.posts && s.posts[p].stage == stage
  }

  predicate Pollable(s: State, k: PollId, status: PollStatus) {
    k in s.polls && s.polls[k] == status
  }

  predicate Unhandled(s: State, i: nat) {
    i < |s.listed| && i !in s.handled && Pollable(s, s.listed[i].poll, Reported)
  }

  /** The job has a GET under way, or could start one. */
  predicate IsFetching(s: State, j: JobId, reading: bool) {
    && j in s.jobs && s.jobs[j].stage.Fetching? && s.jobs[j].stage.reading == reading
    && s.jobs[j].stage.attempts < MAX_FETCHES
    && (reading ==> s.jobs[j].id in s.frontends)
  }

  /** A POST carries the answer from its first byte, but may break off, and may be followed by another. */
  predicate CanPostFrom(jobs: map<JobId, Job>, id: RequestId, body: Bytes, origin: Origin) {
    match origin
    case Stray => true
    case FromJob(j) =>
      j in jobs && jobs[j].id == id && jobs[j].stage.Answered? && body <= jobs[j].stage.answer
  }

  /** IDs are new when they first appear: `newID` never repeats. */
  predicate FrontendEnabled(s: State, a: FrontendStep) {
    match a
    case Register(id, _) => id !in s.frontends
    case CancelOffer(id) => InPhase(s, id, Offering)
    case CancelWait(id) => InPhase(s, id, Waiting)
    case CopyBody(id, n) =>
      && InPhase(s, id, Copying) && s.frontends[id].received.Some? && s.frontends[id].received.value in s.posts
      && s.frontends[id].copied + n <= |s.posts[s.frontends[id].received.value].body|
    case FinishCopy(id) => InPhase(s, id, Copying)
    case Unregister(id) => InPhase(s, id, Leaving)
  }

  predicate PollEnabled(s: State, a: PollStep) {
    match a
    case OpenPoll(k) => k !in s.polls
    case TakeId(k, id) => Pollable(s, k, Open) && InPhase(s, id, Offering)
    case ReportPoll(k) => Pollable(s, k, Open)
    case LosePoll(k) => Pollable(s, k, Open)
    case Dispatch(i, j) => Unhandled(s, i) && j !in s.jobs
    case SkipListing(i) => Unhandled(s, i)
  }

  predicate JobEnabled(s: State, a: JobStep) {
    match a
    case OpenGet(j) => IsFetching(s, j, false) && s.jobs[j].id in s.table && s.jobs[j].id in s.frontends
    case ReadBody(j, n) => IsFetching(s, j, true) && n <= |s.frontends[s.jobs[j].id].undrained|
    case FinishGet(j) => IsFetching(s, j, true) && s.frontends[s.jobs[j].id].undrained == []
    case BreakGet(j) => IsFetching(s, j, true)
    case LoseGet(j) => IsFetching(s, j, false) || IsFetching(s, j, true)
    case LeakBody(id, n) => id in s.frontends && s.frontends[id].leaking && 0 < n <= |s.frontends[id].undrained|
    case AbandonJob(j) => j in s.jobs && (s.jobs[j].stage.Fetching? || s.jobs[j].stage.Fetched?)
    case ForwardToBackend(j) => j in s.jobs && s.jobs[j].stage.Fetched?
    case BackendAnswers(j, _) => j in s.jobs && s.jobs[j].stage.Forwarded?
  }

  predicate PostEnabled(s: State, a: PostStep) {
    match a
    case LookUpPost(p, id, body, origin) => p !in s.posts && CanPostFrom(s.jobs, id, body, origin)
    case SendPost(p) => AtStage(s, p, LookedUp) && InPhase(s, s.posts[p].id, Waiting)
    case DropPost(p) => AtStage(s, p, LookedUp)
  }

  predicate Enabled(s: State, a: Step) {
    match a
    case OfFrontend(b) => FrontendEnabled(s, b)
    case OfPoll(b) => PollEnabled(s, b)
    case OfJob(b) => JobEnabled(s, b)
    case OfPost(b) => PostEnabled(s, b)
  }

  function SetPhase(s: State, id: RequestId, phase: Phase): State
    requires id in s.frontends
  {
    s.(frontends := s.frontends[id := s.frontends[id].(phase := phase)])
  }

  function SetStage(s: State, j: JobId, stage: JobStage): State
    requires j in s.jobs
  {
    s.(jobs := s.jobs[j := s.jobs[j].(stage := stage)])
  }

  function FrontendNext(s: State, a: FrontendStep): State
    requires FrontendEnabled(s, a)
  {
    match a
    case Register(id, request) =>
      s.(table := s.table + {id},
         frontends := s.frontends[id := Frontend(request, request.body, false, 0, None, Offering, None, 0)])
    case CancelOffer(id) => SetPhase(s, id, Leaving)
    case CancelWait(id) => SetPhase(s, id, Leaving)
    case CopyBody(id, n) => SetBody(s, id, s.frontends[id].(copied := s.frontends[id].copied + n))
    case FinishCopy(id) => SetPhase(s, id, Leaving)
    case Unregister(id) => SetPhase(s, id, Gone).(table := s.table - {id})
  }

  function PollNext(s: State, a: PollStep): State
    requires PollEnabled(s, a)
  {
    match a
    case OpenPoll(k) => s.(polls := s.polls[k := Open])
    case TakeId(k, id) => SetPhase(s, id, Waiting).(listed := s.listed + [Listing(k, id)])
    case ReportPoll(k) => s.(polls := s.polls[k := Reported])
    case LosePoll(k) => s.(polls := s.polls[k := Lost])
    case Dispatch(i, j) =>
      s.(handled := s.handled[i := Some(j)], jobs := s.jobs[j := Job(i, s.listed[i].id, Fetching(0, false, []))])
    case SkipListing(i) => s.(handled := s.handled[i := None])
  }

  function SetBody(s: State, id: RequestId, f: Frontend): State { s.(frontends := s.frontends[id := f]) }

  /** A GET looks its request up and writes it out, which empties the request's body reader. A GET that
      fails before the agent has its head is lost: it has consumed what it read, and its handler may go
      on reading while the agent's next GET is under way, or close the body, which loses the rest. A GET
      that breaks off after its head is not tried again: the agent forwards what it got. */
  function JobNext(s: State, a: JobStep): State
    requires JobEnabled(s, a)
  {
    match a
    case OpenGet(j) =>
      var id := s.jobs[j].id;
      SetBody(SetStage(s, j, s.jobs[j].stage.(reading := true)), id, s.frontends[id].(openedBy := Some(j)))
    case ReadBody(j, n) =>
      var id := s.jobs[j].id;
      var f := s.frontends[id];
      SetBody(SetStage(s, j, s.jobs[j].stage.(got := s.jobs[j].stage.got + f.undrained[..n])), id,
              f.(undrained := f.undrained[n..]))
    case FinishGet(j) =>
      SetStage(s, j, Fetched(Request(s.frontends[s.jobs[j].id].registered.head, s.jobs[j].stage.got)))
    case BreakGet(j) =>
      var f := s.frontends[s.jobs[j].id];
      SetBody(SetStage(s, j, Fetched(Request(f.registered.head, s.jobs[j].stage.got))), s.jobs[j].id,
              f.(undrained := [], spilled := f.spilled + |f.undrained|))
    case LoseGet(j) =>
      var id := s.jobs[j].id;
      var stage := s.jobs[j].stage;
      var failed := SetStage(s, j, Fetching(stage.attempts + 1, false, []));
      if !stage.reading then failed else
      var f := s.frontends[id];
      SetBody(failed, id, f.(leaking := true, spilled := f.spilled + |stage.got|))
    case LeakBody(id, n) =>
      var f := s.frontends[id];
      SetBody(s, id, f.(undrained := f.undrained[n..], spilled := f.spilled + n))
    case AbandonJob(j) => SetStage(s, j, Abandoned)
    case ForwardToBackend(j) =>
      var view := s.jobs[j].stage.view;
      SetStage(s, j, Forwarded(view)).(forwards := s.forwards + [Forward(j, s.jobs[j].id, view)])
    case BackendAnswers(j, answer) => SetStage(s, j, Answered(s.jobs[j].stage.view, answer))
  }

  function PostNext(s: State, a: PostStep): State
    requires PostEnabled(s, a)
  {
    match a
    case LookUpPost(p, id, body, origin) =>
      s.(posts := s.posts[p := Post(id, body, origin, if id in s.table then LookedUp else NotFound)])
    case SendPost(p) =>
      var id := s.posts[p].id;
      s.(posts := s.posts[p := s.posts[p].(stage := Sent)],
         frontends := s.frontends[id := s.frontends[id].(phase := Copying, received := Some(p))])
    case DropPost(p) => s.(posts := s.posts[p := s.posts[p].(stage := Dropped)])
  }

  function Next(s: State, a: Step): State
    requires Enabled(s, a)
  {
    match a
    case OfFrontend(b) => FrontendNext(s, b)
    case OfPoll(b) => PollNext(s, b)
    case OfJob(b) => JobNext(s, b)
    case OfPost(b) => PostNext(s, b)
  }

  predicate Legal(s: State, run: seq<Step>)
    decreases |run|
  {
    run == [] || (Enabled(s, run[0]) && Legal(Next(s, run[0]), run[1..]))
  }

  function Final(s: State, run: seq<Step>): State
    requires Legal(s, run)
    decreases |run|
  {
    if run == [] then s else Final(Next(s, run[0]), run[1..])
  }

  // ---------------------------------------------------------------- the invariant

  ghost predicate TableInv(table: set<RequestId>, frontends: map<RequestId, Frontend>) {
    forall id :: id in table <==> id in frontends && frontends[id].phase != Gone
  }

  ghost predicate ListInv(listed: seq<Listing>, frontends: map<RequestId, Frontend>) {
    && (forall i :: 0 <= i < |listed| ==> listed[i].id in frontends && frontends[listed[i].id].phase != Offering)
    && (forall i, k :: 0 <= i < k < |listed| ==> listed[i].id != listed[k].id)
  }

  /** Every byte of the body is in the body reader, with the present GET, or lost to a failed one; and
      while none is lost, they are in order. */
  predicate Accounted(f: Frontend, got: Bytes) {
    && |got| + f.spilled + |f.undrained| == |f.registered.body|
    && (f.spilled == 0 ==> got + f.undrained == f.registered.body)
  }

  /** What the fetching job has of the request. */
  predicate FetchedSoFar(f: Frontend, stage: JobStage) {
    match stage
    case Fetching(_, _, got) => Accounted(f, got)
    case Abandoned => true
    case _ => f.undrained == [] && stage.view.head == f.registered.head && Accounted(f, stage.view.body)
  }

  ghost predicate DrainInv(frontends: map<RequestId, Frontend>, jobs: map<JobId, Job>) {
    forall id :: id in frontends ==> BodyAccounted(frontends[id], id, jobs)
  }

  predicate BodyAccounted(f: Frontend, id: RequestId, jobs: map<JobId, Job>) {
    match f.openedBy
    case None => f.undrained == f.registered.body && f.spilled == 0 && !f.leaking
    case Some(j) => j in jobs && jobs[j].id == id && FetchedSoFar(f, jobs[j].stage)
  }

  ghost predicate JobInv(jobs: map<JobId, Job>, listed: seq<Listing>, handled: map<nat, Option<JobId>>) {
    && (forall i :: i in handled ==> i < |listed|)
    && (forall j :: j in jobs ==>
          && jobs[j].listing < |listed|
          && jobs[j].listing in handled && handled[jobs[j].listing] == Some(j)
          && jobs[j].id == listed[jobs[j].listing].id)
  }

  predicate HasView(stage: JobStage) {
    stage.Fetched? || stage.Forwarded? || stage.Answered?
  }

  /** A job that has anything of its request is the one that opened it. */
  ghost predicate ViewInv(jobs: map<JobId, Job>, frontends: map<RequestId, Frontend>) {
    forall j :: j in jobs ==> OpenedIfUsed(j, jobs[j], frontends)
  }

  predicate OpenedIfUsed(j: JobId, job: Job, frontends: map<RequestId, Frontend>) {
    if HasView(job.stage) || (job.stage.Fetching? && job.stage.reading)
    then job.id in frontends && frontends[job.id].openedBy == Some(j)
    else job.stage.Fetching? ==> job.stage.got == []
  }

  predicate WasForwarded(stage: JobStage) {
    stage.Forwarded? || stage.Answered?
  }

  ghost predicate ForwardInv(forwards: seq<Forward>, jobs: map<JobId, Job>) {
    && (forall w :: w in forwards ==>
          && w.job in jobs && jobs[w.job].id == w.id
          && WasForwarded(jobs[w.job].stage) && jobs[w.job].stage.view == w.view)
    && (forall i, k :: 0 <= i < k < |forwards| ==> forwards[i].job != forwards[k].job)
    && (forall j :: j in jobs && WasForwarded(jobs[j].stage) ==>
          Forward(j, jobs[j].id, jobs[j].stage.view) in forwards)
  }

  ghost predicate PostInv(posts: map<PostId, Post>, frontends: map<RequestId, Frontend>) {
    forall p :: p in posts ==>
      && (posts[p].stage != NotFound ==> posts[p].id in frontends)
      && (posts[p].stage == Sent ==> frontends[posts[p].id].received == Some(p))
  }

  ghost predicate OriginInv(posts: map<PostId, Post>, jobs: map<JobId, Job>) {
    forall p :: p in posts ==> CanPostFrom(jobs, posts[p].id, posts[p].body, posts[p].origin)
  }

  ghost predicate ReceiveInv(frontends: map<RequestId, Frontend>, posts: map<PostId, Post>) {
    forall id :: id in frontends ==>
      var f := frontends[id];
      && (f.received.Some? ==> f.received.value in posts && posts[f.received.value].stage == Sent
                               && posts[f.received.value].id == id && f.copied <= |posts[f.received.value].body|)
      && (f.received == None ==> f.copied == 0)
      && (f.phase == Copying ==> f.received.Some?)
      && (f.phase == Offering || f.phase == Waiting ==> f.received == None)
  }

  /** What relates the frontend handlers to the rest. */
  ghost predicate FrontendInv(s: State) {
    && TableInv(s.table, s.frontends)
    && ListInv(s.listed, s.frontends)
    && PostInv(s.posts, s.frontends)
    && ReceiveInv(s.frontends, s.posts)
  }

  /** What relates the bodies that jobs have read to the bodies that clients sent. */
  ghost predicate BodyInv(s: State) {
    DrainInv(s.frontends, s.jobs) && ViewInv(s.jobs, s.frontends)
  }

  /** What relates the agents' jobs to the rest. */
  ghost predicate AgentInv(s: State) {
    && BodyInv(s)
    && JobInv(s.jobs, s.listed, s.handled)
    && ForwardInv(s.forwards, s.jobs)
    && OriginInv(s.posts, s.jobs)
  }

  ghost predicate Inv(s: State) {
    FrontendInv(s) && AgentInv(s)
  }

  // ---------------------------------------------------------------- every step keeps it

  lemma FrontendStepKeepsFrontendInv(s: State, a: FrontendStep)
    requires FrontendInv(s) && FrontendEnabled(s, a)
    ensures FrontendInv(FrontendNext(s, a))
  {
    FrontendStepKeepsTable(s, a);
    FrontendStepKeepsPosts(s, a);
  }

  lemma FrontendStepKeepsTable(s: State, a: FrontendStep)
    requires TableInv(s.table, s.frontends) && ListInv(s.listed, s.frontends) && FrontendEnabled(s, a)
    ensures var t := FrontendNext(s, a); TableInv(t.table, t.frontends) && ListInv(t.listed, t.frontends)
  {
  }

  lemma FrontendStepKeepsPosts(s: State, a: FrontendStep)
    requires PostInv(s.posts, s.frontends) && ReceiveInv(s.frontends, s.posts) && FrontendEnabled(s, a)
    ensures var t := FrontendNext(s, a); PostInv(t.posts, t.frontends) && ReceiveInv(t.frontends, t.posts)
  {
  }

  lemma FrontendStepKeepsAgentInv(s: State, a: FrontendStep)
    requires AgentInv(s) && FrontendEnabled(s, a)
    ensures AgentInv(FrontendNext(s, a))
  {
    var t := FrontendNext(s, a);
    SameBodies(s.frontends, t.frontends, s.jobs);
  }

  /** `g` is `f` further on. */
  predicate OnlyProgressDiffers(f: Frontend, g: Frontend) { g == f.(phase := g.phase, copied := g.copied) }

  /** New handlers, and progress with a response, are not visible to the fetching of requests. */
  lemma SameBodies(before: map<RequestId, Frontend>, after: map<RequestId, Frontend>, jobs: map<JobId, Job>)
    requires DrainInv(before, jobs) && ViewInv(jobs, before)
    requires forall id :: id in before ==> id in after && OnlyProgressDiffers(before[id], after[id])
    requires forall id :: id in after && id !in before ==> BodyAccounted(after[id], id, jobs)
    ensures DrainInv(after, jobs) && ViewInv(jobs, after)
  {
    forall id | id in after ensures BodyAccounted(after[id], id, jobs) {
      assert id in before ==> BodyAccounted(before[id], id, jobs);
    }
    forall j | j in jobs ensures OpenedIfUsed(j, jobs[j], after) {
      assert OpenedIfUsed(j, jobs[j], before);
    }
  }

  lemma PollStepKeepsFrontendInv(s: State, a: PollStep)
    requires FrontendInv(s) && PollEnabled(s, a)
    ensures FrontendInv(PollNext(s, a))
  {
  }

  /** An ID is listed once and a listing is handled once, so an ID has at most one job. */
  lemma JobsHaveDistinctIds(s: State, j: JobId, k: JobId)
    requires Inv(s) && j in s.jobs && k in s.jobs && s.jobs[j].id == s.jobs[k].id
    ensures j == k
  {
    assert s.jobs[j].listing == s.jobs[k].listing;
  }

  lemma DispatchKeepsAgentInv(s: State, i: nat, j: JobId)
    requires AgentInv(s) && PollEnabled(s, Dispatch(i, j))
    ensures AgentInv(PollNext(s, Dispatch(i, j)))
  {
    var t := PollNext(s, Dispatch(i, j));
    assert t.jobs == s.jobs[j := Job(i, s.listed[i].id, Fetching(0, false, []))];
    StartKeepsLog(s.forwards, s.posts, s.jobs, j, t.jobs[j]);
    StartKeepsBodies(s, j, t.jobs[j]);
    StartKeepsListings(s, i, j);
  }

  lemma StartKeepsListings(s: State, i: nat, j: JobId)
    requires JobInv(s.jobs, s.listed, s.handled) && PollEnabled(s, Dispatch(i, j))
    ensures var t := PollNext(s, Dispatch(i, j)); JobInv(t.jobs, t.listed, t.handled)
  {
  }

  lemma StartKeepsLog(forwards: seq<Forward>, posts: map<PostId, Post>, jobs: map<JobId, Job>, j: JobId, job: Job)
    requires ForwardInv(forwards, jobs) && OriginInv(posts, jobs) && j !in jobs && job.stage.Fetching?
    ensures ForwardInv(forwards, jobs[j := job]) && OriginInv(posts, jobs[j := job])
  {
  }

  lemma StartKeepsBodies(s: State, j: JobId, job: Job)
    requires BodyInv(s) && j !in s.jobs && job.stage == Fetching(0, false, [])
    ensures BodyInv(s.(jobs := s.jobs[j := job]))
  {
  }

  lemma TakeIdKeepsAgentInv(s: State, k: PollId, id: RequestId)
    requires AgentInv(s) && PollEnabled(s, TakeId(k, id))
    ensures AgentInv(PollNext(s, TakeId(k, id)))
  {
    SameBodies(s.frontends, PollNext(s, TakeId(k, id)).frontends, s.jobs);
  }

  lemma PollStepKeepsInv(s: State, a: PollStep)
    requires Inv(s) && PollEnabled(s, a)
    ensures Inv(PollNext(s, a))
  {
    PollStepKeepsFrontendInv(s, a);
    match a
    case Dispatch(i, j) => DispatchKeepsAgentInv(s, i, j);
    case TakeId(k, id) => TakeIdKeepsAgentInv(s, k, id);
    case _ =>
  }

  /** Draining a request's body is not visible to the frontend side. */
  lemma JobStepKeepsFrontendInv(s: State, a: JobStep)
    requires FrontendInv(s) && JobEnabled(s, a)
    ensures FrontendInv(JobNext(s, a))
  {
    var t := JobNext(s, a);
    assert forall id :: id in s.frontends ==>
      Facade(t.frontends[id]) == Facade(s.frontends[id]);
    SameFacade(s, t);
  }

  function Facade(f: Frontend): (Phase, Option<PostId>, nat) { (f.phase, f.received, f.copied) }

  lemma SameFacade(s: State, t: State)
    requires FrontendInv(s) && t.table == s.table && t.listed == s.listed && t.posts == s.posts
    requires t.frontends.Keys == s.frontends.Keys
    requires forall id :: id in s.frontends ==>
      Facade(t.frontends[id]) == Facade(s.frontends[id])
    ensures FrontendInv(t)
  {
  }

  lemma JobStepKeepsJobInv(s: State, a: JobStep)
    requires JobInv(s.jobs, s.listed, s.handled) && JobEnabled(s, a)
    ensures var t := JobNext(s, a); JobInv(t.jobs, t.listed, t.handled)
  {
    var t := JobNext(s, a);
    assert forall j :: j in t.jobs ==> j in s.jobs && t.jobs[j] == s.jobs[j].(stage := t.jobs[j].stage);
  }

  lemma ForwardKeepsForwardInv(s: State, j: JobId)
    requires ForwardInv(s.forwards, s.jobs) && JobEnabled(s, ForwardToBackend(j))
    ensures var t := JobNext(s, ForwardToBackend(j)); ForwardInv(t.forwards, t.jobs)
  {
  }

  lemma OtherJobStepKeepsForwardInv(s: State, a: JobStep)
    requires ForwardInv(s.forwards, s.jobs) && JobEnabled(s, a) && !a.ForwardToBackend?
    ensures var t := JobNext(s, a); ForwardInv(t.forwards, t.jobs)
  {
    if !a.LeakBody? {
      var t := JobNext(s, a);
      assert t.jobs == s.jobs[a.job := t.jobs[a.job]] && t.forwards == s.forwards;
      ChangeKeepsForwardInv(s.forwards, s.jobs, a.job, t.jobs[a.job]);
    }
  }

  lemma ChangeKeepsForwardInv(forwards: seq<Forward>, jobs: map<JobId, Job>, j: JobId, job: Job)
    requires ForwardInv(forwards, jobs) && j in jobs && job.id == jobs[j].id
    requires WasForwarded(job.stage) <==> WasForwarded(jobs[j].stage)
    requires WasForwarded(job.stage) ==> job.stage.view == jobs[j].stage.view
    ensures ForwardInv(forwards, jobs[j := job])
  {
  }

  lemma JobStepKeepsOriginInv(s: State, a: JobStep)
    requires OriginInv(s.posts, s.jobs) && JobEnabled(s, a)
    ensures var t := JobNext(s, a); OriginInv(t.posts, t.jobs)
  {
  }

  /** A request is opened by the one job that is after it. */
  predicate HasOwnRequest(s: State, j: JobId) {
    && j in s.jobs && s.jobs[j].id in s.frontends
    && (s.frontends[s.jobs[j].id].openedBy.Some? ==> s.frontends[s.jobs[j].id].openedBy == Some(j))
  }

  lemma OpenedByItsJob(s: State, j: JobId)
    requires Inv(s) && j in s.jobs
    ensures HasOwnRequest(s, j)
  {
    var id := s.jobs[j].id;
    if s.frontends[id].openedBy.Some? {
      assert BodyAccounted(s.frontends[id], id, s.jobs);
      JobsHaveDistinctIds(s, j, s.frontends[id].openedBy.value);
    }
  }

  /** A step of one job, and of the request it is after, leaves all other bodies accounted for. */
  lemma ChangeKeepsBodies(frontends: map<RequestId, Frontend>, jobs: map<JobId, Job>, j: JobId, job: Job, f: Frontend)
    requires DrainInv(frontends, jobs) && ViewInv(jobs, frontends)
    requires j in jobs && job.id == jobs[j].id && job.id in frontends
    requires frontends[job.id].openedBy.Some? ==> frontends[job.id].openedBy == Some(j)
    requires f.openedBy == Some(j) && FetchedSoFar(f, job.stage)
    requires job.stage.Fetching? && !job.stage.reading ==> job.stage.got == []
    ensures
      var frontends' := frontends[job.id := f];
      var jobs' := jobs[j := job];
      DrainInv(frontends', jobs') && ViewInv(jobs', frontends')
  {
    var frontends', jobs' := frontends[job.id := f], jobs[j := job];
    forall id | id in frontends' ensures BodyAccounted(frontends'[id], id, jobs') {
      assert id != job.id ==> BodyAccounted(frontends[id], id, jobs);
    }
    forall k | k in jobs' ensures OpenedIfUsed(k, jobs'[k], frontends') {
      assert k != j ==> OpenedIfUsed(k, jobs[k], frontends);
    }
  }

  /** A job that has nothing of its request yet may fail again, and any job may give up. */
  lemma UnopenedKeepsBodies(frontends: map<RequestId, Frontend>, jobs: map<JobId, Job>, j: JobId, job: Job)
    requires DrainInv(frontends, jobs) && ViewInv(jobs, frontends)
    requires j in jobs && job.id == jobs[j].id
    requires
      || job.stage.Abandoned?
      || (jobs[j].stage.Fetching? && job.stage == jobs[j].stage.(attempts := jobs[j].stage.attempts + 1))
    ensures DrainInv(frontends, jobs[j := job]) && ViewInv(jobs[j := job], frontends)
  {
    var jobs' := jobs[j := job];
    forall id | id in frontends ensures BodyAccounted(frontends[id], id, jobs') {
      assert BodyAccounted(frontends[id], id, jobs);
    }
    forall k | k in jobs' ensures OpenedIfUsed(k, jobs'[k], frontends) {
      assert OpenedIfUsed(k, jobs[k], frontends);
    }
  }

  lemma OpenKeepsBodyInv(s: State, j: JobId)
    requires BodyInv(s) && HasOwnRequest(s, j) && JobEnabled(s, OpenGet(j))
    ensures BodyInv(JobNext(s, OpenGet(j)))
  {
    var id := s.jobs[j].id;
    var t := JobNext(s, OpenGet(j));
    assert BodyAccounted(s.frontends[id], id, s.jobs);
    assert OpenedIfUsed(j, s.jobs[j], s.frontends);
    ChangeKeepsBodies(s.frontends, s.jobs, j, t.jobs[j], t.frontends[id]);
  }

  lemma ReadKeepsBodyInv(s: State, j: JobId, n: nat)
    requires BodyInv(s) && HasOwnRequest(s, j) && JobEnabled(s, ReadBody(j, n))
    ensures BodyInv(JobNext(s, ReadBody(j, n)))
  {
    var id := s.jobs[j].id;
    var f, got := s.frontends[id], s.jobs[j].stage.got;
    var t := JobNext(s, ReadBody(j, n));
    assert BodyAccounted(f, id, s.jobs);
    assert OpenedIfUsed(j, s.jobs[j], s.frontends);
    assert f.undrained[..n] + f.undrained[n..] == f.undrained;
    Assoc(got, f.undrained[..n], f.undrained[n..]);
    ChangeKeepsBodies(s.frontends, s.jobs, j, t.jobs[j], t.frontends[id]);
  }

  lemma FinishKeepsBodyInv(s: State, j: JobId)
    requires BodyInv(s) && HasOwnRequest(s, j) && JobEnabled(s, FinishGet(j))
    ensures BodyInv(JobNext(s, FinishGet(j)))
  {
    var id := s.jobs[j].id;
    var t := JobNext(s, FinishGet(j));
    assert BodyAccounted(s.frontends[id], id, s.jobs);
    assert OpenedIfUsed(j, s.jobs[j], s.frontends);
    ChangeKeepsBodies(s.frontends, s.jobs, j, t.jobs[j], s.frontends[id]);
    assert t.frontends == s.frontends[id := s.frontends[id]];
  }

  lemma BreakKeepsBodyInv(s: State, j: JobId)
    requires BodyInv(s) && HasOwnRequest(s, j) && JobEnabled(s, BreakGet(j))
    ensures BodyInv(JobNext(s, BreakGet(j)))
  {
    var id := s.jobs[j].id;
    var t := JobNext(s, BreakGet(j));
    var f, got := s.frontends[id], s.jobs[j].stage.got;
    assert BodyAccounted(f, id, s.jobs);
    assert OpenedIfUsed(j, s.jobs[j], s.frontends);
    assert f.undrained == [] ==> got + f.undrained == got + [];
    ChangeKeepsBodies(s.frontends, s.jobs, j, t.jobs[j], t.frontends[id]);
  }

  lemma LoseKeepsBodyInv(s: State, j: JobId)
    requires BodyInv(s) && HasOwnRequest(s, j) && JobEnabled(s, LoseGet(j))
    ensures BodyInv(JobNext(s, LoseGet(j)))
  {
    var id := s.jobs[j].id;
    var t := JobNext(s, LoseGet(j));
    assert BodyAccounted(s.frontends[id], id, s.jobs);
    assert OpenedIfUsed(j, s.jobs[j], s.frontends);
    if s.jobs[j].stage.reading {
      assert s.jobs[j].stage.got == [] ==> [] + s.frontends[id].undrained == s.frontends[id].undrained;
      ChangeKeepsBodies(s.frontends, s.jobs, j, t.jobs[j], t.frontends[id]);
    } else {
      UnopenedKeepsBodies(s.frontends, s.jobs, j, t.jobs[j]);
    }
  }

  lemma LeakKeepsBodyInv(s: State, id: RequestId, n: nat)
    requires BodyInv(s) && JobEnabled(s, LeakBody(id, n))
    ensures BodyInv(JobNext(s, LeakBody(id, n)))
  {
    var t := JobNext(s, LeakBody(id, n));
    assert BodyAccounted(s.frontends[id], id, s.jobs);
    forall i | i in t.frontends ensures BodyAccounted(t.frontends[i], i, t.jobs) {
      assert BodyAccounted(s.frontends[i], i, s.jobs);
    }
    forall k | k in t.jobs ensures OpenedIfUsed(k, t.jobs[k], t.frontends) {
      assert OpenedIfUsed(k, s.jobs[k], s.frontends);
    }
  }

  lemma LaterJobStepKeepsBodyInv(s: State, a: JobStep)
    requires BodyInv(s) && JobEnabled(s, a) && (a.ForwardToBackend? || a.BackendAnswers?) && HasOwnRequest(s, a.job)
    ensures BodyInv(JobNext(s, a))
  {
    var j := a.job;
    var id := s.jobs[j].id;
    var t := JobNext(s, a);
    assert BodyAccounted(s.frontends[id], id, s.jobs);
    assert OpenedIfUsed(j, s.jobs[j], s.frontends);
    ChangeKeepsBodies(s.frontends, s.jobs, j, t.jobs[j], s.frontends[id]);
    assert t.frontends == s.frontends[id := s.frontends[id]];
  }

  lemma JobStepKeepsBodyInv(s: State, a: JobStep)
    requires Inv(s) && JobEnabled(s, a)
    ensures BodyInv(JobNext(s, a))
  {
    if !a.LeakBody? {
      OpenedByItsJob(s, a.job);
    }
    match a
    case OpenGet(j) => OpenKeepsBodyInv(s, j);
    case ReadBody(j, n) => ReadKeepsBodyInv(s, j, n);
    case FinishGet(j) => FinishKeepsBodyInv(s, j);
    case BreakGet(j) => BreakKeepsBodyInv(s, j);
    case LoseGet(j) => LoseKeepsBodyInv(s, j);
    case LeakBody(id, n) => LeakKeepsBodyInv(s, id, n);
    case AbandonJob(j) => UnopenedKeepsBodies(s.frontends, s.jobs, j, JobNext(s, a).jobs[j]);
    case _ => LaterJobStepKeepsBodyInv(s, a);
  }

  lemma JobStepKeepsInv(s: State, a: JobStep)
    requires Inv(s) && JobEnabled(s, a)
    ensures Inv(JobNext(s, a))
  {
    JobStepKeepsFrontendInv(s, a);
    JobStepKeepsJobInv(s, a);
    JobStepKeepsOriginInv(s, a);
    JobStepKeepsBodyInv(s, a);
    if a.ForwardToBackend? {
      ForwardKeepsForwardInv(s, a.job);
    } else {
      OtherJobStepKeepsForwardInv(s, a);
    }
  }

  lemma PostStepKeepsFrontendInv(s: State, a: PostStep)
    requires FrontendInv(s) && PostEnabled(s, a)
    ensures FrontendInv(PostNext(s, a))
  {
  }

  lemma PostStepKeepsAgentInv(s: State, a: PostStep)
    requires AgentInv(s) && PostEnabled(s, a)
    ensures AgentInv(PostNext(s, a))
  {
  }

  lemma StepKeepsInv(s: State, a: Step)
    requires Inv(s) && Enabled(s, a)
    ensures Inv(Next(s, a))
  {
    match a
    case OfFrontend(b) =>
      FrontendStepKeepsFrontendInv(s, b);
      FrontendStepKeepsAgentInv(s, b);
    case OfPoll(b) =>
      PollStepKeepsInv(s, b);
    case OfJob(b) =>
      JobStepKeepsInv(s, b);
    case OfPost(b) =>
      PostStepKeepsFrontendInv(s, b);
      PostStepKeepsAgentInv(s, b);
  }

  lemma {:induction false} RunKeepsInv(s: State, run: seq<Step>)
    requires Inv(s) && Legal(s, run)
    ensures Inv(Final(s, run))
    decreases |run|
  {
    if run != [] {
      StepKeepsInv(s, run[0]);
      RunKeepsInv(Next(s, run[0]), run[1..]);
    }
  }

  // ---------------------------------------------------------------- what every run guarantees

  /** A client consumes at most one response, posted under that client's own ID; each post
      reaches at most one client; and a post counts as sent exactly when its client has it. */
  lemma ResponsesMatchClients(run: seq<Step>)
    requires Legal(Init, run)
    ensures
      var s := Final(Init, run);
      && (forall id :: id in s.frontends && s.frontends[id].received.Some? ==>
            s.frontends[id].received.value in s.posts && s.posts[s.frontends[id].received.value].id == id)
      && (forall id, id' :: id in s.frontends && id' in s.frontends && id != id' && s.frontends[id].received.Some? ==>
            s.frontends[id].received != s.frontends[id'].received)
      && (forall p :: p in s.posts ==>
            (s.posts[p].stage == Sent <==>
             s.posts[p].id in s.frontends && s.frontends[s.posts[p].id].received == Some(p)))
  {
    RunKeepsInv(Init, run);
  }

  predicate HasReturned(f: Frontend) {
    f.phase == Leaving || f.phase == Gone
  }

  /** The handler's record went from `f` to `g` without losing or changing a receipt, and
      without gaining one, or a byte of one, if the handler had returned. */
  predicate ReceiptKept(f: Frontend, g: Frontend) {
    && g.registered == f.registered
    && (f.received.Some? ==> g.received == f.received && f.copied <= g.copied)
    && (HasReturned(f) ==> HasReturned(g) && g.received == f.received && g.copied == f.copied)
  }

  /** Whatever a client has received stays what it has received, and nothing reaches a client
      whose handler has returned, even from a post that looked its entry up before that. */
  lemma {:induction false} NothingAfterReturn(s: State, run: seq<Step>, id: RequestId)
    requires Inv(s) && Legal(s, run) && id in s.frontends
    ensures
      var t := Final(s, run);
      id in t.frontends && ReceiptKept(s.frontends[id], t.frontends[id])
    decreases |run|
  {
    if run != [] {
      StepKeepsInv(s, run[0]);
      match run[0] {
        case OfFrontend(b) => FrontendStepKeepsReceipts(s, b, id);
        case OfPoll(b) => PollStepKeepsReceipts(s, b, id);
        case OfJob(b) => JobStepKeepsReceipts(s, b, id);
        case OfPost(b) => PostStepKeepsReceipts(s, b, id);
      }
      NothingAfterReturn(Next(s, run[0]), run[1..], id);
    }
  }

  lemma FrontendStepKeepsReceipts(s: State, a: FrontendStep, id: RequestId)
    requires FrontendEnabled(s, a) && id in s.frontends
    ensures id in FrontendNext(s, a).frontends && ReceiptKept(s.frontends[id], FrontendNext(s, a).frontends[id])
  {
  }

  lemma PollStepKeepsReceipts(s: State, a: PollStep, id: RequestId)
    requires PollEnabled(s, a) && id in s.frontends
    ensures id in PollNext(s, a).frontends && ReceiptKept(s.frontends[id], PollNext(s, a).frontends[id])
  {
  }

  lemma JobStepKeepsReceipts(s: State, a: JobStep, id: RequestId)
    requires JobEnabled(s, a) && id in s.frontends
    ensures id in JobNext(s, a).frontends && ReceiptKept(s.frontends[id], JobNext(s, a).frontends[id])
  {
  }

  lemma PostStepKeepsReceipts(s: State, a: PostStep, id: RequestId)
    requires ReceiveInv(s.frontends, s.posts) && PostEnabled(s, a) && id in s.frontends
    ensures id in PostNext(s, a).frontends && ReceiptKept(s.frontends[id], PostNext(s, a).frontends[id])
  {
  }

  /** An ID is taken by a list call only while its request is in the table, and only once. */
  lemma ListedOnceAndWhileRegistered(run: seq<Step>, k: PollId, id: RequestId)
    requires Legal(Init, run) && Enabled(Final(Init, run), OfPoll(TakeId(k, id)))
    ensures
      var s := Final(Init, run);
      && id in s.table
      && (forall i :: 0 <= i < |s.listed| ==> s.listed[i].id != id)
      && (forall i, m :: 0 <= i < m < |s.listed| ==> s.listed[i].id != s.listed[m].id)
  {
    RunKeepsInv(Init, run);
  }

  /** However many agents poll, the backend is sent each client request at most once. */
  lemma ForwardedAtMostOnce(run: seq<Step>)
    requires Legal(Init, run)
    ensures
      var s := Final(Init, run);
      forall i, m :: 0 <= i < m < |s.forwards| ==> s.forwards[i].id != s.forwards[m].id
  {
    RunKeepsInv(Init, run);
    var s := Final(Init, run);
    forall i, m | 0 <= i < m < |s.forwards| ensures s.forwards[i].id != s.forwards[m].id {
      if s.forwards[i].id == s.forwards[m].id {
        assert s.forwards[i] in s.forwards && s.forwards[m] in s.forwards;
        JobsHaveDistinctIds(s, s.forwards[i].job, s.forwards[m].job);
      }
    }
  }

  /** How many bytes of the body of `id` the step takes out of the job's reach: those that a failed GET has
      read, those that its handler goes on to read or closes the body on, and those that a GET which
      breaks off leaves behind. */
  function Loses(s: State, a: Step, id: RequestId): nat
    requires Enabled(s, a)
  {
    if !a.OfJob? then 0
    else match a.jobStep
      case LoseGet(j) => if s.jobs[j].id == id && s.jobs[j].stage.reading then |s.jobs[j].stage.got| else 0
      case LeakBody(id', n) => if id' == id then n else 0
      case BreakGet(j) => if s.jobs[j].id == id then |s.frontends[id].undrained| else 0
      case _ => 0
  }

  /** Some GET for `id` failed after it had read from the body, or broke off before its end. */
  predicate LosesBytesOf(s: State, run: seq<Step>, id: RequestId)
    requires Legal(s, run)
    decreases |run|
  {
    run != [] && (Loses(s, run[0], id) > 0 || LosesBytesOf(Next(s, run[0]), run[1..], id))
  }

  function SpilledOf(s: State, id: RequestId): nat { if id in s.frontends then s.frontends[id].spilled else 0 }

  lemma StepSpills(s: State, a: Step, id: RequestId)
    requires Enabled(s, a)
    ensures SpilledOf(Next(s, a), id) == SpilledOf(s, id) + Loses(s, a, id)
  {
    match a
    case OfFrontend(b) => assert SpilledOf(FrontendNext(s, b), id) == SpilledOf(s, id);
    case OfPoll(b) => assert SpilledOf(PollNext(s, b), id) == SpilledOf(s, id);
    case OfJob(b) => JobStepSpills(s, b, id);
    case OfPost(b) => assert SpilledOf(PostNext(s, b), id) == SpilledOf(s, id);
  }

  lemma JobStepSpills(s: State, a: JobStep, id: RequestId)
    requires JobEnabled(s, a)
    ensures SpilledOf(JobNext(s, a), id) == SpilledOf(s, id) + Loses(s, OfJob(a), id)
  {
  }

  lemma {:induction false} SpilledExactlyWhenLost(s: State, run: seq<Step>, id: RequestId)
    requires Legal(s, run)
    ensures SpilledOf(Final(s, run), id) > 0 <==> SpilledOf(s, id) > 0 || LosesBytesOf(s, run, id)
    decreases |run|
  {
    if run != [] {
      StepSpills(s, run[0], id);
      SpilledExactlyWhenLost(Next(s, run[0]), run[1..], id);
    }
  }

  /** The bytes of a response that the client of `id` has. */
  function BytesFor(s: State, id: RequestId): Bytes
    requires id in s.frontends
  {
    var f := s.frontends[id];
    if f.received.Some? && f.received.value in s.posts && f.copied <= |s.posts[f.received.value].body|
    then s.posts[f.received.value].body[..f.copied] else []
  }

  /** The promise of README.md: a client that received an agent's response has, from its first byte on,
      the answer that the backend gave to the one request forwarded under this client's ID, and has all
      of it exactly if the post that brought it was whole and was copied to its end; and the backend
      was sent what the client had sent if and only if no GET for this ID failed after it had read from
      the body or broke off before its end. */
  lemma ClientGetsAnswerToItsRequest(run: seq<Step>, id: RequestId)
    requires Legal(Init, run)
    requires var s := Final(Init, run);
             && id in s.frontends && s.frontends[id].received.Some?
             && s.frontends[id].received.value in s.posts
             && s.posts[s.frontends[id].received.value].origin.FromJob?
    ensures
      var s := Final(Init, run);
      var f := s.frontends[id];
      var post := s.posts[f.received.value];
      var j := post.origin.job;
      && j in s.jobs && s.jobs[j].id == id && s.jobs[j].stage.Answered?
      && BytesFor(s, id) <= s.jobs[j].stage.answer
      && (BytesFor(s, id) == s.jobs[j].stage.answer <==> post.body == s.jobs[j].stage.answer && f.copied == |post.body|)
      && Forward(j, id, s.jobs[j].stage.view) in s.forwards
      && s.jobs[j].stage.view.head == f.registered.head
      && (s.jobs[j].stage.view == f.registered <==> !LosesBytesOf(Init, run, id))
  {
    RunKeepsInv(Init, run);
    SpilledExactlyWhenLost(Init, run, id);
    var s := Final(Init, run);
    AnswerComesFromForward(s, id, s.frontends[id].received.value);
  }

  lemma AnswerComesFromForward(s: State, id: RequestId, p: PostId)
    requires ReceiveInv(s.frontends, s.posts) && AgentInv(s)
    requires id in s.frontends && s.frontends[id].received == Some(p) && p in s.posts && s.posts[p].origin.FromJob?
    ensures
      var f := s.frontends[id];
      var j := s.posts[p].origin.job;
      && j in s.jobs && s.jobs[j].id == id && s.jobs[j].stage.Answered?
      && BytesFor(s, id) <= s.jobs[j].stage.answer
      && (BytesFor(s, id) == s.jobs[j].stage.answer <==>
            s.posts[p].body == s.jobs[j].stage.answer && f.copied == |s.posts[p].body|)
      && Forward(j, id, s.jobs[j].stage.view) in s.forwards
      && s.jobs[j].stage.view.head == f.registered.head
      && (s.jobs[j].stage.view == f.registered <==> f.spilled == 0)
  {
    var j := s.posts[p].origin.job;
    assert CanPostFrom(s.jobs, s.posts[p].id, s.posts[p].body, s.posts[p].origin);
    assert WasForwarded(s.jobs[j].stage);
    assert HasView(s.jobs[j].stage);
  }

  /** A run in which the handler of a lost GET goes on reading beside the agent's next GET, so that the
      backend is sent the client's body with a hole in it. */
  lemma LostGetMakesHole()
    ensures exists run, id ::
              && Legal(Init, run)
              && id in Final(Init, run).frontends
              && Final(Init, run).frontends[id].registered == Request([71], [1, 2, 3])
              && Final(Init, run).forwards == [Forward(0, id, Request([71], [1, 3]))]
  {
    var run := DispatchOne();
    var retry := LoseOne(Final(Init, run));
    JoinRuns(Init, run, retry);
    var fetch := FetchWithHole(Final(Init, run + retry));
    JoinRuns(Init, run + retry, fetch);
    assert "a" in Final(Init, run + retry + fetch).frontends;
  }

  /** The handler of "a" is at `f`, and job 0, which is after its request, at `stage`. */
  predicate Stands(s: State, f: Frontend, stage: JobStage) {
    && "a" in s.frontends && s.frontends["a"] == f && "a" in s.table && s.forwards == []
    && 0 in s.jobs && s.jobs[0].id == "a" && s.jobs[0].stage == stage
  }

  const Sample := Frontend(Request([71], [1, 2, 3]), [1, 2, 3], false, 0, None, Waiting, None, 0)

  lemma LoseOne(s: State) returns (run: seq<Step>)
    requires Stands(s, Sample, Fetching(0, false, []))
    ensures Legal(s, run) && Stands(Final(s, run), Sample.(leaking := true, openedBy := Some(0)), Fetching(1, true, []))
  {
    var begun := Sample.(openedBy := Some(0));
    var s1 := Next(s, OfJob(OpenGet(0)));
    assert Stands(s1, begun, Fetching(0, true, []));
    var s2 := Next(s1, OfJob(LoseGet(0)));
    assert Stands(s2, begun.(leaking := true), Fetching(1, false, []));
    var s3 := Next(s2, OfJob(OpenGet(0)));
    assert Stands(s3, begun.(leaking := true), Fetching(1, true, []));
    run := NoSteps(s3);
    run := Prepend(s2, OfJob(OpenGet(0)), run);
    run := Prepend(s1, OfJob(LoseGet(0)), run);
    run := Prepend(s, OfJob(OpenGet(0)), run);
  }

  lemma ReadOne(s: State, f: Frontend, got: Bytes)
    requires Stands(s, f, Fetching(1, true, got)) && f.undrained != []
    ensures Enabled(s, OfJob(ReadBody(0, 1)))
    ensures
      var stage := Fetching(1, true, got + [f.undrained[0]]);
      Stands(Next(s, OfJob(ReadBody(0, 1))), f.(undrained := f.undrained[1..]), stage)
  {
  }

  lemma FetchWithHole(s: State) returns (run: seq<Step>)
    requires Stands(s, Sample.(leaking := true, openedBy := Some(0)), Fetching(1, true, []))
    ensures
      && Legal(s, run)
      && var t := Final(s, run);
      && t.forwards == [Forward(0, "a", Request([71], [1, 3]))]
      && "a" in t.frontends && t.frontends["a"].registered == Request([71], [1, 2, 3])
  {
    var f := Sample.(leaking := true, openedBy := Some(0));
    ReadOne(s, f, []);
    var s1 := Next(s, OfJob(ReadBody(0, 1)));
    assert [1, 2, 3][1..] == [2, 3];
    assert Stands(s1, f.(undrained := [2, 3]), Fetching(1, true, [1]));
    var s2 := Next(s1, OfJob(LeakBody("a", 1)));
    assert [2, 3][1..] == [3];
    assert Stands(s2, f.(undrained := [3], spilled := 1), Fetching(1, true, [1]));
    ReadOne(s2, f.(undrained := [3], spilled := 1), [1]);
    var s3 := Next(s2, OfJob(ReadBody(0, 1)));
    run := FinishAndForward(s3);
    run := Prepend(s2, OfJob(ReadBody(0, 1)), run);
    run := Prepend(s1, OfJob(LeakBody("a", 1)), run);
    run := Prepend(s, OfJob(ReadBody(0, 1)), run);
  }

  lemma FinishAndForward(s: State) returns (run: seq<Step>)
    requires s.forwards == [] && "a" in s.frontends && s.frontends["a"].undrained == []
    requires 0 in s.jobs && s.jobs[0].id == "a" && s.jobs[0].stage == Fetching(1, true, [1, 3])
    ensures
      && Legal(s, run)
      && var t := Final(s, run);
      && t.forwards == [Forward(0, "a", Request(s.frontends["a"].registered.head, [1, 3]))]
      && t.frontends == s.frontends
  {
    var s1 := Next(s, OfJob(FinishGet(0)));
    var s2 := Next(s1, OfJob(ForwardToBackend(0)));
    run := NoSteps(s2);
    run := Prepend(s1, OfJob(ForwardToBackend(0)), run);
    run := Prepend(s, OfJob(FinishGet(0)), run);
  }

  lemma DispatchOne() returns (run: seq<Step>)
    ensures Legal(Init, run) && Stands(Final(Init, run), Sample, Fetching(0, false, []))
  {
    var s1 := Next(Init, OfFrontend(Register("a", Sample.registered)));
    var s2 := Next(s1, OfPoll(OpenPoll(0)));
    var s3 := Next(s2, OfPoll(TakeId(0, "a")));
    assert s3.frontends["a"] == Sample && s3.listed == [Listing(0, "a")];
    var s4 := Next(s3, OfPoll(ReportPoll(0)));
    var s5 := Next(s4, OfPoll(Dispatch(0, 0)));
    assert Stands(s5, Sample, Fetching(0, false, []));
    run := NoSteps(s5);
    run := Prepend(s4, OfPoll(Dispatch(0, 0)), run);
    run := Prepend(s3, OfPoll(ReportPoll(0)), run);
    run := Prepend(s2, OfPoll(TakeId(0, "a")), run);
    run := Prepend(s1, OfPoll(OpenPoll(0)), run);
    run := Prepend(Init, OfFrontend(Register("a", Sample.registered)), run);
  }

  lemma NoSteps(s: State) returns (run: seq<Step>)
    ensures run == [] && Legal(s, run) && Final(s, run) == s
  {
    run := [];
  }

  lemma Prepend(s: State, a: Step, rest: seq<Step>) returns (run: seq<Step>)
    requires Enabled(s, a) && Legal(Next(s, a), rest)
    ensures Legal(s, run) && Final(s, run) == Final(Next(s, a), rest) && run == [a] + rest
  {
    run := [a] + rest;
    assert run[1..] == rest;
  }

  lemma {:induction false} JoinRuns(s: State, a: seq<Step>, b: seq<Step>)
    requires Legal(s, a) && Legal(Final(s, a), b)
    ensures Legal(s, a + b) && Final(s, a + b) == Final(Final(s, a), b)
    decreases |a|
  {
    if a == [] {
      assert a + b == b;
    } else {
      assert (a + b)[1..] == a[1..] + b;
      JoinRuns(Next(s, a[0]), a[1..], b);
    }
  }
}
