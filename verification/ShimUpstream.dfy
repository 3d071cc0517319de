/** From the client to the backend. A client's message is cut into fragments by the read buffer; the
    fragments of one message travel as one request, and the next request waits for its answer. */
module ShimUpstream {
  import opened Basics
  import opened ShimMessages

  const QUEUE_LIMIT := 10

  datatype Reader = Between | Reading(kind: Kind, rest: Bytes) | NoMore

  /** The loop of `handleWebsocketRequest`. After a failed request it has ended, but a payload that an
      agent was about to fetch may still reach it. */
  datatype Main = Ready | Posting(payload: seq<Wire>) | Awaiting | Ended(late: seq<Wire>)

  /** The handler of one data request. */
  datatype Agent = Quiet | Processing(rest: seq<Wire>) | Finished | Aborted

  /** Histories: `sent` by the client, `cut` into fragments, `delivered` to the backend. */
  datatype State = State(
    sent: seq<Message>,
    cut: seq<Message>,
    reader: Reader,
    batch: seq<Message>,
    main: Main,
    agent: Agent,
    queue: seq<Message>,
    delivered: seq<Message>)

  const Init := State([], [], Between, [], Ready, Quiet, [], [])

  datatype Step =
    | ReceiveMessage(message: Message)
    | CutFragment(size: nat)
    | HandOver
    | StopReading
    | PayloadArrives
    | AcceptOne
    | FinishRequest
    | AbortRequest
    | AnswerArrives
    | FailRequest
    | WriteToBackend

  predicate Enabled(s: State, bufSize: nat, a: Step) {
    match a
    case ReceiveMessage(_) => s.reader.Between?
    case CutFragment(n) => s.reader.Reading? && 0 < n <= bufSize && n <= |s.reader.rest|
    case HandOver => s.reader.Reading? && s.main.Ready?
    case StopReading => s.reader.Between?
    case PayloadArrives => s.agent.Quiet? && (s.main.Posting? || s.main.Ended?)
    case AcceptOne => s.agent.Processing? && s.agent.rest != [] && |s.queue| < QUEUE_LIMIT
    case FinishRequest => s.agent.Processing? && s.agent.rest == []
    case AbortRequest => s.agent.Processing?
    case AnswerArrives => s.main.Awaiting? && s.agent.Finished?
    case FailRequest => s.main.Posting? || s.main.Awaiting?
    case WriteToBackend => s.queue != []
  }

  /** The payload of a batch as it comes out of the request's JSON. */
  function Wires(batch: seq<Message>): seq<Wire> {
    seq(|batch|, i requires 0 <= i < |batch| => Transport(Serialize(batch[i], 1)))
  }

  /** `HandOver` with unread bytes is a read that failed; the reading goroutine then stops. */
  function Next(s: State, bufSize: nat, a: Step): State
    requires Enabled(s, bufSize, a)
  {
    match a
    case ReceiveMessage(m) => s.(sent := s.sent + [m], reader := Reading(m.kind, m.data))
    case CutFragment(n) =>
      var f := Message(s.reader.kind, s.reader.rest[..n]);
      s.(cut := s.cut + [f], batch := s.batch + [f], reader := Reading(s.reader.kind, s.reader.rest[n..]))
    case HandOver =>
      s.(main := Posting(Wires(s.batch)), batch := [], reader := if s.reader.rest == [] then Between else NoMore)
    case StopReading => s.(reader := NoMore)
    case PayloadArrives =>
      if s.main.Posting? then s.(agent := Processing(s.main.payload), main := Awaiting)
      else s.(agent := Processing(s.main.late), main := Ended([]))
    case AcceptOne =>
      (match SendClientMessage(s.agent.rest[0], 1)
       case Queues(m) => s.(queue := s.queue + [m], agent := Processing(s.agent.rest[1..]))
       case QueuesNil => s.(agent := Processing(s.agent.rest[1..]))
       case Rejects => s.(agent := Aborted))
    case FinishRequest => s.(agent := Finished)
    case AbortRequest => s.(agent := Aborted)
    case AnswerArrives => s.(main := Ready, agent := Quiet)
    case FailRequest => s.(main := Ended(if s.main.Posting? then s.main.payload else []))
    case WriteToBackend => s.(delivered := s.delivered + [s.queue[0]], queue := s.queue[1..])
  }

  predicate Legal(s: State, bufSize: nat, run: seq<Step>)
    decreases |run|
  {
    run == [] || (Enabled(s, bufSize, run[0]) && Legal(Next(s, bufSize, run[0]), bufSize, run[1..]))
  }

  function Final(s: State, bufSize: nat, run: seq<Step>): State
    requires Legal(s, bufSize, run)
    decreases |run|
  {
    if run == [] then s else Final(Next(s, bufSize, run[0]), bufSize, run[1..])
  }

  // ---------------------------------------------------------------- the queues

  /** The wires on their way from the proxy to the agent's queue. */
  function InFlight(s: State): seq<Wire> {
    if s.agent.Processing? then s.agent.rest
    else if s.agent.Quiet? && s.main.Posting? then s.main.payload
    else if s.agent.Quiet? && s.main.Ended? then s.main.late
    else []
  }

  /** What has left the reader's batch and has not been dropped. */
  function Ahead(s: State): seq<Message> {
    (s.delivered + s.queue) + Received(InFlight(s))
  }

  predicate Healthy(s: State) { !s.main.Ended? && !s.agent.Aborted? }

  /** Conservation, up to the first failure. */
  ghost predicate QueueInv(s: State) {
    && Sound(InFlight(s))
    && (s.main.Ready? || s.main.Posting? ==> s.agent.Quiet?)
    && (s.main.Awaiting? ==> !s.agent.Quiet?)
    && Ahead(s) <= SeenAll(s.cut)
    && (Healthy(s) ==> Ahead(s) + SeenAll(s.batch) == SeenAll(s.cut))
  }

  lemma {:induction false} WiresCarryBatch(batch: seq<Message>)
    ensures Sound(Wires(batch)) && Received(Wires(batch)) == SeenAll(batch)
  {
    forall i | 0 <= i < |batch|
      ensures ParseServerMessage(Wires(batch)[i]) == Accepted(Seen(batch[i]))
           && SendClientMessage(Wires(batch)[i], 1) == Queues(Seen(batch[i]))
    {
      WireCarriesMessage(batch[i], 1);
    }
  }

  lemma ReaderStepKeepsQueues(s: State, bufSize: nat, a: Step)
    requires QueueInv(s) && Enabled(s, bufSize, a)
      && (a.ReceiveMessage? || a.CutFragment? || a.HandOver? || a.StopReading?)
    ensures QueueInv(Next(s, bufSize, a))
  {
    var t := Next(s, bufSize, a);
    match a
    case CutFragment(n) =>
      var f := Message(s.reader.kind, s.reader.rest[..n]);
      SeenAllAppend(s.cut, [f]);
      SeenAllAppend(s.batch, [f]);
      Assoc(Ahead(s), SeenAll(s.batch), SeenAll([f]));
    case HandOver =>
      WiresCarryBatch(s.batch);
      assert Received([]) == [];
      assert SeenAll([]) == [];
      assert (s.delivered + s.queue) + [] == s.delivered + s.queue;
    case _ =>
  }

  lemma AgentStepKeepsQueues(s: State, bufSize: nat, a: Step)
    requires QueueInv(s) && Enabled(s, bufSize, a)
      && (a.PayloadArrives? || a.AcceptOne? || a.FinishRequest? || a.AbortRequest?)
    ensures QueueInv(Next(s, bufSize, a))
  {
    var t := Next(s, bufSize, a);
    match a
    case AcceptOne =>
      var w, rest := s.agent.rest[0], s.agent.rest[1..];
      assert [w] + rest == s.agent.rest;
      ReceivedAppend([w], rest);
      var m := ParseServerMessage(w).message;
      assert Received([w]) == [m];
      Assoc(s.delivered + s.queue, [m], Received(rest));
      Assoc(s.delivered, s.queue, [m]);
      assert Ahead(t) == Ahead(s);
    case AbortRequest =>
      assert Received([]) == [];
      assert Ahead(t) <= Ahead(s);
    case _ =>
  }

  lemma OtherStepKeepsQueues(s: State, bufSize: nat, a: Step)
    requires QueueInv(s) && Enabled(s, bufSize, a) && (a.AnswerArrives? || a.FailRequest? || a.WriteToBackend?)
    ensures QueueInv(Next(s, bufSize, a))
  {
    var t := Next(s, bufSize, a);
    if a.WriteToBackend? {
      assert t.delivered + t.queue == s.delivered + s.queue;
    }
  }

  // ---------------------------------------------------------------- the bytes

  function Data(ms: seq<Message>): Bytes
  {
    if ms == [] then [] else ms[0].data + Data(ms[1..])
  }

  lemma {:induction false} DataAppend(a: seq<Message>, b: seq<Message>)
    ensures Data(a + b) == Data(a) + Data(b)
  {
    if a == [] {
      assert a + b == b;
    } else {
      assert (a + b)[1..] == a[1..] + b;
      DataAppend(a[1..], b);
    }
  }

  function Unread(r: Reader): Bytes { if r.Reading? then r.rest else [] }

  /** Every byte of the client's messages is cut or still unread, in order. */
  ghost predicate ByteInv(s: State) {
    && Data(s.cut) <= Data(s.sent)
    && (!s.reader.NoMore? ==> Data(s.cut) + Unread(s.reader) == Data(s.sent))
  }

  predicate AllBinary(ms: seq<Message>) { forall i :: 0 <= i < |ms| ==> ms[i].kind == Binary }

  predicate FragmentInv(s: State, bufSize: nat) {
    && (forall i :: 0 <= i < |s.cut| ==> 0 < |s.cut[i].data| <= bufSize)
    && (AllBinary(s.sent) ==> AllBinary(s.cut) && (s.reader.Reading? ==> s.reader.kind == Binary))
  }

  ghost predicate ReaderInv(s: State, bufSize: nat) { ByteInv(s) && FragmentInv(s, bufSize) }

  lemma StepKeepsBytes(s: State, bufSize: nat, a: Step)
    requires ByteInv(s) && Enabled(s, bufSize, a)
    ensures ByteInv(Next(s, bufSize, a))
  {
    match a
    case ReceiveMessage(m) =>
      DataAppend(s.sent, [m]);
      assert Data([m]) == m.data;
    case CutFragment(n) =>
      var f := Message(s.reader.kind, s.reader.rest[..n]);
      DataAppend(s.cut, [f]);
      assert Data([f]) == f.data;
      assert s.reader.rest == f.data + s.reader.rest[n..];
      Assoc(Data(s.cut), f.data, s.reader.rest[n..]);
    case _ =>
  }

  lemma StepKeepsFragments(s: State, bufSize: nat, a: Step)
    requires FragmentInv(s, bufSize) && Enabled(s, bufSize, a)
    ensures FragmentInv(Next(s, bufSize, a), bufSize)
  {
    if a.ReceiveMessage? {
      var t := Next(s, bufSize, a);
      assert forall i :: 0 <= i < |s.sent| ==> t.sent[i] == s.sent[i];
      assert t.sent[|s.sent|] == a.message;
    }
  }

  // ---------------------------------------------------------------- every run

  lemma {:induction false} RunKeepsInv(s: State, bufSize: nat, run: seq<Step>)
    requires QueueInv(s) && ReaderInv(s, bufSize) && Legal(s, bufSize, run)
    ensures QueueInv(Final(s, bufSize, run)) && ReaderInv(Final(s, bufSize, run), bufSize)
    decreases |run|
  {
    if run != [] {
      var a := run[0];
      if a.ReceiveMessage? || a.CutFragment? || a.HandOver? || a.StopReading? {
        ReaderStepKeepsQueues(s, bufSize, a);
      } else if a.PayloadArrives? || a.AcceptOne? || a.FinishRequest? || a.AbortRequest? {
        AgentStepKeepsQueues(s, bufSize, a);
      } else {
        OtherStepKeepsQueues(s, bufSize, a);
      }
      StepKeepsBytes(s, bufSize, a);
      StepKeepsFragments(s, bufSize, a);
      RunKeepsInv(Next(s, bufSize, a), bufSize, run[1..]);
    }
  }

  lemma {:induction false} PrefixOfData(a: seq<Message>, b: seq<Message>)
    requires a <= b
    ensures Data(a) <= Data(b)
  {
    assert b == a + b[|a|..];
    DataAppend(a, b[|a|..]);
  }

  /** In every run the backend has been sent an in-order prefix of the fragments, each non-empty and no
      longer than the read buffer, and until a request fails the rest is all on its way; and if the
      client sends only binary messages, then the bytes that reach the backend are a prefix of the
      bytes that the client sent. */
  lemma BackendGetsPrefixOfClient(bufSize: nat, run: seq<Step>)
    requires Legal(Init, bufSize, run)
    ensures
      var s := Final(Init, bufSize, run);
      && s.delivered <= SeenAll(s.cut)
      && (forall i :: 0 <= i < |s.cut| ==> 0 < |s.cut[i].data| <= bufSize)
      && Data(s.cut) <= Data(s.sent)
      && (Healthy(s) ==> Ahead(s) + SeenAll(s.batch) == SeenAll(s.cut))
      && ((forall i :: 0 <= i < |s.sent| ==> s.sent[i].kind == Binary) ==>
            s.delivered <= s.cut && Data(s.delivered) <= Data(s.sent))
  {
    RunKeepsInv(Init, bufSize, run);
    var s := Final(Init, bufSize, run);
    assert s.delivered <= Ahead(s);
    if forall i :: 0 <= i < |s.sent| ==> s.sent[i].kind == Binary {
      assert SeenAll(s.cut) == s.cut;
      PrefixOfData(s.delivered, s.cut);
    }
  }

  // ---------------------------------------------------------------- against the run

  /** `run` leads from `s` to `t`. */
  predicate Leads(s: State, bufSize: nat, run: seq<Step>, t: State) {
    Legal(s, bufSize, run) && Final(s, bufSize, run) == t
  }

  lemma {:induction false} LeadsOn(s: State, bufSize: nat, run: seq<Step>, t: State, more: seq<Step>, u: State)
    requires Leads(s, bufSize, run, t) && Leads(t, bufSize, more, u)
    ensures Leads(s, bufSize, run + more, u)
    decreases |run|
  {
    if run == [] {
      assert run + more == more;
    } else {
      assert (run + more)[1..] == run[1..] + more;
      LeadsOn(Next(s, bufSize, run[0]), bufSize, run[1..], t, more, u);
    }
  }

  lemma LeadsStep(s: State, bufSize: nat, run: seq<Step>, t: State, a: Step)
    requires Leads(s, bufSize, run, t) && Enabled(t, bufSize, a)
    ensures Leads(s, bufSize, run + [a], Next(t, bufSize, a))
  {
    var u := Next(t, bufSize, a);
    assert [a][1..] == [];
    assert Legal(u, bufSize, []) && Final(u, bufSize, []) == u;
    assert Leads(t, bufSize, [a], u);
    LeadsOn(s, bufSize, run, t, [a], u);
  }

  /** The messages that the client sends in the run, in order. */
  function SentIn(run: seq<Step>): seq<Message>
  {
    if run == [] then [] else (if run[0].ReceiveMessage? then [run[0].message] else []) + SentIn(run[1..])
  }

  lemma {:induction false} SentIsOfRun(s: State, bufSize: nat, run: seq<Step>)
    requires Legal(s, bufSize, run)
    ensures Final(s, bufSize, run).sent == s.sent + SentIn(run)
    decreases |run|
  {
    if run == [] {
      assert s.sent + [] == s.sent;
    } else {
      var t := Next(s, bufSize, run[0]);
      SentIsOfRun(t, bufSize, run[1..]);
      var one := if run[0].ReceiveMessage? then [run[0].message] else [];
      assert t.sent == s.sent + one;
      Assoc(s.sent, one, SentIn(run[1..]));
    }
  }

  /** The theorem against the run: if the client sends only binary messages in it, then the bytes that have
      reached the backend are the first of those that the client sends, in fragments that are not empty and
      no longer than the buffer. */
  lemma BackendGetsPrefixOfRun(bufSize: nat, run: seq<Step>)
    requires Legal(Init, bufSize, run) && AllBinary(SentIn(run))
    ensures
      var delivered := Final(Init, bufSize, run).delivered;
      && Data(delivered) <= Data(SentIn(run)) && AllBinary(delivered)
      && forall i :: 0 <= i < |delivered| ==> 0 < |delivered[i].data| <= bufSize
  {
    SentIsOfRun(Init, bufSize, run);
    assert [] + SentIn(run) == SentIn(run);
    RunKeepsInv(Init, bufSize, run);
    BackendGetsPrefixOfClient(bufSize, run);
    var s := Final(Init, bufSize, run);
    assert forall i :: 0 <= i < |s.delivered| ==> s.delivered[i] == s.cut[i];
  }

  /** Nothing is on its way, and the next message can be received. */
  predicate AtRest(s: State) {
    s.reader.Between? && s.batch == [] && s.main.Ready? && s.agent.Quiet? && s.queue == []
  }

  /** The message in hand is cut to its end. */
  lemma {:induction false} CutAll(s: State, bufSize: nat) returns (run: seq<Step>, t: State)
    requires bufSize > 0 && s.reader.Reading?
    ensures Leads(s, bufSize, run, t) && t.reader == Reading(s.reader.kind, [])
    ensures t == s.(cut := t.cut, batch := t.batch, reader := t.reader)
    decreases if s.reader.Reading? then |s.reader.rest| else 0
  {
    if s.reader.rest == [] {
      run, t := [], s;
    } else {
      var n := if |s.reader.rest| < bufSize then |s.reader.rest| else bufSize;
      var u := Next(s, bufSize, CutFragment(n));
      var more, v := CutAll(u, bufSize);
      assert Leads(s, bufSize, [], s);
      LeadsStep(s, bufSize, [], s, CutFragment(n));
      run, t := [] + [CutFragment(n)] + more, v;
      LeadsOn(s, bufSize, [] + [CutFragment(n)], u, more, v);
    }
  }

  /** The agent takes every fragment of the request, and the backend is sent each. */
  lemma {:induction false} AcceptAll(s: State, bufSize: nat) returns (run: seq<Step>, t: State)
    requires s.agent.Processing? && s.queue == [] && Sound(s.agent.rest)
    ensures Leads(s, bufSize, run, t) && t.agent == Processing([])
    ensures t == s.(agent := t.agent, delivered := t.delivered)
    decreases if s.agent.Processing? then |s.agent.rest| else 0
  {
    if s.agent.rest == [] {
      run, t := [], s;
    } else {
      var u := Next(s, bufSize, AcceptOne);
      var m := ParseServerMessage(s.agent.rest[0]).message;
      assert u == s.(queue := [] + [m], agent := Processing(s.agent.rest[1..]));
      var v := Next(u, bufSize, WriteToBackend);
      assert v.queue == [];
      var more, x := AcceptAll(v, bufSize);
      assert Leads(s, bufSize, [], s);
      LeadsStep(s, bufSize, [], s, AcceptOne);
      LeadsStep(s, bufSize, [] + [AcceptOne], u, WriteToBackend);
      run, t := [] + [AcceptOne] + [WriteToBackend] + more, x;
      LeadsOn(s, bufSize, [] + [AcceptOne] + [WriteToBackend], v, more, x);
    }
  }

  lemma ReceiveAndHandOver(s: State, bufSize: nat, m: Message) returns (run: seq<Step>, t: State)
    requires bufSize > 0 && AtRest(s)
    ensures Leads(s, bufSize, run, t)
    ensures t.reader.Between? && t.batch == [] && t.main.Posting? && t.agent.Quiet? && t.queue == []
    ensures t.sent == s.sent + [m] && Sound(t.main.payload)
  {
    var u := Next(s, bufSize, ReceiveMessage(m));
    assert Leads(s, bufSize, [], s);
    LeadsStep(s, bufSize, [], s, ReceiveMessage(m));
    var cuts, v := CutAll(u, bufSize);
    LeadsOn(s, bufSize, [] + [ReceiveMessage(m)], u, cuts, v);
    t := Next(v, bufSize, HandOver);
    LeadsStep(s, bufSize, [] + [ReceiveMessage(m)] + cuts, v, HandOver);
    run := [] + [ReceiveMessage(m)] + cuts + [HandOver];
    WiresCarryBatch(v.batch);
  }

  lemma DeliverRequest(s: State, bufSize: nat) returns (run: seq<Step>, t: State)
    requires s.reader.Between? && s.batch == [] && s.main.Posting? && s.agent.Quiet? && s.queue == []
    requires Sound(s.main.payload)
    ensures Leads(s, bufSize, run, t) && AtRest(t) && t.sent == s.sent
  {
    var u := Next(s, bufSize, PayloadArrives);
    assert Leads(s, bufSize, [], s);
    LeadsStep(s, bufSize, [], s, PayloadArrives);
    var accepts, v := AcceptAll(u, bufSize);
    LeadsOn(s, bufSize, [] + [PayloadArrives], u, accepts, v);
    var x := Next(v, bufSize, FinishRequest);
    LeadsStep(s, bufSize, [] + [PayloadArrives] + accepts, v, FinishRequest);
    t := Next(x, bufSize, AnswerArrives);
    LeadsStep(s, bufSize, [] + [PayloadArrives] + accepts + [FinishRequest], x, AnswerArrives);
    run := [] + [PayloadArrives] + accepts + [FinishRequest] + [AnswerArrives];
  }

  lemma {:induction false} AllArrive(bufSize: nat, ms: seq<Message>) returns (run: seq<Step>, t: State)
    requires bufSize > 0
    ensures Leads(Init, bufSize, run, t) && AtRest(t) && t.sent == ms
  {
    if ms == [] {
      run, t := [], Init;
    } else {
      var front := ms[..|ms| - 1];
      var first, u := AllArrive(bufSize, front);
      var second, v := ReceiveAndHandOver(u, bufSize, ms[|ms| - 1]);
      LeadsOn(Init, bufSize, first, u, second, v);
      var third, x := DeliverRequest(v, bufSize);
      LeadsOn(Init, bufSize, first + second, v, third, x);
      run, t := first + second + third, x;
      assert front + [ms[|ms| - 1]] == ms;
    }
  }

  /** Whatever messages the client sends, all of their bytes can reach the backend. */
  lemma EveryByteCanArrive(bufSize: nat, ms: seq<Message>) returns (run: seq<Step>)
    requires bufSize > 0
    ensures Legal(Init, bufSize, run) && SentIn(run) == ms
    ensures
      var s := Final(Init, bufSize, run);
      s.delivered == SeenAll(s.cut) && Data(s.cut) == Data(ms)
  {
    var t;
    run, t := AllArrive(bufSize, ms);
    SentIsOfRun(Init, bufSize, run);
    assert [] + SentIn(run) == SentIn(run);
    assert SeenAll([]) == [] && Received([]) == [];
    RunKeepsInv(Init, bufSize, run);
    RestIsAll(t, bufSize);
  }

  lemma RestIsAll(s: State, bufSize: nat)
    requires QueueInv(s) && ReaderInv(s, bufSize) && AtRest(s)
    ensures s.delivered == SeenAll(s.cut) && Data(s.cut) == Data(s.sent)
  {
    assert SeenAll(s.batch) == [] && Received([]) == [];
    assert Ahead(s) == (s.delivered + []) + [] == s.delivered;
    assert s.delivered + [] == s.delivered && Data(s.cut) + [] == Data(s.cut);
  }

  /** The queue never holds more than ten messages. */
  lemma {:induction false} QueueIsBounded(s: State, bufSize: nat, run: seq<Step>)
    requires Legal(s, bufSize, run) && |s.queue| <= 10
    ensures |Final(s, bufSize, run).queue| <= 10
    decreases |run|
  {
    if run != [] {
      QueueIsBounded(Next(s, bufSize, run[0]), bufSize, run[1..]);
    }
  }

  /** Once a request has failed in the run, or its handler has given up, that stays so, and a reader that has
      stopped reads no further message of the client. */
  lemma {:induction false} FailuresAreFinal(s: State, bufSize: nat, run: seq<Step>)
    requires Legal(s, bufSize, run)
    ensures (s.main.Ended? || FailRequest in run) ==> Final(s, bufSize, run).main.Ended?
    ensures (s.reader.NoMore? || StopReading in run) ==> Final(s, bufSize, run).reader.NoMore?
    ensures (s.agent.Aborted? || AbortRequest in run) ==> Final(s, bufSize, run).agent.Aborted?
    ensures s.reader.NoMore? ==> Final(s, bufSize, run).sent == s.sent
    decreases |run|
  {
    if run != [] {
      assert run == [run[0]] + run[1..];
      FailuresAreFinal(Next(s, bufSize, run[0]), bufSize, run[1..]);
    }
  }

  /** A request may fail before its answer, its handler give up at any point, and the client stop between
      messages or in the middle of one. */
  lemma AnythingMayFail(s: State, bufSize: nat)
    ensures s.main.Posting? || s.main.Awaiting? ==> Enabled(s, bufSize, FailRequest)
    ensures s.agent.Processing? ==> Enabled(s, bufSize, AbortRequest)
    ensures s.reader.Between? ==> Enabled(s, bufSize, StopReading)
    ensures s.reader.Reading? && s.main.Ready? ==> Enabled(s, bufSize, HandOver)
    ensures s.reader.Reading? && s.reader.rest != [] && s.main.Ready? ==> Next(s, bufSize, HandOver).reader.NoMore?
  {
  }
}
