/** From the backend to the client. */
module ShimDownstream {
  import opened Basics
  import Codecs
  import opened ShimMessages

  const QUEUE_LIMIT := 10

  datatype Poll = Idle | Draining(batch: seq<Wire>) | Replied(batch: seq<Wire>) | Stopped

  /** `read` is the history of what the backend sent and `written` of what the client was sent. */
  datatype State = State(
    read: seq<Message>,
    inHand: seq<Message>,
    queue: seq<Message>,
    reading: bool,
    poll: Poll,
    writeChan: seq<seq<Wire>>,
    writing: seq<Wire>,
    written: seq<Message>,
    serving: bool)

  const Init := State([], [], [], true, Idle, [], [], [], true)

  /** `FailPoll` stands for every way in which a poll does not bring a batch: the timeout's 408, a
      closed session, a lost request or response. The poll loop then returns. */
  datatype Step =
    | ReadMessage(message: Message)
    | Enqueue
    | StopReading
    | StartPoll
    | DrainOne
    | ReplyPoll
    | FailPoll
    | PollArrives
    | TakeBatch
    | WriteOne
    | StopServing

  predicate Enabled(s: State, bufSize: nat, a: Step) {
    match a
    case ReadMessage(_) => s.reading && s.inHand == []
    case Enqueue => s.inHand != [] && |s.queue| < QUEUE_LIMIT
    case StopReading => true
    case StartPoll => s.poll.Idle?
    case DrainOne => s.poll.Draining? && s.queue != []
    case ReplyPoll => s.poll.Draining? && s.poll.batch != []
    case FailPoll => true
    case PollArrives => s.poll.Replied? && |s.writeChan| <= bufSize
    case TakeBatch => s.serving && s.writing == [] && s.writeChan != []
    case WriteOne => s.serving && s.writing != []
    case StopServing => true
  }

  function Next(s: State, bufSize: nat, a: Step): State
    requires Enabled(s, bufSize, a)
  {
    match a
    case ReadMessage(m) => s.(read := s.read + [m], inHand := [m])
    case Enqueue => s.(queue := s.queue + s.inHand, inHand := [])
    case StopReading => s.(reading := false)
    case StartPoll => s.(poll := Draining([]))
    case DrainOne => s.(queue := s.queue[1..], poll := Draining(s.poll.batch + [Transport(Serialize(s.queue[0], 1))]))
    case ReplyPoll => s.(poll := Replied(s.poll.batch))
    case FailPoll => s.(poll := Stopped)
    case PollArrives => s.(writeChan := s.writeChan + [s.poll.batch], poll := Idle)
    case TakeBatch => s.(writing := s.writeChan[0], writeChan := s.writeChan[1..])
    case WriteOne =>
      var p := ParseServerMessage(s.writing[0]);
      if p.Accepted? then s.(written := s.written + [p.message], writing := s.writing[1..]) else s.(serving := false)
    case StopServing => s.(serving := false)
  }

  predicate Legal(s: State, bufSize: nat, run: seq<Step>)
    decreases |run|
  {
    run == [] || (Enabled(s, bufSize, run[0]) && Legal(Next(s, bufSize, run[0]), bufSize, run[1..]))
  }

  function Final(s: State, bufSize: nat, run: seq<Step>): State
    requires Legal(s, bufSize, run)
    decreases |run|
  {
    if run == [] then s else Final(Next(s, bufSize, run[0]), bufSize, run[1..])
  }

  function Carried(poll: Poll): seq<Wire> {
    match poll
    case Draining(batch) => batch
    case Replied(batch) => batch
    case _ => []
  }

  /** Everything between the poll and the client, with what the client has. */
  function Ahead(s: State): seq<Message> {
    s.written + Received(s.writing + Flatten(s.writeChan))
  }

  /** Everything still on the backend's side of the client's queue. */
  function Behind(s: State): seq<Message> {
    Received(Carried(s.poll)) + SeenAll(s.queue + s.inHand)
  }

  /** Conservation: nothing is lost, repeated or reordered until a poll fails, and from then on what
      is ahead of the failure is a prefix. */
  ghost predicate Inv(s: State) {
    && Sound(s.writing + Flatten(s.writeChan))
    && Sound(Carried(s.poll))
    && |s.inHand| <= 1
    && Ahead(s) <= SeenAll(s.read)
    && (!s.poll.Stopped? ==> Ahead(s) + Behind(s) == SeenAll(s.read))
  }

  lemma InitInv()
    ensures Inv(Init)
  {
    assert Flatten(Init.writeChan) == [];
  }

  lemma PlainStepKeepsInv(s: State, bufSize: nat, a: Step)
    requires Inv(s) && Enabled(s, bufSize, a)
    requires !a.DrainOne? && !a.PollArrives? && !a.TakeBatch? && !a.WriteOne?
    ensures Inv(Next(s, bufSize, a))
  {
    var t := Next(s, bufSize, a);
    match a
    case ReadMessage(m) =>
      SeenAllAppend(s.read, [m]);
      SeenAllAppend(s.queue, [m]);
      assert s.queue + s.inHand == s.queue;
      assert Behind(t) == Behind(s) + SeenAll([m]);
      if !s.poll.Stopped? {
        assert Ahead(t) + Behind(t) == (Ahead(s) + Behind(s)) + SeenAll([m]);
      }
    case Enqueue =>
      assert t.queue + t.inHand == s.queue + s.inHand;
    case _ =>
  }

  lemma DrainKeepsInv(s: State, bufSize: nat)
    requires Inv(s) && Enabled(s, bufSize, DrainOne)
    ensures Inv(Next(s, bufSize, DrainOne))
  {
    var t := Next(s, bufSize, DrainOne);
    var w := Transport(Serialize(s.queue[0], 1));
    WireIsSound(s.queue[0]);
    ReceivedAppend(s.poll.batch, [w]);
    SeenAllAppend([s.queue[0]], t.queue + t.inHand);
    assert [s.queue[0]] + (t.queue + t.inHand) == s.queue + s.inHand;
    assert SeenAll([s.queue[0]]) == [Seen(s.queue[0])];
    Assoc(Received(s.poll.batch), Received([w]), SeenAll(t.queue + t.inHand));
    assert Behind(t) == Behind(s);
    assert Ahead(t) == Ahead(s);
  }

  lemma ArrivalKeepsInv(s: State, bufSize: nat)
    requires Inv(s) && Enabled(s, bufSize, PollArrives)
    ensures Inv(Next(s, bufSize, PollArrives))
  {
    var t := Next(s, bufSize, PollArrives);
    var batch, ahead, left := s.poll.batch, s.writing + Flatten(s.writeChan), SeenAll(s.queue + s.inHand);
    FlattenSnoc(s.writeChan, batch);
    Assoc(s.writing, Flatten(s.writeChan), batch);
    assert t.writing + Flatten(t.writeChan) == ahead + batch;
    ReceivedAppend(ahead, batch);
    Assoc(s.written, Received(ahead), Received(batch));
    assert Ahead(t) == Ahead(s) + Received(batch);
    assert Behind(t) == left by {
      assert Received([]) == [];
    }
    Assoc(Ahead(s), Received(batch), left);
  }

  lemma TakingKeepsInv(s: State, bufSize: nat)
    requires Inv(s) && Enabled(s, bufSize, TakeBatch)
    ensures Inv(Next(s, bufSize, TakeBatch))
  {
    var t := Next(s, bufSize, TakeBatch);
    assert t.writing + Flatten(t.writeChan) == s.writing + Flatten(s.writeChan);
    assert Ahead(t) == Ahead(s) && Behind(t) == Behind(s);
  }

  lemma WritingKeepsInv(s: State, bufSize: nat)
    requires Inv(s) && Enabled(s, bufSize, WriteOne)
    ensures Inv(Next(s, bufSize, WriteOne))
  {
    var t := Next(s, bufSize, WriteOne);
    var first, rest := s.writing[0], s.writing[1..] + Flatten(s.writeChan);
    assert s.writing == [first] + s.writing[1..];
    Assoc([first], s.writing[1..], Flatten(s.writeChan));
    OneIsWritten(s.written, first, rest);
    assert Ahead(t) == Ahead(s) && Behind(t) == Behind(s);
  }

  lemma OneIsWritten(written: seq<Message>, w: Wire, rest: seq<Wire>)
    requires Sound([w] + rest)
    ensures Sound(rest) && ParseServerMessage(w).Accepted?
    ensures (written + [ParseServerMessage(w).message]) + Received(rest) == written + Received([w] + rest)
  {
    ReceivedAppend([w], rest);
    assert ParseServerMessage([w][0]).Accepted?;
    Assoc(written, Received([w]), Received(rest));
  }

  lemma {:induction false} RunKeepsInv(s: State, bufSize: nat, run: seq<Step>)
    requires Inv(s) && Legal(s, bufSize, run)
    ensures Inv(Final(s, bufSize, run))
    decreases |run|
  {
    if run != [] {
      match run[0] {
        case DrainOne => DrainKeepsInv(s, bufSize);
        case PollArrives => ArrivalKeepsInv(s, bufSize);
        case TakeBatch => TakingKeepsInv(s, bufSize);
        case WriteOne => WritingKeepsInv(s, bufSize);
        case _ => PlainStepKeepsInv(s, bufSize, run[0]);
      }
      RunKeepsInv(Next(s, bufSize, run[0]), bufSize, run[1..]);
    }
  }

  /** In every run the client has been sent, in order and without gaps or repeats, the first of what
      the backend sent: message by message the same kind and the same bytes exactly if the message is
      binary or valid UTF-8, and until a poll fails the rest is all in the queues. */
  lemma ClientGetsPrefixOfBackend(bufSize: nat, run: seq<Step>)
    requires Legal(Init, bufSize, run)
    ensures
      var s := Final(Init, bufSize, run);
      && |s.written| <= |s.read|
      && (forall i :: 0 <= i < |s.written| ==>
            && s.written[i].kind == s.read[i].kind
            && (s.written[i] == s.read[i] <==> s.read[i].kind == Binary || Codecs.ValidUtf8(s.read[i].data)))
      && (!s.poll.Stopped? ==> Ahead(s) + Behind(s) == SeenAll(s.read))
  {
    InitInv();
    RunKeepsInv(Init, bufSize, run);
    var s := Final(Init, bufSize, run);
    forall i | 0 <= i < |s.written|
      ensures
        && s.written[i].kind == s.read[i].kind
        && (s.written[i] == s.read[i] <==> s.read[i].kind == Binary || Codecs.ValidUtf8(s.read[i].data))
    {
      assert s.written[i] == Ahead(s)[i] == SeenAll(s.read)[i];
      WireCarriesMessage(s.read[i], 1);
    }
  }

  // ---------------------------------------------------------------- against the run

  /** `run` leads from `s` to `t`. */
  predicate Leads(s: State, bufSize: nat, run: seq<Step>, t: State) {
    Legal(s, bufSize, run) && Final(s, bufSize, run) == t
  }

  lemma {:induction false} LeadsOn(s: State, bufSize: nat, run: seq<Step>, t: State, more: seq<Step>, u: State)
    requires Leads(s, bufSize, run, t) && Leads(t, bufSize, more, u)
    ensures Leads(s, bufSize, run + more, u)
    decreases |run|
  {
    if run == [] {
      assert run + more == more;
    } else {
      assert (run + more)[1..] == run[1..] + more;
      LeadsOn(Next(s, bufSize, run[0]), bufSize, run[1..], t, more, u);
    }
  }

  lemma LeadsStep(s: State, bufSize: nat, run: seq<Step>, t: State, a: Step)
    requires Leads(s, bufSize, run, t) && Enabled(t, bufSize, a)
    ensures Leads(s, bufSize, run + [a], Next(t, bufSize, a))
  {
    var u := Next(t, bufSize, a);
    assert [a][1..] == [];
    assert Legal(u, bufSize, []) && Final(u, bufSize, []) == u;
    assert Leads(t, bufSize, [a], u);
    LeadsOn(s, bufSize, run, t, [a], u);
  }

  /** The messages that the backend sends in the run, in order. */
  function SentIn(run: seq<Step>): seq<Message>
  {
    if run == [] then [] else (if run[0].ReadMessage? then [run[0].message] else []) + SentIn(run[1..])
  }

  lemma {:induction false} ReadIsOfRun(s: State, bufSize: nat, run: seq<Step>)
    requires Legal(s, bufSize, run)
    ensures Final(s, bufSize, run).read == s.read + SentIn(run)
    decreases |run|
  {
    if run == [] {
      assert s.read + [] == s.read;
    } else {
      var t := Next(s, bufSize, run[0]);
      ReadIsOfRun(t, bufSize, run[1..]);
      var one := if run[0].ReadMessage? then [run[0].message] else [];
      assert t.read == s.read + one;
      Assoc(s.read, one, SentIn(run[1..]));
    }
  }

  /** The theorem against the run: what the client has been sent is, message by message, the first of what
      the backend sends in the run. */
  lemma ClientGetsPrefixOfRun(bufSize: nat, run: seq<Step>)
    requires Legal(Init, bufSize, run)
    ensures
      var written := Final(Init, bufSize, run).written;
      && |written| <= |SentIn(run)|
      && forall i :: 0 <= i < |written| ==>
           && written[i].kind == SentIn(run)[i].kind
           && (written[i] == SentIn(run)[i] <==>
               SentIn(run)[i].kind == Binary || Codecs.ValidUtf8(SentIn(run)[i].data))
  {
    ReadIsOfRun(Init, bufSize, run);
    assert [] + SentIn(run) == SentIn(run);
    ClientGetsPrefixOfBackend(bufSize, run);
  }

  /** Everything that was read has been written, and the next message can be. */
  predicate AtRest(s: State) {
    && s.inHand == [] && s.queue == [] && s.reading && s.poll.Idle? && s.writeChan == [] && s.writing == []
    && s.serving
  }

  lemma OneMessageArrives(s: State, bufSize: nat, m: Message) returns (run: seq<Step>, t: State)
    requires AtRest(s)
    ensures Leads(s, bufSize, run, t) && AtRest(t) && t.read == s.read + [m]
  {
    WireCarriesMessage(m, 1);
    var first, u := OneMessageIsPolled(s, bufSize, m);
    var second, v := OneBatchIsWritten(u, bufSize, Transport(Serialize(m, 1)));
    run, t := first + second, v;
    LeadsOn(s, bufSize, first, u, second, v);
  }

  lemma OneMessageIsPolled(s: State, bufSize: nat, m: Message) returns (run: seq<Step>, t: State)
    requires AtRest(s)
    ensures Leads(s, bufSize, run, t)
    ensures t == s.(read := s.read + [m], poll := Replied([Transport(Serialize(m, 1))]))
  {
    var s1 := Next(s, bufSize, ReadMessage(m));
    var s2 := Next(s1, bufSize, Enqueue);
    assert s2.queue == [m] && s2.inHand == [];
    var s3 := Next(s2, bufSize, StartPoll);
    var s4 := Next(s3, bufSize, DrainOne);
    assert s4.queue == [] && s4.poll == Draining([Transport(Serialize(m, 1))]);
    t := Next(s4, bufSize, ReplyPoll);
    assert Leads(s, bufSize, [], s);
    LeadsStep(s, bufSize, [], s, ReadMessage(m));
    LeadsStep(s, bufSize, [] + [ReadMessage(m)], s1, Enqueue);
    LeadsStep(s, bufSize, [] + [ReadMessage(m)] + [Enqueue], s2, StartPoll);
    LeadsStep(s, bufSize, [] + [ReadMessage(m)] + [Enqueue] + [StartPoll], s3, DrainOne);
    LeadsStep(s, bufSize, [] + [ReadMessage(m)] + [Enqueue] + [StartPoll] + [DrainOne], s4, ReplyPoll);
    run := [] + [ReadMessage(m)] + [Enqueue] + [StartPoll] + [DrainOne] + [ReplyPoll];
  }

  lemma OneBatchIsWritten(s: State, bufSize: nat, w: Wire) returns (run: seq<Step>, t: State)
    requires s.poll == Replied([w]) && s.writeChan == [] && s.writing == [] && s.serving
    requires ParseServerMessage(w).Accepted?
    ensures Leads(s, bufSize, run, t)
    ensures t == s.(poll := Idle, written := s.written + [ParseServerMessage(w).message])
  {
    var s1 := Next(s, bufSize, PollArrives);
    var s2 := Next(s1, bufSize, TakeBatch);
    t := Next(s2, bufSize, WriteOne);
    assert Leads(s, bufSize, [], s);
    LeadsStep(s, bufSize, [], s, PollArrives);
    LeadsStep(s, bufSize, [] + [PollArrives], s1, TakeBatch);
    LeadsStep(s, bufSize, [] + [PollArrives] + [TakeBatch], s2, WriteOne);
    run := [] + [PollArrives] + [TakeBatch] + [WriteOne];
  }

  lemma {:induction false} AllArrive(bufSize: nat, ms: seq<Message>) returns (run: seq<Step>, t: State)
    ensures Leads(Init, bufSize, run, t) && AtRest(t) && t.read == ms
  {
    if ms == [] {
      run, t := [], Init;
    } else {
      var front := ms[..|ms| - 1];
      var first, u := AllArrive(bufSize, front);
      var second, v := OneMessageArrives(u, bufSize, ms[|ms| - 1]);
      run, t := first + second, v;
      LeadsOn(Init, bufSize, first, u, second, v);
      assert front + [ms[|ms| - 1]] == ms;
    }
  }

  /** Whatever messages the backend sends, the client can be sent all of them. */
  lemma EveryMessageCanArrive(bufSize: nat, ms: seq<Message>) returns (run: seq<Step>)
    ensures Legal(Init, bufSize, run) && SentIn(run) == ms && Final(Init, bufSize, run).written == SeenAll(ms)
  {
    var t;
    run, t := AllArrive(bufSize, ms);
    ReadIsOfRun(Init, bufSize, run);
    assert [] + SentIn(run) == SentIn(run);
    InitInv();
    RunKeepsInv(Init, bufSize, run);
    RestIsAll(t);
  }

  lemma RestIsAll(s: State)
    requires Inv(s) && AtRest(s)
    ensures s.written == SeenAll(s.read)
  {
    assert Flatten(s.writeChan) == [] && s.writing + [] == [];
    assert Received([]) == [] && SeenAll(s.queue + s.inHand) == [];
    assert Ahead(s) == s.written + [] && Behind(s) == [] + [];
    assert s.written + [] == s.written;
  }

  /** The queue never holds more than ten messages. */
  lemma {:induction false} QueueIsBounded(s: State, bufSize: nat, run: seq<Step>)
    requires Legal(s, bufSize, run) && |s.queue| <= 10 && |s.inHand| <= 1
    ensures |Final(s, bufSize, run).queue| <= 10
    decreases |run|
  {
    if run != [] {
      QueueIsBounded(Next(s, bufSize, run[0]), bufSize, run[1..]);
    }
  }

  /** Once a poll has failed in the run, no further batch arrives; once serving has stopped, nothing more is
      written; and once reading has stopped, nothing more is read. */
  lemma {:induction false} FailuresAreFinal(s: State, bufSize: nat, run: seq<Step>)
    requires Legal(s, bufSize, run)
    ensures (s.poll.Stopped? || FailPoll in run) ==> Final(s, bufSize, run).poll.Stopped?
    ensures (!s.serving || StopServing in run) ==> !Final(s, bufSize, run).serving
    ensures !s.serving ==> Final(s, bufSize, run).written == s.written
    ensures (!s.reading || StopReading in run) ==> !Final(s, bufSize, run).reading
    ensures !s.reading ==> Final(s, bufSize, run).read == s.read
    decreases |run|
  {
    if run != [] {
      assert run == [run[0]] + run[1..];
      FailuresAreFinal(Next(s, bufSize, run[0]), bufSize, run[1..]);
    }
  }

  /** A poll may fail, and either side stop, at any time. */
  lemma AnythingMayFail(s: State, bufSize: nat)
    ensures Enabled(s, bufSize, FailPoll) && Enabled(s, bufSize, StopReading) && Enabled(s, bufSize, StopServing)
  {
  }
}
