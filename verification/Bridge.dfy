/** TCP over a websocket (utils/tcpbridge/connection/connection.go): a byte stream carried as
    hexadecimal text messages, with what a read does not use kept for the next one. */
module Bridge {
  import opened Basics
  import opened Codecs

  datatype FrameKind = TextFrame | OtherFrame

  datatype Frame = Frame(kind: FrameKind, data: Bytes)

  /** `Waits` is a call that has not returned: it waits for the next message. */
  datatype Outcome = Success | Waits | Closed | Undecodable

  // ---------------------------------------------------------------- the specification

  /** What one message contributes to the stream; `None` is a decoding error. */
  function Payload(f: Frame): Option<Bytes> { if f.kind == TextFrame then HexDecode(f.data) else Some([]) }

  /** The bytes that messages carry, up to the first that cannot be decoded. */
  function Stream(frames: seq<Frame>): Bytes
  {
    if frames == [] then []
    else match Payload(frames[0])
      case None => []
      case Some(b) => b + Stream(frames[1..])
  }

  predicate Decodable(frames: seq<Frame>) { forall i :: 0 <= i < |frames| ==> Payload(frames[i]).Some? }

  lemma {:induction false} StreamAppend(a: seq<Frame>, b: seq<Frame>)
    requires Decodable(a)
    ensures Stream(a + b) == Stream(a) + Stream(b)
  {
    if a == [] {
      assert a + b == b;
    } else {
      assert (a + b)[1..] == a[1..] + b;
      StreamAppend(a[1..], b);
    }
  }

  /** The receiving end: leftover bytes, the messages that have not been read, and whether the websocket
      has ended behind them. */
  datatype Receiver = Receiver(buffered: Bytes, inbox: seq<Frame>, ended: bool)

  function Pending(c: Receiver): Bytes { c.buffered + Stream(c.inbox) }

  /** The first loop of `Read`: takes messages until there is something to hand out. */
  function Refill(c: Receiver): (Receiver, Outcome)
    decreases |c.inbox|
  {
    if c.buffered != [] then (c, Success)
    else if c.inbox == [] then (c, if c.ended then Closed else Waits)
    else match Payload(c.inbox[0])
      case None => (c.(inbox := c.inbox[1..]), Undecodable)
      case Some(b) => Refill(Receiver(b, c.inbox[1..], c.ended))
  }

  /** `Read` into a buffer of the given size: what is left, the bytes read, and the outcome. */
  function ReadSpec(c: Receiver, size: nat): (Receiver, Bytes, Outcome)
  {
    var (d, outcome) := Refill(c);
    if outcome != Success then (d, [], outcome)
    else
      var n := if size < |d.buffered| then size else |d.buffered|;
      (d.(buffered := d.buffered[n..]), d.buffered[..n], Success)
  }

  lemma {:induction false} RefillKeepsPending(c: Receiver)
    ensures
      var (d, outcome) := Refill(c);
      && (outcome == Success <==> Pending(c) != [])
      && (outcome == Success ==> d.buffered != [] && Pending(d) == Pending(c))
      && (outcome == Closed ==> c.ended) && (outcome == Waits ==> !c.ended)
      && d.ended == c.ended && (exists k :: 0 <= k <= |c.inbox| && d.inbox == c.inbox[k..])
    decreases |c.inbox|
  {
    if c.buffered != [] {
      assert c.inbox[0..] == c.inbox;
    } else if c.inbox == [] {
      assert c.inbox[0..] == c.inbox;
    } else if Payload(c.inbox[0]) == None {
    } else {
      var b := Payload(c.inbox[0]).value;
      var next := Receiver(b, c.inbox[1..], c.ended);
      RefillKeepsPending(next);
      assert Pending(next) == Pending(c);
      var k :| 0 <= k <= |next.inbox| && Refill(next).0.inbox == next.inbox[k..];
      assert next.inbox[k..] == c.inbox[k + 1..];
    }
  }

  /** A call that waits takes up where it was when messages arrive, and does what a call would have done
      that came after them. */
  lemma {:induction false} WaitingIsHarmless(c: Receiver, more: seq<Frame>, ends: bool)
    requires Refill(c).1 == Waits
    ensures
      var waiting := Refill(c).0;
      && waiting == Receiver([], [], false)
      && Refill(Receiver(c.buffered, c.inbox + more, ends)) ==
         Refill(Receiver(waiting.buffered, waiting.inbox + more, ends))
    decreases |c.inbox|
  {
    if c.inbox == [] {
      assert c.inbox + more == more;
      assert [] + more == more;
    } else {
      assert (c.inbox + more)[1..] == c.inbox[1..] + more;
      WaitingIsHarmless(Receiver(Payload(c.inbox[0]).value, c.inbox[1..], c.ended), more, ends);
    }
  }

  /** One read hands out exactly the next bytes of the stream, and at least one if there are any and
      room for one; it returns no bytes or waits exactly if there are none, and reports the end only of
      a websocket that has ended. */
  lemma ReadIsNextBytes(c: Receiver, size: nat)
    ensures
      var (d, got, outcome) := ReadSpec(c, size);
      && (outcome == Success <==> Pending(c) != [])
      && (outcome == Success ==> Pending(c) == got + Pending(d))
      && (outcome != Success ==> got == [])
      && (outcome == Closed ==> c.ended) && (outcome == Waits ==> !c.ended)
      && |got| <= size
      && (outcome == Success && size > 0 ==> got != [])
  {
    RefillKeepsPending(c);
    var (d, outcome) := Refill(c);
    if outcome == Success {
      var n := if size < |d.buffered| then size else |d.buffered|;
      assert d.buffered == d.buffered[..n] + d.buffered[n..];
      Assoc(d.buffered[..n], d.buffered[n..], Stream(d.inbox));
    }
  }

  // ---------------------------------------------------------------- the connection

  class WebsocketNetConn {
    var bufferedMsg: Bytes
    var inbox: seq<Frame>
    var ended: bool
    var outbox: seq<Frame>

    constructor ()
      ensures bufferedMsg == [] && inbox == [] && !ended && outbox == []
    {
      bufferedMsg, inbox, ended, outbox := [], [], false, [];
    }

    ghost function View(): Receiver
      reads this
    {
      Receiver(bufferedMsg, inbox, ended)
    }

    /** `Waits` says that the call is still in the first loop, which `WaitingIsHarmless` is about. */
    method Read(bs: array<byte>) returns (count: nat, outcome: Outcome)
      modifies this, bs
      ensures count <= bs.Length && outbox == old(outbox)
      ensures ReadSpec(old(View()), bs.Length) == (View(), bs[..count], outcome)
      ensures bs[count..] == old(bs[count..])
    {
      while |bufferedMsg| == 0
        invariant Refill(View()) == Refill(old(View()))
        invariant outbox == old(outbox) && ended == old(ended) && bs[..] == old(bs[..])
        decreases |inbox|, |bufferedMsg| == 0
      {
        if inbox == [] {
          assert bs[..0] == [];
          return 0, if ended then Closed else Waits;
        }
        var msg := inbox[0];
        inbox := inbox[1..];
        if msg.kind != TextFrame {
          continue;
        }
        var rawBytes := HexDecode(msg.data);
        if rawBytes == None {
          assert bs[..0] == [];
          return 0, Undecodable;
        }
        bufferedMsg := rawBytes.value;
      }
      count := 0;
      while count < bs.Length && count < |bufferedMsg|
        invariant count <= bs.Length && count <= |bufferedMsg|
        invariant bs[..count] == bufferedMsg[..count] && bs[count..] == old(bs[..])[count..]
        invariant Refill(View()) == Refill(old(View())) && |bufferedMsg| > 0 && outbox == old(outbox)
      {
        bs[count] := bufferedMsg[count];
        count := count + 1;
      }
      bufferedMsg := bufferedMsg[count..];
      outcome := Success;
    }

    /** `fails` says whether the websocket refuses the message. */
    method Write(bs: Bytes, fails: bool) returns (count: nat, ok: bool)
      modifies this
      ensures ok <==> !fails
      ensures count == (if ok then |bs| else 0)
      ensures outbox == (if ok then old(outbox) + [Frame(TextFrame, HexEncode(bs))] else old(outbox))
      ensures ok && Decodable(old(outbox)) ==> Decodable(outbox) && Stream(outbox) == Stream(old(outbox)) + bs
      ensures View() == old(View())
    {
      if fails {
        return 0, false;
      }
      ghost var before := outbox;
      outbox := outbox + [Frame(TextFrame, HexEncode(bs))];
      HexRoundTrip(bs);
      if Decodable(before) {
        StreamAppend(before, [Frame(TextFrame, HexEncode(bs))]);
        assert Stream([Frame(TextFrame, HexEncode(bs))]) == bs + [];
      }
      return |bs|, true;
    }
  }

  // ---------------------------------------------------------------- every run

  /** One direction of a bridged connection, with the history of what went in and came out. */
  datatype Link = Link(written: Bytes, receiver: Receiver, got: Bytes)

  /** `Stray` is a message that is not text, which the peer's library may deliver at any time. */
  datatype Step = WriteBytes(bs: Bytes) | Stray(data: Bytes) | End | ReadBytes(size: nat)

  const Start := Link([], Receiver([], [], false), [])

  function Next(s: Link, a: Step): Link
  {
    match a
    case WriteBytes(bs) =>
      s.(written := s.written + bs,
         receiver := s.receiver.(inbox := s.receiver.inbox + [Frame(TextFrame, HexEncode(bs))]))
    case End => s.(receiver := s.receiver.(ended := true))
    case Stray(data) => s.(receiver := s.receiver.(inbox := s.receiver.inbox + [Frame(OtherFrame, data)]))
    case ReadBytes(size) =>
      var (c, bs, _) := ReadSpec(s.receiver, size);
      s.(receiver := c, got := s.got + bs)
  }

  function Run(s: Link, steps: seq<Step>): Link
    decreases |steps|
  {
    if steps == [] then s else Run(Next(s, steps[0]), steps[1..])
  }

  ghost predicate Inv(s: Link) {
    Decodable(s.receiver.inbox) && s.got + Pending(s.receiver) == s.written
  }

  lemma ArrivalKeepsInv(s: Link, f: Frame, bs: Bytes)
    requires Inv(s) && Payload(f) == Some(bs)
    ensures
      var c := s.receiver.(inbox := s.receiver.inbox + [f]);
      Inv(s.(written := s.written + bs, receiver := c))
  {
    StreamAppend(s.receiver.inbox, [f]);
    assert Stream([f]) == bs + Stream([]) == bs;
    Assoc(s.receiver.buffered, Stream(s.receiver.inbox), bs);
    Assoc(s.got, Pending(s.receiver), bs);
  }

  lemma StepKeepsInv(s: Link, a: Step)
    requires Inv(s)
    ensures Inv(Next(s, a))
  {
    match a
    case WriteBytes(bs) =>
      HexRoundTrip(bs);
      ArrivalKeepsInv(s, Frame(TextFrame, HexEncode(bs)), bs);
    case End =>
    case Stray(data) =>
      ArrivalKeepsInv(s, Frame(OtherFrame, data), []);
      assert s.written + [] == s.written;
    case ReadBytes(size) =>
      ReadIsNextBytes(s.receiver, size);
      RefillKeepsPending(s.receiver);
      var (c, bs, outcome) := ReadSpec(s.receiver, size);
      if outcome == Success {
        Assoc(s.got, bs, Pending(c));
      } else {
        FailedRefillLosesNothing(s.receiver);
      }
  }

  lemma {:induction false} FailedRefillLosesNothing(c: Receiver)
    requires Decodable(c.inbox) && Refill(c).1 != Success
    ensures Pending(Refill(c).0) == [] == Pending(c) && Refill(c).1 == if c.ended then Closed else Waits
    decreases |c.inbox|
  {
    if c.inbox != [] {
      FailedRefillLosesNothing(Receiver(Payload(c.inbox[0]).value, c.inbox[1..], c.ended));
    }
  }

  lemma {:induction false} RunKeepsInv(s: Link, steps: seq<Step>)
    requires Inv(s)
    ensures Inv(Run(s, steps))
    decreases |steps|
  {
    if steps != [] {
      StepKeepsInv(s, steps[0]);
      RunKeepsInv(Next(s, steps[0]), steps[1..]);
    }
  }

  /** For every chunking of the writes, every choice of read buffers and any messages that are not text
      in between, the bytes read are a prefix of the bytes written, a read with room makes progress
      while anything is outstanding, and once everything has been read a read waits until the websocket
      ends and then reports the end. */
  lemma BridgeIsByteStream(steps: seq<Step>, size: nat)
    ensures
      var s := Run(Start, steps);
      var (_, bs, outcome) := ReadSpec(s.receiver, size);
      && s.got <= s.written
      && outcome == (if s.got != s.written then Success else if s.receiver.ended then Closed else Waits)
      && (s.got != s.written && size > 0 ==> bs != [])
      && s.got + bs <= s.written
  {
    RunKeepsInv(Start, steps);
    var s := Run(Start, steps);
    ReadIsNextBytes(s.receiver, size);
    StepKeepsInv(s, ReadBytes(size));
    assert Next(s, ReadBytes(size)).got <= s.written;
    if s.got == s.written {
      assert |s.got + Pending(s.receiver)| == |s.written|;
      FailedRefillLosesNothing(s.receiver);
    }
  }

  // ---------------------------------------------------------------- against the run

  /** The bytes that the run writes, in order. */
  function WrittenIn(steps: seq<Step>): Bytes
  {
    if steps == [] then [] else (if steps[0].WriteBytes? then steps[0].bs else []) + WrittenIn(steps[1..])
  }

  lemma {:induction false} WrittenIsOfRun(s: Link, steps: seq<Step>)
    ensures Run(s, steps).written == s.written + WrittenIn(steps)
    decreases |steps|
  {
    if steps == [] {
      assert s.written + [] == s.written;
    } else {
      var t := Next(s, steps[0]);
      WrittenIsOfRun(t, steps[1..]);
      var one := if steps[0].WriteBytes? then steps[0].bs else [];
      assert t.written == s.written + one;
      Assoc(s.written, one, WrittenIn(steps[1..]));
    }
  }

  lemma {:induction false} EndIsOfRun(s: Link, steps: seq<Step>)
    ensures Run(s, steps).receiver.ended <==> s.receiver.ended || End in steps
    decreases |steps|
  {
    if steps != [] {
      assert steps == [steps[0]] + steps[1..];
      EndIsOfRun(Next(s, steps[0]), steps[1..]);
      if steps[0].ReadBytes? {
        RefillKeepsPending(s.receiver);
      }
    }
  }

  /** The theorem against the run: what has been read is a prefix of the bytes that the run writes, and the
      next read with room hands out more of them as long as there are any; otherwise it waits, or reports
      the end if the run has ended the websocket. */
  lemma ReadsArePrefixOfRun(steps: seq<Step>, size: nat)
    ensures
      var s := Run(Start, steps);
      var (_, bs, outcome) := ReadSpec(s.receiver, size);
      && s.got + bs <= WrittenIn(steps)
      && outcome == (if s.got != WrittenIn(steps) then Success else if End in steps then Closed else Waits)
      && (s.got != WrittenIn(steps) && size > 0 ==> bs != [])
  {
    EndIsOfRun(Start, steps);
    WrittenIsOfRun(Start, steps);
    assert [] + WrittenIn(steps) == WrittenIn(steps);
    BridgeIsByteStream(steps, size);
  }

  /** The message that arrives in a step, if one does. */
  function FrameOf(a: Step): seq<Frame> {
    match a
    case WriteBytes(bs) => [Frame(TextFrame, HexEncode(bs))]
    case Stray(data) => [Frame(OtherFrame, data)]
    case _ => []
  }

  /** The messages that arrive in the run, in order. */
  function FramesIn(steps: seq<Step>): seq<Frame>
  {
    if steps == [] then [] else FrameOf(steps[0]) + FramesIn(steps[1..])
  }

  lemma StepTakesFromInbox(s: Link, a: Step) returns (n: nat)
    ensures n <= |s.receiver.inbox| && Next(s, a).receiver.inbox == s.receiver.inbox[n..] + FrameOf(a)
  {
    var inbox := s.receiver.inbox;
    if a.ReadBytes? {
      RefillKeepsPending(s.receiver);
      n :| 0 <= n <= |inbox| && Refill(s.receiver).0.inbox == inbox[n..];
      assert inbox[n..] + [] == inbox[n..];
    } else {
      n := 0;
      assert inbox[0..] == inbox && inbox + [] == inbox;
    }
  }

  lemma DropTwice(inbox: seq<Frame>, n: nat, one: seq<Frame>, more: seq<Frame>, k: nat)
    requires n <= |inbox| && k <= |inbox[n..] + one + more|
    ensures n + k <= |inbox + (one + more)| && (inbox[n..] + one + more)[k..] == (inbox + (one + more))[n + k..]
  {
    assert inbox[n..] + one + more == (inbox + (one + more))[n..];
  }

  /** What has not been read is the rest of what arrived: messages are taken in order, and none is lost. */
  lemma {:induction false} InboxIsRestOfRun(s: Link, steps: seq<Step>) returns (k: nat)
    ensures k <= |s.receiver.inbox + FramesIn(steps)|
    ensures Run(s, steps).receiver.inbox == (s.receiver.inbox + FramesIn(steps))[k..]
    decreases |steps|
  {
    var inbox := s.receiver.inbox;
    if steps == [] {
      k := 0;
      assert (inbox + [])[0..] == inbox;
    } else {
      var n := StepTakesFromInbox(s, steps[0]);
      var rest := InboxIsRestOfRun(Next(s, steps[0]), steps[1..]);
      DropTwice(inbox, n, FrameOf(steps[0]), FramesIn(steps[1..]), rest);
      k := n + rest;
    }
  }
}
