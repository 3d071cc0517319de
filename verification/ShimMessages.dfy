/** Websocket messages carried over HTTP requests: agent/websockets/connection.go and shim.go on the
    backend's side, `handleWebsocketRequest` of server/server.go on the client's. Each direction is a
    chain of queues, and a request that fails ends its direction for good. The proxy asks for protocol
    version 1 (server/server.go:362), and versions are only ever compared with 0. */
module ShimMessages {
  import opened Basics
  import opened Codecs

  datatype Kind = Text | Binary

  datatype Message = Message(kind: Kind, data: Bytes)

  /** A JSON value, as far as the protocol uses it. A string is its bytes. */
  datatype Wire = Str(text: Bytes) | Arr(items: seq<Wire>) | OtherJson

  /** What JSON text carries from one side to the other. */
  function Transport(w: Wire): Wire
  {
    match w
    case Str(text) => Str(Sanitize(text))
    case Arr(items) => Arr(seq(|items|, i requires 0 <= i < |items| => Transport(items[i])))
    case OtherJson => OtherJson
  }

  /** `message.Serialize`, and the payload that the proxy makes of a client's fragment, for which the
      version is 1. */
  function Serialize(m: Message, version: int): Wire
  {
    if m.kind == Text then Str(m.data)
    else if version == 0 then Arr([Str(m.data)])
    else Arr([Str(Base64Encode(m.data))])
  }

  datatype Parsed = Accepted(message: Message) | Malformed | Panics

  /** `parseServerMessage`. */
  function ParseServerMessage(w: Wire): Parsed
  {
    match w
    case Str(text) => Accepted(Message(Text, text))
    case Arr(items) =>
      if items == [] then Panics
      else if items[0].Str? && Base64Decode(items[0].text).Some?
      then Accepted(Message(Binary, Base64Decode(items[0].text).value))
      else Malformed
    case OtherJson => Malformed
  }

  /** What `SendClientMessage` queues, with injection off. An array of one non-string queues a nil
      message, which the goroutine that writes to the backend skips. */
  datatype Queued = Queues(message: Message) | QueuesNil | Rejects

  function SendClientMessage(w: Wire, version: int): Queued
  {
    match w
    case Str(text) => Queues(Message(Text, text))
    case Arr(items) =>
      if |items| != 1 then Rejects
      else if !items[0].Str? then QueuesNil
      else if version == 0 then Queues(Message(Binary, items[0].text))
      else if Base64Decode(items[0].text).Some? then Queues(Message(Binary, Base64Decode(items[0].text).value))
      else Rejects
    case OtherJson => Rejects
  }

  /** What the far side makes of a message. */
  function Seen(m: Message): Message { if m.kind == Text then Message(Text, Sanitize(m.data)) else m }

  /** Either side reads back what the other wrote, except that JSON repairs text; so a message arrives
      unchanged if and only if it is binary or valid UTF-8. */
  lemma WireCarriesMessage(m: Message, version: int)
    requires version != 0
    ensures
      var w := Transport(Serialize(m, version));
      && ParseServerMessage(w) == Accepted(Seen(m))
      && SendClientMessage(w, version) == Queues(Seen(m))
      && (Seen(m) == m <==> m.kind == Binary || ValidUtf8(m.data))
  {
    SanitizeKeepsExactlyValid(m.data);
    if m.kind == Binary {
      Base64RoundTrip(m.data);
      AsciiIsValid(Base64Encode(m.data));
      SanitizeKeepsExactlyValid(Base64Encode(m.data));
    }
  }

  /** Protocol version 0 puts the bytes of a binary message into the JSON string as they are. A receiver
      that speaks version 0 gets them exactly if they are valid UTF-8; the proxy, which asks for
      version 1 and decodes base64, would get none but the empty message. */
  lemma VersionZeroCarriesExactlyUtf8(m: Message)
    requires m.kind == Binary
    ensures
      var w := Transport(Serialize(m, 0));
      && (SendClientMessage(w, 0) == Queues(m) <==> ValidUtf8(m.data))
      && (ParseServerMessage(w) == Accepted(m) <==> m.data == [])
  {
    var w := Transport(Serialize(m, 0));
    assert Transport(Str(m.data)) == Str(Sanitize(m.data));
    assert Serialize(m, 0) == Arr([Str(m.data)]);
    assert w.items[0] == Transport([Str(m.data)][0]);
    SanitizeKeepsExactlyValid(m.data);
    NothingDecodesToItself(m.data);
  }

  /** A binary message that version 0 does not carry, even between two sides that speak it. */
  lemma VersionZeroLosesBinary()
    ensures exists m: Message :: m.kind == Binary && SendClientMessage(Transport(Serialize(m, 0)), 0) != Queues(m)
  {
    var m := Message(Binary, [0xFF]);
    VersionZeroCarriesExactlyUtf8(m);
    assert !ValidUtf8(m.data);
  }

  function SeenAll(ms: seq<Message>): seq<Message> {
    seq(|ms|, i requires 0 <= i < |ms| => Seen(ms[i]))
  }

  lemma SeenAllAppend(a: seq<Message>, b: seq<Message>)
    ensures SeenAll(a + b) == SeenAll(a) + SeenAll(b)
  {
  }

  /** The messages that the receiver makes of wires that carry messages. */
  function Received(ws: seq<Wire>): seq<Message>
  {
    seq(|ws|, i requires 0 <= i < |ws| =>
          if ParseServerMessage(ws[i]).Accepted? then ParseServerMessage(ws[i]).message else Message(Text, []))
  }

  /** Every wire is one that both receivers accept, and they agree on it. */
  predicate Sound(ws: seq<Wire>) {
    forall i :: 0 <= i < |ws| ==>
      ParseServerMessage(ws[i]).Accepted? && SendClientMessage(ws[i], 1) == Queues(ParseServerMessage(ws[i]).message)
  }

  lemma ReceivedAppend(a: seq<Wire>, b: seq<Wire>)
    ensures Received(a + b) == Received(a) + Received(b)
    ensures Sound(a + b) <==> Sound(a) && Sound(b)
  {
    assert Sound(a + b) ==> Sound(a) && Sound(b) by {
      if Sound(a + b) {
        assert forall i :: 0 <= i < |a| ==> a[i] == (a + b)[i];
        assert forall i :: 0 <= i < |b| ==> b[i] == (a + b)[|a| + i];
      }
    }
  }

  lemma WireIsSound(m: Message)
    ensures
      var w := Transport(Serialize(m, 1));
      Sound([w]) && Received([w]) == [Seen(m)]
  {
    WireCarriesMessage(m, 1);
  }
}
