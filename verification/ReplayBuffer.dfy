/** The replayable response body and the POST retry loop of agent/utils/utils.go. */
module ReplayBuffer {
  import opened Basics

  datatype ReadError = NoError | Eof | Broken

  function Min(a: nat, b: nat): nat { if a < b then a else b }

  /** Copies as much of `from` as fits into `to[at..]`, as Go's `copy` does. */
  method Copy(to: array<byte>, at: nat, from: Bytes) returns (n: nat)
    requires at <= to.Length
    modifies to
    ensures n == Min(to.Length - at, |from|)
    ensures to[..at] == old(to[..at]) && to[at..at + n] == from[..n] && to[at + n..] == old(to[at + n..])
  {
    n := Min(to.Length - at, |from|);
    for i := 0 to n
      invariant to[..at] == old(to[..at]) && to[at..at + i] == from[..i] && to[at + n..] == old(to[at + n..])
    {
      to[at + i] := from[i];
      assert to[at..at + i + 1] == to[at..at + i] + [from[i]];
    }
  }

  /** How one call of the wrapped reader behaves: the most bytes it returns, and whether it reports
      an error. It reports the end of the stream only at the end, but may do so on any call there,
      even one that was given no room. */
  datatype Mood = Mood(most: nat, reportsEof: bool, breaks: bool)

  /** Any `io.Reader` over a fixed content, with short reads: `moods(i)` governs the i-th call. */
  class Source {
    const data: Bytes
    const moods: nat -> Mood
    var pos: nat
    var calls: nat

    constructor (data: Bytes, moods: nat -> Mood)
      ensures this.data == data && this.moods == moods && pos == 0 && calls == 0
    {
      this.data := data;
      this.moods := moods;
      pos := 0;
      calls := 0;
    }

    /** Reads into `p[from..]`. */
    method Read(p: array<byte>, from: nat) returns (n: nat, err: ReadError)
      requires pos <= |data| && from <= p.Length
      modifies this, p
      ensures n == Min(Min(moods(old(calls)).most, p.Length - from), |data| - old(pos))
      ensures pos == old(pos) + n && calls == old(calls) + 1
      ensures p[..from] == old(p[..from]) && p[from..from + n] == data[old(pos)..pos]
      ensures err == Eof <==> !moods(old(calls)).breaks && pos == |data| && moods(old(calls)).reportsEof
    {
      var m := moods(calls);
      n := Copy(p, from, data[pos..pos + Min(Min(m.most, p.Length - from), |data| - pos)]);
      pos := pos + n;
      calls := calls + 1;
      err := if m.breaks then Broken else if pos == |data| && m.reportsEof then Eof else NoError;
    }
  }

  lemma JoinSlices(s: Bytes, a: nat, b: nat, c: nat)
    requires a <= b <= c <= |s|
    ensures s[a..b] + s[b..c] == s[a..c]
  {
  }

  datatype Whence = SeekStart | SeekCurrent | SeekEnd

  class BufferedReadSeeker {
    const r: Source
    const buf: array<byte>
    var writeHead: nat
    var readHead: nat

    /** The buffer holds the first bytes taken from the source, as many as fit, and if some of them
        are to be replayed, then nothing was taken that it does not hold. */
    ghost predicate Valid()
      reads this, r, buf
    {
      && r.pos <= |r.data|
      && writeHead == Min(r.pos, buf.Length)
      && readHead <= writeHead
      && buf[..writeHead] == r.data[..writeHead]
      && (readHead < writeHead ==> r.pos == writeHead)
    }

    /** The abstraction: where in the source's content the next read starts. */
    ghost function Position(): (p: nat)
      reads this, r, buf
      requires Valid()
      ensures p <= r.pos
    {
      if readHead < writeHead then readHead else r.pos
    }

    constructor (r: Source, bufSize: nat)
      requires r.pos == 0
      ensures Valid() && Position() == 0 && this.r == r && buf.Length == bufSize && fresh(buf)
    {
      this.r := r;
      buf := new byte[bufSize];
      writeHead := 0;
      readHead := 0;
    }

    /** A read returns exactly the content from the current position: first what is to be replayed,
        then what one call of the source gives. When it reports the end of the content, the content
        has been delivered to its end if and only if `p` had room for all that was still to be
        replayed. */
    method Read(p: array<byte>) returns (n: nat, err: ReadError)
      requires Valid() && p != buf
      modifies this, r, buf, p
      ensures Valid()
      ensures old(Position()) + n <= |r.data| && n <= p.Length
      ensures p[..n] == r.data[old(Position())..old(Position()) + n]
      ensures Position() == old(Position()) + n
      ensures
        var replayed := Min(p.Length, old(writeHead - readHead));
        var mood := r.moods(old(r.calls));
        && n == replayed + Min(Min(mood.most, p.Length - replayed), |r.data| - old(r.pos))
        && r.pos == old(r.pos) + n - replayed && r.calls == old(r.calls) + 1
        && (err == Eof <==> !mood.breaks && r.pos == |r.data| && mood.reportsEof)
      ensures err == Eof ==> (Position() == |r.data| <==> p.Length >= old(writeHead - readHead))
    {
      ghost var start := Position();
      var readFromBuf := ReadFromBuffer(p);
      ghost var replayed := p[..readFromBuf];
      var readFromSource, e := ReadFromSource(p, readFromBuf);
      n, err := readFromBuf + readFromSource, e;
      assert p[..n] == p[..readFromBuf] + p[readFromBuf..n];
      JoinSlices(r.data, start, start + readFromBuf, start + n);
    }

    method ReadFromBuffer(p: array<byte>) returns (n: nat)
      requires Valid() && p != buf
      modifies `readHead, p
      ensures Valid()
      ensures n == Min(p.Length, writeHead - old(readHead)) && readHead == old(readHead) + n
      ensures p[..n] == r.data[old(Position())..old(Position()) + n]
      ensures Position() == old(Position()) + n
    {
      n := Copy(p, 0, buf[readHead..writeHead]);
      assert p[..n] == p[0..n];
      readHead := readHead + n;
    }

    method ReadFromSource(p: array<byte>, from: nat) returns (n: nat, err: ReadError)
      requires Valid() && p != buf && from <= p.Length && (readHead == writeHead || from == p.Length)
      modifies this, r, buf, p
      ensures Valid()
      ensures
        var mood := r.moods(old(r.calls));
        && n == Min(Min(mood.most, p.Length - from), |r.data| - old(r.pos))
        && r.pos == old(r.pos) + n && r.calls == old(r.calls) + 1
        && (err == Eof <==> !mood.breaks && r.pos == |r.data| && mood.reportsEof)
      ensures Position() == old(Position()) + n
      ensures p[..from] == old(p[..from]) && p[from..from + n] == r.data[old(Position())..old(Position()) + n]
      ensures old(readHead) < old(writeHead) <==> readHead < writeHead
    {
      ghost var taken, kept := r.pos, writeHead;
      n, err := r.Read(p, from);
      var gained := p[from..from + n];
      var written := Copy(buf, writeHead, gained);
      if written > 0 {
        assert buf[..kept + written] == buf[..kept] + buf[kept..kept + written];
        assert gained[..written] == r.data[kept..kept + written];
        JoinSlices(r.data, 0, kept, kept + written);
      }
      writeHead := writeHead + written;
      readHead := readHead + written;
    }

    /** Seeking succeeds exactly for an offset inside a buffer that is not full, and then every byte
        ever taken from the source can be replayed. Nothing rejects an offset beyond the write head:
        such a seek, and only such a seek, leaves heads out of order, which the next read does not
        survive. */
    method Seek(offset: int, whence: Whence) returns (r0: Option<int>)
      requires Valid()
      modifies `readHead
      ensures r0.Some? <==> whence == SeekStart && 0 <= offset < buf.Length && writeHead < buf.Length
      ensures r0.Some? ==>
        r0.value == offset && readHead == offset && r.pos < buf.Length && buf[..r.pos] == r.data[..r.pos]
      ensures Valid() <==> r0 == None || offset <= writeHead
      ensures r0.Some? && offset <= writeHead ==> Position() == offset
      ensures r0 == None ==> readHead == old(readHead) && Position() == old(Position())
    {
      if whence != SeekStart {
        return None;
      }
      if offset < 0 || offset >= buf.Length {
        return None;
      }
      if writeHead >= buf.Length {
        return None;
      }
      readHead := offset;
      return Some(readHead);
    }
  }

  // ---------------------------------------------------------------- the retry loop

  const MAX_WRITE_RESPONSE_RETRY_COUNT := 2
  const READ_RESPONSE_BUF_SIZE := 4096

  datatype Outcome = TransportError | Status(code: int)

  /** One `client.Do`: the buffers it reads the body with before it stops, and how it ends. */
  datatype Attempt = Attempt(buffers: seq<nat>, outcome: Outcome)

  /** What one attempt sent, whether the body reader had reported its end, how the attempt ended, and how
      much all attempts so far had taken from the response, in how many calls. */
  datatype Delivery = Delivery(body: Bytes, ended: bool, outcome: Outcome, taken: nat, calls: nat)

  predicate IsServerError(o: Outcome) { o.Status? && 500 <= o.code < 600 }

  predicate IsRetried(o: Outcome) { o == TransportError || IsServerError(o) }

  predicate RoomyBuffers(a: Attempt, size: nat) { forall k :: 0 <= k < |a.buffers| ==> a.buffers[k] >= size }

  /** Where a reading of the body stands: its position, what has been taken from the source and in how
      many calls, and whether its end was reported. */
  datatype Reading = Reading(at: nat, taken: nat, calls: nat, ended: bool)

  /** One read with a buffer of `size` bytes: first what is to be replayed, then one call of the source. */
  function OneRead(len: nat, moods: nat -> Mood, x: Reading, size: nat): (y: Reading)
    requires x.at <= x.taken <= len
    ensures y.at <= y.taken <= len
  {
    var replayed := Min(size, x.taken - x.at);
    var gained := Min(Min(moods(x.calls).most, size - replayed), len - x.taken);
    var mood := moods(x.calls);
    Reading(x.at + replayed + gained, x.taken + gained, x.calls + 1,
            !mood.breaks && x.taken + gained == len && mood.reportsEof)
  }

  /** Reads with the given buffers, until the end is reported. */
  function Reads(len: nat, moods: nat -> Mood, x: Reading, buffers: seq<nat>): (y: Reading)
    requires x.at <= x.taken <= len
    ensures y.at <= y.taken <= len
    decreases |buffers|
  {
    if buffers == [] || x.ended then x else Reads(len, moods, OneRead(len, moods, x, buffers[0]), buffers[1..])
  }

  function ReadingOf(d: Delivery): Reading { Reading(|d.body|, d.taken, d.calls, d.ended) }

  /** The state of the reader, if its end was last reported as `ended`. */
  ghost function ReadingBy(b: BufferedReadSeeker, ended: bool): Reading
    reads b, b.r, b.buf
    requires b.Valid()
  {
    Reading(b.Position(), b.r.pos, b.r.calls, ended)
  }

  /** What is promised of one POST of the content `data`, if `taken` bytes had been taken in `calls` calls
      before it: the body is the front of the content that its reads amount to, and a body that was read
      to its end with buffers no smaller than the replay buffer is all of it. */
  predicate Faithful(d: Delivery, a: Attempt, data: Bytes, moods: nat -> Mood, size: nat, taken: nat, calls: nat)
    requires taken <= |data|
  {
    && d.body <= data && d.outcome == a.outcome
    && ReadingOf(d) == Reads(|data|, moods, Reading(0, taken, calls, false), a.buffers)
    && (d.ended && RoomyBuffers(a, size) ==> d.body == data)
  }

  /** One read into a new buffer. */
  method ReadOnce(b: BufferedReadSeeker, size: nat) returns (bytes: Bytes, ended: bool)
    requires b.Valid()
    modifies b, b.r, b.buf
    ensures b.Valid() && ReadingBy(b, ended) == OneRead(|b.r.data|, b.r.moods, old(ReadingBy(b, false)), size)
    ensures bytes == b.r.data[old(b.Position())..b.Position()]
    ensures ended && size >= b.buf.Length ==> b.Position() == |b.r.data|
  {
    var p := new byte[size];
    var n, err := b.Read(p);
    bytes, ended := p[..n], err == Eof;
  }

  method Do(b: BufferedReadSeeker, a: Attempt) returns (d: Delivery)
    requires b.Valid() && b.Position() == 0
    modifies b, b.r, b.buf
    ensures b.Valid() && b.Position() == |d.body| && d.taken == b.r.pos && d.calls == b.r.calls
    ensures Faithful(d, a, b.r.data, b.r.moods, b.buf.Length, old(b.r.pos), old(b.r.calls))
  {
    var body: Bytes := [];
    var ended := false;
    var i := 0;
    ghost var len, start := |b.r.data|, ReadingBy(b, false);
    assert a.buffers[0..] == a.buffers;
    while i < |a.buffers| && !ended
      invariant i <= |a.buffers|
      invariant b.Valid() && b.Position() == |body| <= len && body == b.r.data[..|body|]
      invariant ended && RoomyBuffers(a, b.buf.Length) ==> |body| == len
      invariant Reads(len, b.r.moods, ReadingBy(b, ended), a.buffers[i..]) == Reads(len, b.r.moods, start, a.buffers)
      decreases |a.buffers| - i
    {
      ghost var rest := a.buffers[i..];
      assert rest[0] == a.buffers[i] && rest[1..] == a.buffers[i + 1..];
      var bytes, e := ReadOnce(b, a.buffers[i]);
      body := body + bytes;
      ended := e;
      i := i + 1;
    }
    d := Delivery(body, ended, a.outcome, b.r.pos, b.r.calls);
  }

  /** The next POST is made: this one failed, and all that was taken can be sent again. */
  predicate IsFollowed(d: Delivery) { IsRetried(d.outcome) && d.taken < READ_RESPONSE_BUF_SIZE }

  /** What had been taken before POST number `i`, and in how many calls. */
  function TakenBefore(sent: seq<Delivery>, i: nat): nat
    requires i <= |sent|
  {
    if i == 0 then 0 else sent[i - 1].taken
  }

  function CallsBefore(sent: seq<Delivery>, i: nat, calls: nat): nat
    requires i <= |sent|
  {
    if i == 0 then calls else sent[i - 1].calls
  }

  predicate FaithfulAt(sent: seq<Delivery>, i: nat, attempts: nat -> Attempt, data: Bytes, moods: nat -> Mood,
                       calls: nat)
    requires i < |sent|
  {
    && TakenBefore(sent, i) <= |data|
    && Faithful(sent[i], attempts(i), data, moods, READ_RESPONSE_BUF_SIZE,
                TakenBefore(sent, i), CallsBefore(sent, i, calls))
  }

  /** Each POST continues from what the ones before it had taken. */
  predicate AllFaithful(sent: seq<Delivery>, attempts: nat -> Attempt, data: Bytes, moods: nat -> Mood, calls: nat) {
    forall i: nat :: i < |sent| ==> FaithfulAt(sent, i, attempts, data, moods, calls)
  }

  lemma OneMoreFaithful(sent: seq<Delivery>, d: Delivery, attempts: nat -> Attempt, data: Bytes, moods: nat -> Mood,
                        calls: nat)
    requires AllFaithful(sent, attempts, data, moods, calls)
    requires FaithfulAt(sent + [d], |sent|, attempts, data, moods, calls)
    ensures AllFaithful(sent + [d], attempts, data, moods, calls)
  {
    var longer := sent + [d];
    forall i: nat | i < |longer| ensures FaithfulAt(longer, i, attempts, data, moods, calls) {
      if i < |sent| {
        assert FaithfulAt(sent, i, attempts, data, moods, calls);
        assert longer[i] == sent[i] && (i > 0 ==> longer[i - 1] == sent[i - 1]);
      }
    }
  }

  /** `attempts(i)` is what the i-th POST does. Each POST sends the front of the response that its reads
      amount to, from the first byte on, beginning with what earlier ones had taken. There is another POST
      exactly if there were fewer than three, this one failed, and the replay buffer is not full. A nil
      error means that the last POST got some answer, not that the answer was a good one. */
  method PostResponseWithRetries(source: Source, attempts: nat -> Attempt) returns (isNil: bool, sent: seq<Delivery>)
    requires source.pos == 0
    modifies source
    ensures 1 <= |sent| <= 3
    ensures AllFaithful(sent, attempts, source.data, source.moods, old(source.calls))
    ensures forall i :: 0 <= i < |sent| ==>
      (i + 1 < |sent| <==>
       && i + 1 < 3 && sent[i].taken < 4096
       && (|| sent[i].outcome == TransportError
           || (sent[i].outcome.Status? && 500 <= sent[i].outcome.code <= 599)))
    ensures sent[|sent| - 1].taken == source.pos && sent[|sent| - 1].calls == source.calls
    ensures isNil <==> sent[|sent| - 1].outcome.Status?
  {
    sent := [];
    isNil := true;
    var b := new BufferedReadSeeker(source, READ_RESPONSE_BUF_SIZE);
    var retryCount := 0;
    ghost var calls := source.calls;
    while retryCount <= MAX_WRITE_RESPONSE_RETRY_COUNT
      invariant 0 <= retryCount <= MAX_WRITE_RESPONSE_RETRY_COUNT + 1 && |sent| == retryCount
      invariant b.Valid() && b.Position() == 0 && b.r == source && fresh(b) && fresh(b.buf)
      invariant b.buf.Length == READ_RESPONSE_BUF_SIZE
      invariant AllFaithful(sent, attempts, source.data, source.moods, calls)
      invariant forall i :: 0 <= i < |sent| ==> IsFollowed(sent[i])
      invariant if sent == [] then source.pos == 0 && source.calls == calls
                else sent[|sent| - 1].taken == source.pos && sent[|sent| - 1].calls == source.calls
      invariant retryCount > 0 ==> (isNil <==> sent[|sent| - 1].outcome.Status?)
    {
      ghost var taken, before := source.pos, source.calls;
      var d := Do(b, attempts(retryCount));
      assert TakenBefore(sent + [d], |sent|) == taken && CallsBefore(sent + [d], |sent|, calls) == before;
      OneMoreFaithful(sent, d, attempts, source.data, source.moods, calls);
      sent := sent + [d];
      isNil := d.outcome.Status?;
      if d.outcome == TransportError {
        var s := b.Seek(0, SeekStart);
        if s == None {
          return;
        }
      } else {
        if IsServerError(d.outcome) {
          var s := b.Seek(0, SeekStart);
          if s == None {
            return;
          }
        } else {
          return;
        }
      }
      retryCount := retryCount + 1;
    }
  }

  /** A retry reads at least to where the reading stood before, if its buffers have the room. */
  lemma {:induction false} ReplaysWhatWasTaken(len: nat, moods: nat -> Mood, x: Reading, buffers: seq<nat>)
    requires x.at <= x.taken <= len && !x.ended
    ensures
      var y := Reads(len, moods, x, buffers);
      y.taken >= x.taken && (y.ended || y.at >= x.taken || y.at == x.at + Total(buffers))
    decreases |buffers|
  {
    if buffers != [] {
      var y := OneRead(len, moods, x, buffers[0]);
      if !y.ended {
        ReplaysWhatWasTaken(len, moods, y, buffers[1..]);
      }
    }
  }

  function Total(buffers: seq<nat>): nat { if buffers == [] then 0 else buffers[0] + Total(buffers[1..]) }

  /** A nil error although every POST was answered with 503. */
  method NilAfterServerErrors() returns (isNil: bool, sent: seq<Delivery>)
    ensures isNil && |sent| == MAX_WRITE_RESPONSE_RETRY_COUNT + 1
    ensures forall i :: 0 <= i < |sent| ==> sent[i].outcome == Status(503)
  {
    var source := new Source([7], i => Mood(1, true, false));
    var attempts := i => Attempt([1], Status(503));
    isNil, sent := PostResponseWithRetries(source, attempts);
    forall i: nat | i < |sent| ensures sent[i].outcome == Status(503) && sent[i].taken <= 1 {
      assert FaithfulAt(sent, i, attempts, source.data, source.moods, 0);
      assert ReadingOf(sent[i]).taken <= 1;
    }
  }

  /** A reader that reports its end whenever it has no more, replayed through a smaller buffer: the
      second reading ends early. */
  method ReplayCanEndEarly() returns (whole: Bytes, replayed: Bytes, ended: bool)
    ensures ended && replayed < whole
  {
    var source := new Source([1, 2, 3], i => Mood(3, true, false));
    whole := source.data;
    var b := new BufferedReadSeeker(source, READ_RESPONSE_BUF_SIZE);
    var p := new byte[3];
    var n, err := b.Read(p);
    var s := b.Seek(0, SeekStart);
    var q := new byte[1];
    n, err := b.Read(q);
    replayed := q[..n];
    ended := err == Eof;
  }
}
