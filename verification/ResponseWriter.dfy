/** The streaming response writer of agent/utils/utils.go. */
module ResponseWriter {
  import opened Basics

  type Header = map<string, seq<string>>

  // ---------------------------------------------------------------- header names

  predicate IsLower(c: char) { 'a' <= c <= 'z' }
  predicate IsUpper(c: char) { 'A' <= c <= 'Z' }

  /** A character that may occur in a header name. */
  predicate IsTokenChar(c: char) {
    IsLower(c) || IsUpper(c) || '0' <= c <= '9' || c in "!#$%&'*+-.^_`|~"
  }

  function ToUpper(c: char): char { if IsLower(c) then c - 'a' + 'A' else c }
  function ToLower(c: char): char { if IsUpper(c) then c - 'A' + 'a' else c }

  predicate IsToken(k: string) { forall i :: 0 <= i < |k| ==> IsTokenChar(k[i]) }

  /** Upper case at the start and after a hyphen, and lower case elsewhere. */
  function CasedAt(k: string, i: nat): char
    requires i < |k|
  {
    if i == 0 || k[i - 1] == '-' then ToUpper(k[i]) else ToLower(k[i])
  }

  function Cased(k: string): (r: string)
    ensures |r| == |k|
  {
    seq(|k|, i requires 0 <= i < |k| => CasedAt(k, i))
  }

  /** `http.CanonicalHeaderKey`; a name with any other character is left as it is. */
  function Canonical(k: string): (r: string)
    ensures |r| == |k|
  {
    if IsToken(k) then Cased(k) else k
  }

  lemma CaseKeepsTokens(c: char)
    requires IsTokenChar(c)
    ensures IsTokenChar(ToUpper(c)) && IsTokenChar(ToLower(c))
    ensures ToUpper(ToUpper(c)) == ToUpper(c) && ToLower(ToLower(c)) == ToLower(c)
    ensures (ToUpper(c) == '-' <==> c == '-') && (ToLower(c) == '-' <==> c == '-')
  {
  }

  /** So the names that `Header.Add` and `Header.Values` look up for a canonical name are that name. */
  lemma CanonicalIsIdempotent(k: string)
    ensures Canonical(Canonical(k)) == Canonical(k)
  {
    var c := Canonical(k);
    if IsToken(k) {
      forall i | 0 <= i < |k|
        ensures IsTokenChar(c[i]) && (c[i] == '-' <==> k[i] == '-')
        ensures c[i] == if i == 0 || k[i - 1] == '-' then ToUpper(c[i]) else ToLower(c[i])
      {
        CaseKeepsTokens(k[i]);
      }
      assert Canonical(c) == c;
    }
  }

  const HOP_HEADERS: set<string> := {
    "Connection", "Proxy-Connection", "Keep-Alive", "Proxy-Authenticate", "Proxy-Authorization",
    "Te", "Trailer", "Transfer-Encoding", "Upgrade"}

  /** `Header.Add` for a list of values, once the name has been made canonical. */
  function AddValues(h: Header, c: string, values: seq<string>): Header {
    if values == [] then h else h[c := (if c in h then h[c] else []) + values]
  }

  function Values(h: Header, k: string): seq<string> { if k in h then h[k] else [] }

  /** The raw name `k` is not a hop-by-hop name as it stands but becomes one. */
  predicate Disguised(k: string) { k !in HOP_HEADERS && Canonical(k) in HOP_HEADERS }

  // ---------------------------------------------------------------- loops over headers

  /** `order` lists the keys of `h`, each once: one of the orders in which Go may range over it. */
  ghost predicate Enumerates(order: seq<string>, h: Header) {
    && (forall i, j :: 0 <= i < j < |order| ==> order[i] != order[j])
    && (forall k :: k in order <==> k in h)
  }

  /** What a loop over `order` adds under the canonical name `c`; `name` maps a key to the canonical
      name it is added under, if it is added at all. */
  ghost function Gathered(h: Header, order: seq<string>, name: string -> Option<string>, c: string): seq<string>
    requires forall i :: 0 <= i < |order| ==> order[i] in h
  {
    if order == [] then []
    else
      var last := order[|order| - 1];
      Gathered(h, order[..|order| - 1], name, c)
      + (if name(last) == Some(c) then h[last] else [])
  }

  /** Under the name `c`, `after` is `before` with `values` added. */
  predicate AddedUnder(before: Header, after: Header, c: string, values: seq<string>) {
    Values(after, c) == Values(before, c) + values && (c in after <==> c in before || values != [])
  }

  /** `after` is `before` with the loop's values added. */
  ghost predicate Added(before: Header, after: Header, h: Header, order: seq<string>, name: string -> Option<string>)
    requires forall i :: 0 <= i < |order| ==> order[i] in h
  {
    forall c :: AddedUnder(before, after, c, Gathered(h, order, name, c))
  }

  lemma AddMore(before: Header, after: Header, c: string, values: seq<string>, d: string, more: seq<string>)
    requires AddedUnder(before, after, c, values)
    ensures AddedUnder(before, AddValues(after, d, more), c, values + (if c == d then more else []))
  {
    assert values + [] == values;
    Assoc(Values(before, c), values, more);
  }

  lemma AddedSnoc(before: Header, after: Header, h: Header, order: seq<string>, k: string,
                  name: string -> Option<string>)
    requires forall i :: 0 <= i < |order| ==> order[i] in h
    requires k in h && Added(before, after, h, order, name)
    ensures
      var next := if name(k).Some? then AddValues(after, name(k).value, h[k]) else after;
      Added(before, next, h, order + [k], name)
  {
    var longer := order + [k];
    var next := if name(k).Some? then AddValues(after, name(k).value, h[k]) else after;
    assert longer[..|longer| - 1] == order && longer[|longer| - 1] == k;
    forall c ensures AddedUnder(before, next, c, Gathered(h, longer, name, c)) {
      var g := Gathered(h, order, name, c);
      assert AddedUnder(before, after, c, g);
      assert g + [] == g;
      if name(k).Some? {
        AddMore(before, after, c, g, name(k).value, h[k]);
      }
    }
  }

  /** Every loop over a header in the writer has this form. */
  method AddEach(start: Header, h: Header, name: string -> Option<string>) returns (r: Header)
    ensures exists order :: Enumerates(order, h) && Added(start, r, h, order, name)
  {
    r := start;
    ghost var order: seq<string> := [];
    var keys := h.Keys;
    assert forall c :: Gathered(h, order, name, c) == [];
    while keys != {}
      invariant keys <= h.Keys
      invariant forall i, j :: 0 <= i < j < |order| ==> order[i] != order[j]
      invariant forall k :: k in order <==> k in h && k !in keys
      invariant Added(start, r, h, order, name)
    {
      var k :| k in keys;
      AddedSnoc(start, r, h, order, k, name);
      if name(k).Some? {
        r := AddValues(r, name(k).value, h[k]);
      }
      order := order + [k];
      keys := keys - {k};
    }
  }

  /** Which names the loop adds something under. */
  lemma {:induction false} GatheredSomething(h: Header, order: seq<string>, name: string -> Option<string>, c: string)
    requires forall i :: 0 <= i < |order| ==> order[i] in h
    ensures Gathered(h, order, name, c) != [] <==>
      exists k :: k in order && h[k] != [] && name(k) == Some(c)
  {
    if order != [] {
      var front, last := order[..|order| - 1], order[|order| - 1];
      GatheredSomething(h, front, name, c);
      assert order == front + [last];
      assert forall k :: k in order <==> k in front || k == last;
    }
  }

  /** If just one key is added under `c`, its values are what is added. */
  lemma {:induction false} GatheredOne(h: Header, order: seq<string>, name: string -> Option<string>, c: string,
                                       k: string)
    requires forall i :: 0 <= i < |order| ==> order[i] in h
    requires forall i, j :: 0 <= i < j < |order| ==> order[i] != order[j]
    requires forall i :: 0 <= i < |order| && name(order[i]) == Some(c) ==> order[i] == k
    requires name(k) == Some(c)
    ensures Gathered(h, order, name, c) == if k in order then h[k] else []
  {
    if order != [] {
      var front, last := order[..|order| - 1], order[|order| - 1];
      GatheredOne(h, front, name, c, k);
      assert order == front + [last];
    }
  }

  // ---------------------------------------------------------------- the two uses of the loop

  /** The header loop of `WriteHeader` keeps every name that is not hop-by-hop as it stands. */
  function HeaderName(k: string): Option<string> { if k in HOP_HEADERS then None else Some(Canonical(k)) }

  const TRAILER_PREFIX := "Trailer:"

  /** The second loop of `Close` takes the names that carry the trailer prefix. */
  function PrefixedName(k: string): Option<string> {
    if TRAILER_PREFIX <= k && k[|TRAILER_PREFIX|..] !in HOP_HEADERS
    then Some(Canonical(k[|TRAILER_PREFIX|..]))
    else None
  }

  /** `after` is what the header loop of `WriteHeader` makes of `h`, in some order of its keys. */
  ghost predicate FilteredFrom(h: Header, after: Header) {
    exists order :: Enumerates(order, h) && Added(map[], after, h, order, HeaderName)
  }

  /** A Trailer value that lists `n` declares the trailer `c`. */
  predicate Declares(n: string, c: string) { n != "" && n !in HOP_HEADERS && Canonical(n) == c }

  ghost predicate IsDeclared(c: string, lines: seq<string>, tokens: string -> seq<string>) {
    exists line, n :: line in lines && n in tokens(line) && Declares(n, c)
  }

  /** Some header with the trailer prefix has values for the trailer `c`. */
  ghost predicate IsPrefixed(h: Header, c: string) {
    exists k :: k in h && h[k] != [] && PrefixedName(k) == Some(c)
  }

  predicate AllCanonical(h: Header) { forall c :: c in h ==> Canonical(c) == c }

  /** `t` has an empty entry for each declared name. */
  ghost predicate DeclaredBy(t: Header, lines: seq<string>, tokens: string -> seq<string>) {
    forall c :: (c in t <==> IsDeclared(c, lines, tokens)) && (c in t ==> t[c] == [])
  }

  /** The first loop of `Close`. */
  ghost predicate Copied(declared: Header, copied: Header, h: Header) {
    copied.Keys == declared.Keys && forall c :: c in declared ==> copied[c] == declared[c] + Values(h, c)
  }

  /** Both loops of `Close` turn `declared` into `t`. */
  ghost predicate Closes(declared: Header, t: Header, h: Header) {
    exists copied, order ::
      Enumerates(order, h) && Copied(declared, copied, h) && Added(copied, t, h, order, PrefixedName)
  }

  /** A Go map, which whoever holds it shares. */
  class HeaderMap {
    var values: Header

    constructor (values: Header)
      ensures this.values == values
    {
      this.values := values;
    }
  }

  /** The header is shared with the writer; the trailer is the writer's own. */
  datatype Response = Response(status: int, header: HeaderMap)

  class StreamingResponseWriter {
    /** The library's splitting of a Trailer value at commas, with blanks trimmed. */
    const tokens: string -> seq<string>
    var header: HeaderMap
    var trailer: Header
    var wroteHeader: bool
    var sent: seq<Response>
    var body: Bytes
    var cancelled: bool
    var closed: bool
    /** The reading end of the body was closed with an error. */
    var readerFailed: bool
    /** What the header held when the response was sent. */
    ghost var asSent: Header

    constructor (tokens: string -> seq<string>)
      ensures Valid() && this.tokens == tokens && fresh(header) && header.values == map[] && trailer == map[]
      ensures !wroteHeader && !closed && !readerFailed
    {
      this.tokens := tokens;
      var h := new HeaderMap(map[]);
      header := h;
      trailer, wroteHeader, sent, body := map[], false, [], [];
      cancelled, closed, readerFailed, asSent := false, false, false, map[];
    }

    /** Everything that is ever sent fits the flag. */
    ghost predicate Valid()
      reads this
    {
      && (!wroteHeader ==> sent == [] && body == [] && !cancelled)
      && (wroteHeader ==> |sent| == if cancelled then 0 else 1)
      && (forall i :: 0 <= i < |sent| ==> sent[i].header == header)
      && AllCanonical(trailer)
    }

    /** `taken` says whether the response is received or the request's context ends first. */
    method WriteHeader(status: int, taken: bool)
      requires Valid()
      modifies this
      ensures Valid() && wroteHeader && body == old(body) && closed == old(closed) && readerFailed == old(readerFailed)
      ensures old(wroteHeader) ==>
        && header == old(header) && trailer == old(trailer) && sent == old(sent) && cancelled == old(cancelled)
        && asSent == old(asSent)
      ensures !old(wroteHeader) ==>
        && cancelled == !taken && fresh(header) && asSent == header.values
        && sent == (if taken then [Response(status, header)] else [])
        && DeclaredBy(trailer, Values(old(header.values), "Trailer"), tokens)
        && FilteredFrom(old(header.values), header.values)
    {
      if wroteHeader {
        return;
      }
      wroteHeader := true;
      trailer := Declare(Values(header.values, "Trailer"));
      var filtered := AddEach(map[], header.values, HeaderName);
      header := new HeaderMap(filtered);
      asSent := filtered;
      if taken {
        sent := [Response(status, header)];
      } else {
        cancelled := true;
        sent := [];
      }
    }

    /** The first loops of `WriteHeader`: an empty trailer for every declared name. */
    method Declare(lines: seq<string>) returns (t: Header)
      ensures DeclaredBy(t, lines, tokens) && AllCanonical(t)
    {
      t := map[];
      for i := 0 to |lines|
        invariant DeclaredBy(t, lines[..i], tokens) && AllCanonical(t)
      {
        var names := tokens(lines[i]);
        ghost var before := t;
        for j := 0 to |names|
          invariant forall c :: c in t <==> c in before || exists m :: 0 <= m < j && Declares(names[m], c)
          invariant forall c :: c in t ==> t[c] == []
          invariant AllCanonical(t)
        {
          var k := names[j];
          CanonicalIsIdempotent(k);
          if k != "" && k !in HOP_HEADERS {
            t := t[Canonical(k) := []];
          }
        }
        assert lines[..i + 1] == lines[..i] + [lines[i]];
        DeclareLine(before, t, lines, i, tokens);
      }
      assert lines[..|lines|] == lines;
    }

    /** The first loop of `Close`. */
    static method CopyDeclared(declared: Header, h: Header) returns (t: Header)
      requires AllCanonical(declared)
      ensures Copied(declared, t, h)
    {
      t := declared;
      var keys := declared.Keys;
      while keys != {}
        invariant keys <= declared.Keys && t.Keys == declared.Keys
        invariant forall c :: c in declared ==> t[c] == declared[c] + (if c in keys then [] else Values(h, c))
      {
        var k :| k in keys;
        t := AddValues(t, Canonical(k), Values(h, Canonical(k)));
        keys := keys - {k};
      }
    }

    /** The bytes reach the body exactly if both ends of it are open. */
    method Write(bs: Bytes, taken: bool) returns (ok: bool)
      requires Valid()
      modifies this
      ensures Valid() && wroteHeader && closed == old(closed) && readerFailed == old(readerFailed)
      ensures ok <==> !cancelled && !closed && !readerFailed
      ensures body == if ok then old(body) + bs else old(body)
      ensures old(wroteHeader) ==>
        && header == old(header) && trailer == old(trailer) && sent == old(sent) && cancelled == old(cancelled)
        && asSent == old(asSent)
      ensures !old(wroteHeader) ==>
        && cancelled == !taken && (taken ==> sent == [Response(200, header)])
        && fresh(header) && asSent == header.values
        && DeclaredBy(trailer, Values(old(header.values), "Trailer"), tokens)
        && FilteredFrom(old(header.values), header.values)
    {
      if !wroteHeader {
        WriteHeader(200, taken);
      }
      ok := !cancelled && !closed && !readerFailed;
      if ok {
        body := body + bs;
      }
    }

    /** What the goroutine that forwards the response does when it cannot go on. */
    method CloseWithError()
      requires Valid()
      modifies `readerFailed
      ensures Valid() && readerFailed
    {
      readerFailed := true;
    }

    /** Each trailer gets the values of the header of its name if it was declared, and then the values of
        the header of its prefixed name. */
    method Close(taken: bool)
      requires Valid()
      modifies this
      ensures Valid() && wroteHeader && closed && body == old(body) && readerFailed == old(readerFailed)
      ensures old(wroteHeader) ==>
        && header == old(header) && sent == old(sent) && cancelled == old(cancelled) && asSent == old(asSent)
        && Closes(old(trailer), trailer, header.values)
      ensures !old(wroteHeader) ==>
        && cancelled == !taken && (taken ==> sent == [Response(200, header)])
        && fresh(header) && asSent == header.values
        && FilteredFrom(old(header.values), header.values)
        && exists declared ::
             && DeclaredBy(declared, Values(old(header.values), "Trailer"), tokens)
             && Closes(declared, trailer, header.values)
    {
      if !wroteHeader {
        WriteHeader(200, taken);
      }
      ghost var declared := trailer;
      trailer := CopyDeclared(trailer, header.values);
      var t := AddEach(trailer, header.values, PrefixedName);
      assert Copied(declared, trailer, header.values);
      TrailersStayCanonical(trailer, t, header.values);
      trailer := t;
      closed := true;
    }
  }

  lemma TrailersStayCanonical(before: Header, after: Header, h: Header)
    requires AllCanonical(before)
    requires exists order :: Enumerates(order, h) && Added(before, after, h, order, PrefixedName)
    ensures AllCanonical(after)
  {
    var order :| Enumerates(order, h) && Added(before, after, h, order, PrefixedName);
    forall c | c in after ensures Canonical(c) == c {
      GatheredSomething(h, order, PrefixedName, c);
      assert AddedUnder(before, after, c, Gathered(h, order, PrefixedName, c));
      if c !in before {
        var k :| k in order && h[k] != [] && PrefixedName(k) == Some(c);
        CanonicalIsIdempotent(k[|TRAILER_PREFIX|..]);
      }
    }
  }

  lemma DeclareLine(before: Header, t: Header, lines: seq<string>, i: nat, tokens: string -> seq<string>)
    requires i < |lines| && DeclaredBy(before, lines[..i], tokens)
    requires forall c :: c in t <==>
      c in before || exists m :: 0 <= m < |tokens(lines[i])| && Declares(tokens(lines[i])[m], c)
    requires forall c :: c in t ==> t[c] == []
    ensures DeclaredBy(t, lines[..i + 1], tokens)
  {
    assert lines[..i + 1] == lines[..i] + [lines[i]];
    forall c ensures c in t <==> IsDeclared(c, lines[..i + 1], tokens) {
      if c in before {
        assert IsDeclared(c, lines[..i], tokens);
      } else if c in t {
        var m :| 0 <= m < |tokens(lines[i])| && Declares(tokens(lines[i])[m], c);
        assert tokens(lines[i])[m] in tokens(lines[i]);
      }
      if IsDeclared(c, lines[..i + 1], tokens) {
        var line, n :| line in lines[..i + 1] && n in tokens(line) && Declares(n, c);
        if line in lines[..i] {
          assert IsDeclared(c, lines[..i], tokens);
        } else {
          var m :| 0 <= m < |tokens(line)| && tokens(line)[m] == n;
        }
      }
    }
  }

  // ---------------------------------------------------------------- a whole response

  /** One thing that may happen to the writer: a handler edits the header that `Header()` returns, or one
      that it returned at the start and that the handler has kept, sets the status or sends bytes, or the
      reading end of the body fails. Bytes of which only a part was read before that are two sendings with
      the failure in between. */
  datatype Call =
    | EditHeader(header: Header)
    | EditKept(header: Header)
    | SetStatus(status: int)
    | Send(bytes: Bytes)
    | FailReader

  predicate IsEdit(c: Call) { c.EditHeader? || c.EditKept? }

  /** The status that settles the response: the first one set, or 200 at the first bytes or the end. */
  function FirstStatus(calls: seq<Call>): int
  {
    if calls == [] then 200
    else match calls[0]
      case SetStatus(status) => status
      case Send(_) => 200
      case _ => FirstStatus(calls[1..])
  }

  /** The bytes sent before the reader fails. */
  function DeliveredBytes(calls: seq<Call>): Bytes
  {
    if calls == [] then []
    else match calls[0]
      case Send(bytes) => bytes + DeliveredBytes(calls[1..])
      case FailReader => []
      case _ => DeliveredBytes(calls[1..])
  }

  predicate IsSettling(c: Call) { c.SetStatus? || c.Send? }

  predicate Settles(calls: seq<Call>) { exists i :: 0 <= i < |calls| && IsSettling(calls[i]) }

  predicate Fails(calls: seq<Call>) { FailReader in calls }

  lemma SettlesJoin(a: seq<Call>, b: seq<Call>)
    ensures Settles(a + b) <==> Settles(a) || Settles(b)
  {
    if i :| 0 <= i < |a| && IsSettling(a[i]) {
      assert (a + b)[i] == a[i];
    }
    if i :| 0 <= i < |b| && IsSettling(b[i]) {
      assert (a + b)[|a| + i] == b[i];
    }
  }

  /** How one more call changes the body. */
  lemma {:induction false} OneMoreSending(calls: seq<Call>, c: Call)
    ensures DeliveredBytes(calls + [c]) == DeliveredBytes(calls) + (if c.Send? && !Fails(calls) then c.bytes else [])
  {
    var longer := calls + [c];
    if calls == [] {
      assert longer == [c] && [c][1..] == [];
    } else {
      OneMoreSending(calls[1..], c);
      assert longer[0] == calls[0] && longer[1..] == calls[1..] + [c];
      assert calls == [calls[0]] + calls[1..];
    }
  }

  /** How one more call changes whether the response is settled, and its status. */
  lemma {:induction false} OneMoreCall(calls: seq<Call>, c: Call)
    ensures Settles(calls + [c]) <==> Settles(calls) || IsSettling(c)
    ensures FirstStatus(calls + [c]) == if Settles(calls) then FirstStatus(calls) else FirstStatus([c])
  {
    var longer := calls + [c];
    SettlesJoin(calls, [c]);
    assert [c][0] == c;
    if calls == [] {
      assert longer == [c];
    } else {
      OneMoreCall(calls[1..], c);
      assert longer[0] == calls[0] && longer[1..] == calls[1..] + [c];
      SettlesJoin(calls[..1], calls[1..]);
      assert calls == calls[..1] + calls[1..] && calls[..1][0] == calls[0];
    }
  }

  /** The header as it stands when the response is settled; until then there is only one map to edit. */
  function SettledHeader(start: Header, calls: seq<Call>): Header
  {
    if calls == [] then start
    else
      var front, last := calls[..|calls| - 1], calls[|calls| - 1];
      if IsEdit(last) && !Settles(front) then last.header else SettledHeader(start, front)
  }

  /** The last edit of the new map after the response was settled; edits of the old one reach nothing. */
  function LaterEdit(calls: seq<Call>): Option<Header>
  {
    if calls == [] then None
    else
      var front, last := calls[..|calls| - 1], calls[|calls| - 1];
      if last.EditHeader? && Settles(front) then Some(last.header) else LaterEdit(front)
  }

  lemma EditOnce(start: Header, calls: seq<Call>, c: Call)
    ensures SettledHeader(start, calls + [c]) ==
      if IsEdit(c) && !Settles(calls) then c.header else SettledHeader(start, calls)
    ensures LaterEdit(calls + [c]) == if c.EditHeader? && Settles(calls) then Some(c.header) else LaterEdit(calls)
  {
    assert (calls + [c])[..|calls + [c]| - 1] == calls;
  }

  /** What the writer has sent once the response is settled and not cancelled: the header of that moment.
      But the response shares its header with the writer, so what it holds by now is the last edit. */
  ghost predicate SentFor(w: StreamingResponseWriter, start: Header, calls: seq<Call>)
    reads w, w.header
  {
    && |w.sent| == 1 && w.sent[0].status == FirstStatus(calls) && w.sent[0].header == w.header
    && FilteredFrom(SettledHeader(start, calls), w.asSent)
    && w.header.values == (if LaterEdit(calls).Some? then LaterEdit(calls).value else w.asSent)
  }

  /** Where the writer is after `calls`, if the response is taken or not. `kept` is the map that it had at
      the start. */
  ghost predicate After(w: StreamingResponseWriter, kept: HeaderMap, start: Header, calls: seq<Call>, taken: bool)
    reads w, w.header
  {
    && (w.wroteHeader <==> w.header != kept)
    && w.Valid() && !w.closed && (w.wroteHeader <==> Settles(calls)) && (w.readerFailed <==> Fails(calls))
    && (w.wroteHeader ==> w.cancelled == !taken)
    && (!w.wroteHeader ==> w.header.values == SettledHeader(start, calls) && LaterEdit(calls) == None)
    && (w.wroteHeader && taken ==> SentFor(w, start, calls))
    && (w.wroteHeader ==> DeclaredBy(w.trailer, Values(SettledHeader(start, calls), "Trailer"), w.tokens))
    && (taken ==> w.body == DeliveredBytes(calls))
  }

  method Perform(w: StreamingResponseWriter, kept: HeaderMap, c: Call, taken: bool, ghost start: Header,
                 ghost calls: seq<Call>)
    requires After(w, kept, start, calls, taken)
    modifies w, w.header, kept
    ensures w.header == old(w.header) || fresh(w.header)
    ensures After(w, kept, start, calls + [c], taken)
  {
    OneMoreCall(calls, c);
    OneMoreSending(calls, c);
    EditOnce(start, calls, c);
    assert FirstStatus([c]) == if c.SetStatus? then c.status else 200;
    match c {
      case EditHeader(h) => w.header.values := h;
      case EditKept(h) => kept.values := h;
      case SetStatus(status) => w.WriteHeader(status, taken);
      case Send(bytes) => var ok := w.Write(bytes, taken);
      case FailReader => w.CloseWithError();
    }
  }

  /** What `forwardRequest` does with the writer: the handler's calls, then `Close`. For every sequence of
      calls at most one response is sent, with the first status and the header of that moment, its body
      is what was written before the reader failed, and its trailers come from the header of that moment
      and the last one. */
  method ServeAndClose(w: StreamingResponseWriter, calls: seq<Call>, taken: bool)
    requires w.Valid() && !w.wroteHeader && !w.closed && !w.readerFailed
    modifies w, w.header
    ensures w.Valid() && w.closed
    ensures !taken ==> w.sent == []
    ensures taken ==> SentFor(w, old(w.header.values), calls) && w.body == DeliveredBytes(calls)
    ensures taken ==> exists declared ::
      && DeclaredBy(declared, Values(SettledHeader(old(w.header.values), calls), "Trailer"), w.tokens)
      && Closes(declared, w.trailer, w.header.values)
  {
    var kept := w.header;
    ghost var start := w.header.values;
    for i := 0 to |calls|
      invariant w.header == old(w.header) || fresh(w.header)
      invariant After(w, kept, start, calls[..i], taken)
    {
      assert calls[..i + 1] == calls[..i] + [calls[i]];
      Perform(w, kept, calls[i], taken, start, calls[..i]);
    }
    assert calls[..|calls|] == calls;
    if !w.wroteHeader {
      UnsettledIs200(calls);
    }
    w.Close(taken);
  }

  lemma {:induction false} UnsettledIs200(calls: seq<Call>)
    requires !Settles(calls)
    ensures FirstStatus(calls) == 200
  {
    if calls != [] {
      SettlesJoin(calls[..1], calls[1..]);
      assert calls == calls[..1] + calls[1..];
      assert !IsSettling(calls[0]);
      UnsettledIs200(calls[1..]);
    }
  }

  /** As long as the reader does not fail, all that was written is in the body. */
  lemma {:induction false} DeliveredIsAll(calls: seq<Call>)
    requires !Fails(calls)
    ensures DeliveredBytes(calls) == Flatten(Sendings(calls))
  {
    if calls != [] {
      assert FailReader !in calls[1..];
      DeliveredIsAll(calls[1..]);
      assert calls[0] in calls;
      assert Sendings(calls) ==
        if calls[0].Send? then [calls[0].bytes] + Sendings(calls[1..]) else Sendings(calls[1..]);
    }
  }

  function Sendings(calls: seq<Call>): seq<Bytes>
  {
    if calls == [] then []
    else (if calls[0].Send? then [calls[0].bytes] else []) + Sendings(calls[1..])
  }

  /** A response whose header changes after it was sent, which the copying of values in `WriteHeader` is
      there to prevent. */
  method SentHeaderIsShared() returns (w: StreamingResponseWriter)
    ensures |w.sent| == 1 && w.asSent == map[] && w.sent[0].header.values == map["A" := ["x"]]
  {
    w := new StreamingResponseWriter(line => [line]);
    var edit := EditHeader(map["A" := ["x"]]);
    var calls := [SetStatus(200), edit];
    ServeAndClose(w, calls, true);
    ghost var start: Header := map[];
    EditOnce(start, [], SetStatus(200));
    EditOnce(start, [SetStatus(200)], edit);
    assert [] + [SetStatus(200)] == [SetStatus(200)] && [SetStatus(200)] + [edit] == calls;
    assert IsSettling([SetStatus(200)][0]);
    assert FilteredFrom(map[], w.asSent);
    CanonicalHeaderIsKept(map[], w.asSent);
  }

  // ---------------------------------------------------------------- what is sent

  /** The sent header holds a hop-by-hop name exactly if some raw name was a hop-by-hop name in a form
      that is not canonical. */
  lemma HeaderIsHopFreeExactlyWhenUndisguised(h: Header, after: Header)
    requires FilteredFrom(h, after)
    ensures (forall c :: c in after ==> c !in HOP_HEADERS) <==> (forall k :: k in h && h[k] != [] ==> !Disguised(k))
  {
    var order :| Enumerates(order, h) && Added(map[], after, h, order, HeaderName);
    forall c ensures c in after <==> exists k :: k in order && h[k] != [] && HeaderName(k) == Some(c) {
      GatheredSomething(h, order, HeaderName, c);
    }
    if k :| k in h && h[k] != [] && Disguised(k) {
      assert HeaderName(k) == Some(Canonical(k)) && k in order;
      assert Canonical(k) in after;
    }
  }

  /** With canonical names the sent header is the written one, less the hop-by-hop names, whatever order
      Go ranges in. */
  lemma CanonicalHeaderIsKept(h: Header, after: Header)
    requires FilteredFrom(h, after) && forall k :: k in h ==> Canonical(k) == k
    ensures after == map k | k in h && k !in HOP_HEADERS && h[k] != [] :: h[k]
  {
    var order :| Enumerates(order, h) && Added(map[], after, h, order, HeaderName);
    forall c
      ensures c in after <==> c in h && c !in HOP_HEADERS && h[c] != []
      ensures c in after ==> after[c] == h[c]
    {
      CanonicalNameIsKept(h, after, order, c);
    }
  }

  lemma CanonicalNameIsKept(h: Header, after: Header, order: seq<string>, c: string)
    requires Enumerates(order, h) && Added(map[], after, h, order, HeaderName)
    requires forall k :: k in h ==> Canonical(k) == k
    ensures c in after <==> c in h && c !in HOP_HEADERS && h[c] != []
    ensures c in after ==> after[c] == h[c]
  {
    GatheredSomething(h, order, HeaderName, c);
    if c in h && c !in HOP_HEADERS {
      GatheredOne(h, order, HeaderName, c, c);
    }
    assert AddedUnder(map[], after, c, Gathered(h, order, HeaderName, c));
  }

  /** The trailers hold a hop-by-hop name exactly if one was declared, or set with the prefix, in a form
      that is not canonical. */
  lemma TrailersAreHopFreeExactlyWhenUndisguised(declared: Header, t: Header, h: Header, lines: seq<string>,
                                                 tokens: string -> seq<string>)
    requires DeclaredBy(declared, lines, tokens) && Closes(declared, t, h)
    ensures (forall c :: c in t ==> c !in HOP_HEADERS) <==>
      && (forall line, n :: line in lines && n in tokens(line) && n != "" ==> !Disguised(n))
      && (forall k :: k in h && TRAILER_PREFIX <= k && h[k] != [] ==> !Disguised(k[|TRAILER_PREFIX|..]))
  {
    var copied, order :| Enumerates(order, h) && Copied(declared, copied, h)
      && Added(copied, t, h, order, PrefixedName);
    forall c ensures c in t <==> (IsDeclared(c, lines, tokens) || IsPrefixed(h, c)) {
      GatheredSomething(h, order, PrefixedName, c);
    }
    if line, n :| line in lines && n in tokens(line) && n != "" && Disguised(n) {
      assert Declares(n, Canonical(n));
      assert IsDeclared(Canonical(n), lines, tokens);
      assert Canonical(n) in t;
    } else if k :| k in h && TRAILER_PREFIX <= k && h[k] != [] && Disguised(k[|TRAILER_PREFIX|..]) {
      var n := k[|TRAILER_PREFIX|..];
      assert PrefixedName(k) == Some(Canonical(n)) && k in order;
      assert IsPrefixed(h, Canonical(n));
    } else {
      forall c | c in t ensures c !in HOP_HEADERS {
        if IsDeclared(c, lines, tokens) {
          var line, n :| line in lines && n in tokens(line) && Declares(n, c);
          assert !Disguised(n);
        } else {
          var k :| k in h && h[k] != [] && PrefixedName(k) == Some(c);
          assert !Disguised(k[|TRAILER_PREFIX|..]);
        }
      }
    }
  }

  /** With canonical names, each trailer is the values of the header it was declared for, followed by the
      values set under its prefixed name. */
  lemma TrailerIsDeclaredThenPrefixed(declared: Header, t: Header, h: Header, lines: seq<string>,
                                      tokens: string -> seq<string>, c: string)
    requires DeclaredBy(declared, lines, tokens) && Closes(declared, t, h)
    requires forall k :: k in h && TRAILER_PREFIX <= k ==> Canonical(k[|TRAILER_PREFIX|..]) == k[|TRAILER_PREFIX|..]
    requires c !in HOP_HEADERS && Canonical(c) == c
    ensures Values(t, c) == (if IsDeclared(c, lines, tokens) then Values(h, c) else []) + Values(h, "Trailer:" + c)
  {
    var copied, order :| Enumerates(order, h) && Copied(declared, copied, h)
      && Added(copied, t, h, order, PrefixedName);
    PrefixedValues(h, order, c);
    assert AddedUnder(copied, t, c, Gathered(h, order, PrefixedName, c));
    assert Values(copied, c) == if IsDeclared(c, lines, tokens) then Values(h, c) else [];
  }

  lemma PrefixedValues(h: Header, order: seq<string>, c: string)
    requires Enumerates(order, h) && c !in HOP_HEADERS && Canonical(c) == c
    requires forall k :: k in h && TRAILER_PREFIX <= k ==> Canonical(k[|TRAILER_PREFIX|..]) == k[|TRAILER_PREFIX|..]
    ensures Gathered(h, order, PrefixedName, c) == Values(h, TRAILER_PREFIX + c)
  {
    var k := TRAILER_PREFIX + c;
    PrefixedKey(c);
    forall i | 0 <= i < |order| && PrefixedName(order[i]) == Some(c) ensures order[i] == k {
      OnePrefixedKey(order[i], c);
    }
    GatheredOne(h, order, PrefixedName, c, k);
  }

  lemma PrefixedKey(c: string)
    requires c !in HOP_HEADERS && Canonical(c) == c
    ensures PrefixedName(TRAILER_PREFIX + c) == Some(c)
  {
    assert (TRAILER_PREFIX + c)[|TRAILER_PREFIX|..] == c;
  }

  lemma OnePrefixedKey(k: string, c: string)
    requires PrefixedName(k) == Some(c) && Canonical(k[|TRAILER_PREFIX|..]) == k[|TRAILER_PREFIX|..]
    ensures k == TRAILER_PREFIX + c
  {
    assert k == k[..|TRAILER_PREFIX|] + k[|TRAILER_PREFIX|..];
  }

  /** A name that is not canonical does get through. */
  lemma DisguisedNamesExist(after: Header)
    requires FilteredFrom(map["te" := ["x"]], after)
    ensures "Te" in HOP_HEADERS && "Te" in after && after["Te"] == ["x"]
  {
    var h: Header := map["te" := ["x"]];
    var order :| Enumerates(order, h) && Added(map[], after, h, order, HeaderName);
    assert Canonical("te") == "Te";
    GatheredOne(h, order, HeaderName, "Te", "te");
    assert "te" in order;
    assert AddedUnder(map[], after, "Te", Gathered(h, order, HeaderName, "Te"));
  }

  // ---------------------------------------------------------------- names

  /** Letters keep their place in the alphabet, and nothing else changes. */
  lemma CaseIs(c: char)
    ensures 'a' <= c <= 'z' ==> ToUpper(c) as int == c as int - 32 && ToLower(c) == c
    ensures 'A' <= c <= 'Z' ==> ToUpper(c) == c && ToLower(c) as int == c as int + 32
    ensures !('a' <= c <= 'z') && !('A' <= c <= 'Z') ==> ToUpper(c) == c && ToLower(c) == c
  {
  }

  /** In a canonical name the characters at the start and after each hyphen are in upper case, and all others
      in lower case. */
  lemma CanonicalLooksLike(k: string, i: nat)
    requires i < |k| && IsToken(k)
    ensures Canonical(k)[i] == if i == 0 || k[i - 1] == '-' then ToUpper(k[i]) else ToLower(k[i])
  {
    CasedLooksLike(k, i);
    assert Canonical(k) == Cased(k);
  }

  lemma CasedLooksLike(k: string, i: nat)
    requires i < |k|
    ensures Cased(k)[i] == CasedAt(k, i)
  {
  }

  /** A name that is not a token is left as it is. */
  lemma OddNamesAreKept(k: string, i: nat)
    requires i < |k| && !IsTokenChar(k[i])
    ensures Canonical(k) == k
  {
  }

  /** With canonical names, a header is sent exactly if it has values and is none of the nine hop-by-hop
      ones, and then with its values. */
  lemma SentExactlyIfNotHopByHop(h: Header, after: Header, k: string)
    requires FilteredFrom(h, after) && forall x :: x in h ==> Canonical(x) == x
    ensures k in after <==>
      && k in h && h[k] != []
      && k != "Connection" && k != "Proxy-Connection" && k != "Keep-Alive"
      && k != "Proxy-Authenticate" && k != "Proxy-Authorization"
      && k != "Te" && k != "Trailer" && k != "Transfer-Encoding" && k != "Upgrade"
    ensures k in after ==> after[k] == h[k]
  {
    CanonicalHeaderIsKept(h, after);
  }
}
