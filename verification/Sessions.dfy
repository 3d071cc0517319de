/** Session tracking (agent/sessions/sessions.go): the cookies of a backend are kept in one jar per
    session, and the client holds only a session cookie. */
module Sessions {
  import opened Basics

  /** The empty ID stands for a request without a session. */
  type SessionId = string
  type JarId = nat
  type ExchangeId = nat

  datatype Cookie = Cookie(name: string, value: string)

  // ---------------------------------------------------------------- one response

  /** `sessionResponseWriter`, as far as its headers go. `parse` is the library's reading of one
      Set-Cookie line, and `render` its writing of the session cookie. */
  class SessionResponseWriter {
    const parse: string -> Option<Cookie>
    const render: SessionId -> string
    var sessionId: SessionId
    var wroteHeader: bool
    var setCookie: seq<string>
    var statuses: seq<int>

    constructor (parse: string -> Option<Cookie>, render: SessionId -> string, sessionId: SessionId)
      ensures this.parse == parse && this.render == render && this.sessionId == sessionId
      ensures !wroteHeader && setCookie == [] && statuses == []
    {
      this.parse, this.render, this.sessionId := parse, render, sessionId;
      wroteHeader, setCookie, statuses := false, [], [];
    }

    static function Parsed(parse: string -> Option<Cookie>, lines: seq<string>): seq<Cookie>
    {
      if lines == [] then []
      else
        var last := parse(lines[|lines| - 1]);
        Parsed(parse, lines[..|lines| - 1]) + (if last.Some? then [last.value] else [])
    }

    /** The first call takes every cookie of the backend out of the response and leaves at most the
        session cookie, which is there exactly if the request had no session; later calls do nothing. */
    method WriteHeader(status: int, newId: SessionId) returns (cookiesToAdd: seq<Cookie>)
      modifies this
      ensures wroteHeader
      ensures old(wroteHeader) ==>
        && cookiesToAdd == [] && setCookie == old(setCookie) && sessionId == old(sessionId)
        && statuses == old(statuses)
      ensures !old(wroteHeader) ==>
        && cookiesToAdd == Parsed(parse, old(setCookie))
        && setCookie == (if old(sessionId) == "" then [render(newId)] else [])
        && sessionId == (if old(sessionId) == "" then newId else old(sessionId))
        && statuses == old(statuses) + [status]
    {
      if wroteHeader {
        return [];
      }
      wroteHeader := true;
      cookiesToAdd := [];
      for i := 0 to |setCookie|
        invariant cookiesToAdd == Parsed(parse, setCookie[..i])
        invariant setCookie == old(setCookie) && sessionId == old(sessionId) && statuses == old(statuses) && wroteHeader
      {
        assert setCookie[..i + 1][..i] == setCookie[..i];
        var c := parse(setCookie[i]);
        if c.Some? {
          cookiesToAdd := cookiesToAdd + [c.value];
        }
      }
      assert setCookie[..|setCookie|] == setCookie;
      setCookie := [];
      if sessionId == "" {
        sessionId := newId;
        setCookie := setCookie + [render(sessionId)];
      }
      statuses := statuses + [status];
    }
  }

  function Unsessioned(cookies: seq<Cookie>, sessionCookieName: string): seq<Cookie>
  {
    if cookies == [] then []
    else
      var last := cookies[|cookies| - 1];
      Unsessioned(cookies[..|cookies| - 1], sessionCookieName) + (if last.name != sessionCookieName then [last] else [])
  }

  /** `restoreSession`: the request loses its session cookie and gains those of the jar. */
  method RestoreSession(existing: seq<Cookie>, cached: seq<Cookie>, sessionCookieName: string) returns (r: seq<Cookie>)
    ensures r == Unsessioned(existing, sessionCookieName) + cached
    ensures forall c :: c in r <==> (c in existing && c.name != sessionCookieName) || c in cached
  {
    r := [];
    for i := 0 to |existing|
      invariant r == Unsessioned(existing[..i], sessionCookieName)
      invariant forall c :: c in r <==> c in existing[..i] && c.name != sessionCookieName
    {
      assert existing[..i + 1] == existing[..i] + [existing[i]];
      if existing[i].name != sessionCookieName {
        r := r + [existing[i]];
      }
    }
    assert existing[..|existing|] == existing;
    ghost var kept := r;
    for i := 0 to |cached|
      invariant r == kept + cached[..i]
    {
      r := r + [cached[i]];
    }
    assert cached[..|cached|] == cached;
  }

  // ---------------------------------------------------------------- every run

  /** A jar keeps the ID it was made for as its history. */
  datatype Jar = Jar(session: SessionId, cookies: set<Cookie>)

  /** Where a call of `cachedCookieJar` is: not made, a new jar not yet in the cache, or done. */
  datatype Search = NotBegun | Unshared(jar: JarId) | Holds(jar: JarId)

  /** One request and its response. `written` is the session that the first header write settled on. */
  datatype Exchange = Exchange(
    session: SessionId,
    request: Search,
    restored: Option<set<Cookie>>,
    written: Option<SessionId>,
    toAdd: set<Cookie>,
    response: Search)

  /** `source` set `cookie` in the session `session`. */
  datatype Setting = Setting(session: SessionId, cookie: Cookie, source: ExchangeId)

  datatype State = State(
    jars: map<JarId, Jar>,
    cache: map<SessionId, JarId>,
    exchanges: map<ExchangeId, Exchange>,
    known: set<SessionId>,
    settings: set<Setting>)

  const Init := State(map[], map[], map[], {""}, {})

  /** Looking a jar up and adding a new one are separate steps; entries leave the cache at any time. */
  datatype Step =
    | Begin(x: ExchangeId, session: SessionId)
    | FindForRequest(x: ExchangeId, newJar: JarId)
    | AddForRequest(x: ExchangeId)
    | Restore(x: ExchangeId, chosen: set<Cookie>)
    | WriteHeader(x: ExchangeId, newId: SessionId, cookies: set<Cookie>)
    | FindForResponse(x: ExchangeId, newJar: JarId)
    | AddForResponse(x: ExchangeId)
    | SetCookies(x: ExchangeId, kept: set<Cookie>)
    | Evict(session: SessionId)

  predicate Enabled(s: State, a: Step) {
    match a
    case Begin(x, _) => x !in s.exchanges
    case FindForRequest(x, j) => x in s.exchanges && s.exchanges[x].request.NotBegun? && j !in s.jars
    case AddForRequest(x) => x in s.exchanges && s.exchanges[x].request.Unshared?
    case Restore(x, chosen) =>
      && x in s.exchanges && s.exchanges[x].request.Holds? && s.exchanges[x].restored == None
      && s.exchanges[x].request.jar in s.jars && chosen <= s.jars[s.exchanges[x].request.jar].cookies
    case WriteHeader(x, newId, _) =>
      x in s.exchanges && s.exchanges[x].restored.Some? && s.exchanges[x].written == None && newId !in s.known
    case FindForResponse(x, j) =>
      x in s.exchanges && s.exchanges[x].written.Some? && s.exchanges[x].response.NotBegun? && j !in s.jars
    case AddForResponse(x) => x in s.exchanges && s.exchanges[x].response.Unshared? && s.exchanges[x].written.Some?
    case SetCookies(x, kept) =>
      && x in s.exchanges && s.exchanges[x].response.Holds? && s.exchanges[x].written.Some?
      && s.exchanges[x].response.jar in s.jars
      && kept <= s.jars[s.exchanges[x].response.jar].cookies + s.exchanges[x].toAdd
    case Evict(_) => true
  }

  /** `cachedCookieJar` up to the point where a new jar exists. */
  function Find(s: State, id: SessionId, newJar: JarId): (State, Search) {
    if id in s.cache then (s, Holds(s.cache[id]))
    else (s.(jars := s.jars[newJar := Jar(id, {})]), Unshared(newJar))
  }

  function Update(s: State, x: ExchangeId, e: Exchange): State { s.(exchanges := s.exchanges[x := e]) }

  function Next(s: State, a: Step): State
    requires Enabled(s, a)
  {
    match a
    case Begin(x, session) =>
      Update(s, x, Exchange(session, NotBegun, None, None, {}, NotBegun)).(known := s.known + {session})
    case FindForRequest(x, j) =>
      var (t, found) := Find(s, s.exchanges[x].session, j);
      Update(t, x, s.exchanges[x].(request := found))
    case AddForRequest(x) =>
      var e := s.exchanges[x];
      Update(s, x, e.(request := Holds(e.request.jar))).(cache := s.cache[e.session := e.request.jar])
    case Restore(x, chosen) => Update(s, x, s.exchanges[x].(restored := Some(chosen)))
    case WriteHeader(x, newId, cookies) =>
      var e := s.exchanges[x];
      var id := if e.session == "" then newId else e.session;
      Update(s, x, e.(written := Some(id), toAdd := cookies)).(known := s.known + {id})
    case FindForResponse(x, j) =>
      var (t, found) := Find(s, s.exchanges[x].written.value, j);
      Update(t, x, s.exchanges[x].(response := found))
    case AddForResponse(x) =>
      var e := s.exchanges[x];
      Update(s, x, e.(response := Holds(e.response.jar))).(cache := s.cache[e.written.value := e.response.jar])
    case SetCookies(x, kept) =>
      var e := s.exchanges[x];
      s.(jars := s.jars[e.response.jar := s.jars[e.response.jar].(cookies := kept)],
         settings := s.settings + set c | c in e.toAdd :: Setting(e.written.value, c, x))
    case Evict(session) => s.(cache := s.cache - {session})
  }

  predicate Legal(s: State, run: seq<Step>)
    decreases |run|
  {
    run == [] || (Enabled(s, run[0]) && Legal(Next(s, run[0]), run[1..]))
  }

  function Final(s: State, run: seq<Step>): State
    requires Legal(s, run)
    decreases |run|
  {
    if run == [] then s else Final(Next(s, run[0]), run[1..])
  }

  // ---------------------------------------------------------------- the invariant

  /** Some response of the session set the cookie. */
  ghost predicate WasSet(s: State, session: SessionId, c: Cookie) {
    exists x :: Setting(session, c, x) in s.settings
  }

  predicate Finds(jars: map<JarId, Jar>, search: Search, id: SessionId) {
    match search
    case NotBegun => true
    case Unshared(j) => j in jars && jars[j].session == id
    case Holds(j) => j in jars && jars[j].session == id
  }

  ghost predicate JarInv(s: State) {
    && (forall j, c :: j in s.jars && c in s.jars[j].cookies ==> WasSet(s, s.jars[j].session, c))
    && (forall w :: w in s.settings ==> w.session != "")
    && (forall w :: w in s.settings ==> w.source in s.exchanges && s.exchanges[w.source].written == Some(w.session)
                                        && w.cookie in s.exchanges[w.source].toAdd)
    && (forall id :: id in s.cache ==> s.cache[id] in s.jars && s.jars[s.cache[id]].session == id)
  }

  predicate HoldsOwnJars(jars: map<JarId, Jar>, e: Exchange) {
    && Finds(jars, e.request, e.session)
    && (e.written.Some? ==> e.written.value != "" && Finds(jars, e.response, e.written.value))
    && (e.written == None ==> e.response.NotBegun?)
    && (e.written.Some? && e.session != "" ==> e.written.value == e.session)
  }

  ghost predicate RestoredInv(s: State) {
    forall x, c :: x in s.exchanges && s.exchanges[x].restored.Some? && c in s.exchanges[x].restored.value ==>
      WasSet(s, s.exchanges[x].session, c)
  }

  ghost predicate ExchangeInv(s: State) {
    && (forall x :: x in s.exchanges ==> HoldsOwnJars(s.jars, s.exchanges[x]))
    && RestoredInv(s)
  }

  /** The response opened a session, since the request had none. */
  predicate Opens(e: Exchange) { e.session == "" && e.written.Some? }

  predicate Known(known: set<SessionId>, e: Exchange) {
    e.session in known && (e.written.Some? ==> e.written.value in known)
  }

  /** No two responses open the same session. */
  ghost predicate DistinctInv(s: State) {
    forall x, y :: x in s.exchanges && y in s.exchanges && x != y && Opens(s.exchanges[x]) && Opens(s.exchanges[y]) ==>
      s.exchanges[x].written != s.exchanges[y].written
  }

  /** Sessions are known once they occur. */
  ghost predicate KnownInv(s: State) {
    "" in s.known && forall x :: x in s.exchanges ==> Known(s.known, s.exchanges[x])
  }

  ghost predicate FreshInv(s: State) { KnownInv(s) && DistinctInv(s) }

  lemma StepKeepsJars(s: State, a: Step)
    requires JarInv(s) && ExchangeInv(s) && Enabled(s, a)
    ensures JarInv(Next(s, a))
  {
    var t := Next(s, a);
    assert forall w :: w in s.settings ==> w in t.settings;
    forall j, c | j in t.jars && c in t.jars[j].cookies ensures WasSet(t, t.jars[j].session, c) {
      if j in s.jars && c in s.jars[j].cookies {
        assert WasSet(s, s.jars[j].session, c);
        var x :| Setting(s.jars[j].session, c, x) in s.settings;
        assert Setting(t.jars[j].session, c, x) in t.settings;
      } else {
        assert a.SetCookies?;
        assert Setting(t.jars[j].session, c, a.x) in t.settings;
      }
    }
  }

  lemma StepKeepsExchanges(s: State, a: Step)
    requires JarInv(s) && ExchangeInv(s) && Enabled(s, a) && "" in s.known
    ensures ExchangeInv(Next(s, a))
  {
    StepKeepsHolding(s, a);
    StepKeepsRestored(s, a);
  }

  lemma StepKeepsHolding(s: State, a: Step)
    requires JarInv(s) && Enabled(s, a) && "" in s.known
    requires forall x :: x in s.exchanges ==> HoldsOwnJars(s.jars, s.exchanges[x])
    ensures var t := Next(s, a); forall x :: x in t.exchanges ==> HoldsOwnJars(t.jars, t.exchanges[x])
  {
    var t := Next(s, a);
    assert forall j :: j in s.jars ==> j in t.jars && t.jars[j].session == s.jars[j].session;
  }

  lemma StepKeepsRestored(s: State, a: Step)
    requires JarInv(s) && ExchangeInv(s) && Enabled(s, a)
    ensures RestoredInv(Next(s, a))
  {
    var t := Next(s, a);
    assert forall w :: w in s.settings ==> w in t.settings;
    forall x, c | x in t.exchanges && t.exchanges[x].restored.Some? && c in t.exchanges[x].restored.value
      ensures WasSet(t, t.exchanges[x].session, c)
    {
      var session := t.exchanges[x].session;
      assert WasSet(s, session, c);
      var y :| Setting(session, c, y) in s.settings;
      assert Setting(session, c, y) in t.settings;
    }
  }

  lemma StepKeepsKnown(s: State, a: Step)
    requires KnownInv(s) && Enabled(s, a)
    ensures KnownInv(Next(s, a))
  {
  }

  lemma StepKeepsDistinct(s: State, a: Step)
    requires FreshInv(s) && Enabled(s, a)
    ensures DistinctInv(Next(s, a))
  {
    var t := Next(s, a);
    if a.WriteHeader? {
      assert forall x :: x in s.exchanges ==> s.exchanges[x].written != Some(a.newId) by {
        assert forall x :: x in s.exchanges ==> Known(s.known, s.exchanges[x]);
      }
    } else {
      assert forall x :: x in t.exchanges && t.exchanges[x].written.Some? ==>
        && x in s.exchanges && s.exchanges[x].written == t.exchanges[x].written
        && s.exchanges[x].session == t.exchanges[x].session;
    }
  }

  lemma {:induction false} RunKeepsInv(s: State, run: seq<Step>)
    requires JarInv(s) && ExchangeInv(s) && FreshInv(s) && Legal(s, run)
    ensures
      var t := Final(s, run);
      JarInv(t) && ExchangeInv(t) && FreshInv(t)
    decreases |run|
  {
    if run != [] {
      StepKeepsJars(s, run[0]);
      StepKeepsExchanges(s, run[0]);
      StepKeepsKnown(s, run[0]);
      StepKeepsDistinct(s, run[0]);
      RunKeepsInv(Next(s, run[0]), run[1..]);
    }
  }

  /** Every cookie that is restored into a request was set by a response of the same session; a request
      without a session has none restored; and whatever is evicted or raced, the jars under the empty
      ID are empty. */
  lemma SessionsAreIsolated(run: seq<Step>, x: ExchangeId)
    requires Legal(Init, run) && x in Final(Init, run).exchanges && Final(Init, run).exchanges[x].restored.Some?
    ensures
      var s := Final(Init, run);
      var e := s.exchanges[x];
      && (forall c :: c in e.restored.value ==>
            exists y :: y in s.exchanges && s.exchanges[y].written == Some(e.session) && c in s.exchanges[y].toAdd)
      && (e.session == "" ==> e.restored.value == {})
      && (forall j :: j in s.jars && s.jars[j].session == "" ==> s.jars[j].cookies == {})
  {
    RunKeepsInv(Init, run);
    var s := Final(Init, run);
    var e := s.exchanges[x];
    forall c | c in e.restored.value
      ensures exists y :: y in s.exchanges && s.exchanges[y].written == Some(e.session) && c in s.exchanges[y].toAdd
      ensures e.session != ""
    {
      assert WasSet(s, e.session, c);
      var y :| Setting(e.session, c, y) in s.settings;
    }
    forall j | j in s.jars && s.jars[j].session == "" ensures s.jars[j].cookies == {} {
      assert forall c :: c in s.jars[j].cookies ==> WasSet(s, "", c);
    }
  }

  /** A session that a response opens belongs to that response alone: another one writes under it only
      because its request named it. */
  lemma OpenedSessionsAreDistinct(run: seq<Step>, x: ExchangeId, y: ExchangeId)
    requires Legal(Init, run)
    requires
      var s := Final(Init, run);
      && x in s.exchanges && y in s.exchanges && x != y
      && s.exchanges[x].session == "" && s.exchanges[x].written.Some?
      && s.exchanges[y].written == s.exchanges[x].written
    ensures
      var s := Final(Init, run);
      s.exchanges[y].session == s.exchanges[x].written.value
  {
    RunKeepsInv(Init, run);
  }

  // ---------------------------------------------------------------- a session gets its cookies back

  /** The cache has the jar `j` for the session, and the jar has these cookies. */
  predicate Keeps(s: State, session: SessionId, j: JarId, cookies: set<Cookie>) {
    session in s.cache && s.cache[session] == j && j in s.jars && s.jars[j] == Jar(session, cookies)
  }

  /** The step neither evicts the session, nor adds a jar for it, nor sets cookies in it. */
  predicate Spares(s: State, a: Step, session: SessionId) {
    match a
    case Evict(x) => x != session
    case AddForRequest(x) => x in s.exchanges && s.exchanges[x].session != session
    case AddForResponse(x) => x in s.exchanges && s.exchanges[x].written != Some(session)
    case SetCookies(x, _) => x in s.exchanges && s.exchanges[x].written != Some(session)
    case _ => true
  }

  lemma StepKeepsJar(s: State, a: Step, session: SessionId, j: JarId, cookies: set<Cookie>)
    requires ExchangeInv(s) && Enabled(s, a) && Keeps(s, session, j, cookies) && Spares(s, a, session)
    ensures Keeps(Next(s, a), session, j, cookies)
  {
    if a.SetCookies? {
      assert HoldsOwnJars(s.jars, s.exchanges[a.x]);
    }
  }

  predicate AllSpare(s: State, run: seq<Step>, session: SessionId)
    requires Legal(s, run)
    decreases |run|
  {
    run == [] || (Spares(s, run[0], session) && AllSpare(Next(s, run[0]), run[1..], session))
  }

  lemma {:induction false} RunKeepsJar(s: State, run: seq<Step>, session: SessionId, j: JarId, cookies: set<Cookie>)
    requires JarInv(s) && ExchangeInv(s) && FreshInv(s) && Legal(s, run) && Keeps(s, session, j, cookies)
    requires AllSpare(s, run, session)
    ensures Keeps(Final(s, run), session, j, cookies)
    decreases |run|
  {
    if run != [] {
      StepKeepsJar(s, run[0], session, j, cookies);
      StepKeepsJars(s, run[0]);
      StepKeepsExchanges(s, run[0]);
      StepKeepsKnown(s, run[0]);
      StepKeepsDistinct(s, run[0]);
      RunKeepsJar(Next(s, run[0]), run[1..], session, j, cookies);
    }
  }

  /** A new request of a session whose jar is in the cache is given the cookies of that jar. */
  lemma JarIsRestored(s: State, session: SessionId, j: JarId, cookies: set<Cookie>, y: ExchangeId, newJar: JarId)
    requires Keeps(s, session, j, cookies) && y !in s.exchanges && newJar !in s.jars
    ensures
      var run := [Begin(y, session), FindForRequest(y, newJar), Restore(y, cookies)];
      Legal(s, run) && y in Final(s, run).exchanges && Final(s, run).exchanges[y].restored == Some(cookies)
  {
    var a, b, c := Begin(y, session), FindForRequest(y, newJar), Restore(y, cookies);
    var run := [a, b, c];
    var s1 := Next(s, a);
    assert s1.cache == s.cache && s1.jars == s.jars && s1.exchanges[y].session == session;
    var s2 := Next(s1, b);
    assert s2.exchanges[y].request == Holds(j) && s2.jars == s.jars;
    var s3 := Next(s2, c);
    assert run[1..] == [b, c] && [b, c][1..] == [c] && [c][1..] == [];
    assert Legal(s3, []) && Final(s3, []) == s3;
    assert Legal(s2, [c]) && Final(s2, [c]) == s3;
    assert Legal(s1, [b, c]) && Final(s1, [b, c]) == s3;
  }

  /** In every run: the cookies that a response of a session leaves in its cached jar are restored, all of
      them, into a later request of the session, whatever happens in between that spares the session. */
  lemma CookiesComeBack(run: seq<Step>, x: ExchangeId, kept: set<Cookie>, more: seq<Step>, y: ExchangeId, newJar: JarId)
    requires Legal(Init, run) && Enabled(Final(Init, run), SetCookies(x, kept))
    requires
      var e := Final(Init, run).exchanges[x];
      e.written.value in Final(Init, run).cache && Final(Init, run).cache[e.written.value] == e.response.jar
    requires
      var s := Final(Init, run);
      var s1 := Next(s, SetCookies(x, kept));
      && Legal(s1, more) && AllSpare(s1, more, s.exchanges[x].written.value)
      && y !in Final(s1, more).exchanges && newJar !in Final(s1, more).jars
    ensures
      var s := Final(Init, run);
      var t := Final(Next(s, SetCookies(x, kept)), more);
      var last := [Begin(y, s.exchanges[x].written.value), FindForRequest(y, newJar), Restore(y, kept)];
      Legal(t, last) && y in Final(t, last).exchanges && Final(t, last).exchanges[y].restored == Some(kept)
  {
    RunKeepsInv(Init, run);
    var s := Final(Init, run);
    var a := SetCookies(x, kept);
    var session, j := s.exchanges[x].written.value, s.exchanges[x].response.jar;
    assert HoldsOwnJars(s.jars, s.exchanges[x]);
    var s1 := Next(s, a);
    assert Keeps(s1, session, j, kept);
    StepKeepsJars(s, a);
    StepKeepsExchanges(s, a);
    StepKeepsKnown(s, a);
    StepKeepsDistinct(s, a);
    RunKeepsJar(s1, more, session, j, kept);
    JarIsRestored(Final(s1, more), session, j, kept, y, newJar);
  }

  /** A response of a new session can put its jar into the cache and keep all its cookies there. */
  lemma NewSessionIsCached(s: State, x: ExchangeId, session: SessionId, newJar: JarId, kept: set<Cookie>)
    requires x in s.exchanges && s.exchanges[x].written == Some(session) && s.exchanges[x].response.NotBegun?
    requires session !in s.cache && newJar !in s.jars && kept <= s.exchanges[x].toAdd
    ensures
      var s1 := Next(s, FindForResponse(x, newJar));
      && Enabled(s1, AddForResponse(x)) && Enabled(Next(s1, AddForResponse(x)), SetCookies(x, kept))
      && Keeps(Next(Next(s1, AddForResponse(x)), SetCookies(x, kept)), session, newJar, kept)
  {
    var s1 := Next(s, FindForResponse(x, newJar));
    assert s1.exchanges[x].response == Unshared(newJar) && s1.jars[newJar] == Jar(session, {});
    var s2 := Next(s1, AddForResponse(x));
    assert s2.exchanges[x].response == Holds(newJar) && s2.cache[session] == newJar && s2.jars == s1.jars;
  }

  // ---------------------------------------------------------------- exchanges and the steps that made them

  /** What the run itself says about an exchange: the session that its request named, and the cookies that
      its response set under the session that it was given. */
  ghost predicate ExchangesRecorded(run: seq<Step>, s: State) {
    && (forall x :: x in s.exchanges ==> Begin(x, s.exchanges[x].session) in run)
    && (forall x :: x in s.exchanges && s.exchanges[x].written.Some? ==> WrittenIn(run, x, s.exchanges[x]))
    && (forall x :: x in s.exchanges && s.exchanges[x].restored.Some? ==>
          Restore(x, s.exchanges[x].restored.value) in run)
  }

  ghost predicate WrittenIn(run: seq<Step>, x: ExchangeId, e: Exchange)
    requires e.written.Some?
  {
    exists newId :: WriteHeader(x, newId, e.toAdd) in run && e.written.value == GivenSession(e.session, newId)
  }

  /** The session that a response is written under. */
  function GivenSession(named: SessionId, newId: SessionId): SessionId { if named == "" then newId else named }

  lemma StepIsRecorded(run: seq<Step>, s: State, a: Step)
    requires ExchangesRecorded(run, s) && Enabled(s, a)
    ensures ExchangesRecorded(run + [a], Next(s, a))
  {
    var t := Next(s, a);
    forall x | x in t.exchanges && t.exchanges[x].written.Some? ensures WrittenIn(run + [a], x, t.exchanges[x]) {
      if x in s.exchanges && s.exchanges[x].written.Some? {
        var newId :| WriteHeader(x, newId, s.exchanges[x].toAdd) in run
                     && s.exchanges[x].written.value == GivenSession(s.exchanges[x].session, newId);
        assert WriteHeader(x, newId, t.exchanges[x].toAdd) in run + [a];
      } else {
        assert a.WriteHeader? && a.x == x && a == WriteHeader(x, a.newId, t.exchanges[x].toAdd);
      }
    }
  }

  lemma {:induction false} RunIsRecorded(done: seq<Step>, s: State, run: seq<Step>)
    requires ExchangesRecorded(done, s) && Legal(s, run)
    ensures ExchangesRecorded(done + run, Final(s, run))
    decreases |run|
  {
    if run == [] {
      assert done + run == done;
    } else {
      StepIsRecorded(done, s, run[0]);
      RunIsRecorded(done + [run[0]], Next(s, run[0]), run[1..]);
      assert (done + [run[0]]) + run[1..] == done + run;
    }
  }

  /** Isolation against the run: a cookie that the run restores into a request was set by a header write of the
      run in an exchange whose request named the same session, or named none and was given that one; and
      nothing is restored into a request that names none. */
  lemma RestoredCookiesWereSetInRun(run: seq<Step>, x: ExchangeId, c: Cookie)
    requires Legal(Init, run) && x in Final(Init, run).exchanges
    requires
      var e := Final(Init, run).exchanges[x];
      e.restored.Some? && c in e.restored.value
    ensures
      var session := Final(Init, run).exchanges[x].session;
      && session != "" && Begin(x, session) in run
      && exists y, newId, cookies :: c in cookies && SetsIn(run, session, y, newId, cookies)
  {
    RunIsRecorded([], Init, run);
    assert [] + run == run;
    SessionsAreIsolated(run, x);
    var s := Final(Init, run);
    var session := s.exchanges[x].session;
    var y :| y in s.exchanges && s.exchanges[y].written == Some(session) && c in s.exchanges[y].toAdd;
    assert WrittenIn(run, y, s.exchanges[y]);
    var newId :| WriteHeader(y, newId, s.exchanges[y].toAdd) in run
                 && session == GivenSession(s.exchanges[y].session, newId);
    assert Begin(y, s.exchanges[y].session) in run;
    assert SetsIn(run, session, y, newId, s.exchanges[y].toAdd);
  }

  /** The run writes these cookies in an exchange whose request names the session, or names none and is given
      it. */
  predicate SetsIn(run: seq<Step>, session: SessionId, y: ExchangeId, newId: SessionId, cookies: set<Cookie>) {
    && WriteHeader(y, newId, cookies) in run
    && (Begin(y, session) in run || (Begin(y, "") in run && newId == session))
  }

  // ---------------------------------------------------------------- losing and sharing a jar

  /** After an eviction the next request of the session gets a new and empty jar, which is then the session's. */
  lemma EvictedSessionStartsAnew(s: State, session: SessionId, y: ExchangeId, newJar: JarId)
    requires y !in s.exchanges && newJar !in s.jars
    ensures
      var s1 := Next(Next(s, Evict(session)), Begin(y, session));
      var s2 := Next(s1, FindForRequest(y, newJar));
      && session !in s1.cache && s2.exchanges[y].request == Unshared(newJar)
      && Keeps(Next(s2, AddForRequest(y)), session, newJar, {})
  {
    var s1 := Next(Next(s, Evict(session)), Begin(y, session));
    assert s1.exchanges[y].session == session && s1.jars == s.jars;
  }
}
