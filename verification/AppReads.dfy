/** What the reads of the App Engine proxy return, in every run: a reply is accepted only from the
    backend that its request was routed to, a request reads as it was submitted, and a response is put
    together from accepted replies, which is exactly one of them if their contents cannot be mixed into
    anything else. */
module AppReads {
  import opened Basics
  import opened Quoting
  import opened BlobStore
  import opened AppProxy

  /** `waitForResponse` has returned `x` for the request. */
  predicate HasReturned(s: State, id: GoString, x: Response) {
    && Waiter(id) in s.searches && s.searches[Waiter(id)].search.Returned?
    && s.searches[Waiter(id)].search.value == OfResponse(x)
  }

  /** The reply to `id` got past `ReadRequest`. */
  predicate IsReplyTo(s: State, id: GoString, p: ReplyId) {
    Responder(p) in s.writes && p in s.replies && s.replies[p].id == id
  }

  lemma ReachedSearch(env: Env, s: State, r: Reader)
    requires Reaches(env, Init, s) && r in s.searches
    ensures SearchInv(s, r, s.searches[r])
  {
    ReachedKeepsInv(env, Init, s);
  }

  // ---------------------------------------------------------------- requests

  /** A reply by a backend to a request that was not routed to it never gets past `ReadRequest`. */
  lemma ForeignReplyIsRefused(env: Env, s: State, p: ReplyId)
    requires Reaches(env, Init, s) && p in s.replies
    requires s.replies[p].id !in s.submissions || s.submissions[s.replies[p].id].backend != s.replies[p].backend
    ensures Responder(p) !in s.writes && Completer(p) !in s.writes
    ensures Replier(p) in s.searches ==>
      !s.searches[Replier(p)].search.Ready? && !s.searches[Replier(p)].search.Returned?
  {
    ReachedKeepsInv(env, Init, s);
    assert Responder(p) in s.writes ==> WriteInv(s, Responder(p), s.writes[Responder(p)].value);
    assert Completer(p) in s.writes ==> WriteInv(s, Completer(p), s.writes[Completer(p)].value);
    if Replier(p) in s.searches {
      assert SearchInv(s, Replier(p), s.searches[Replier(p)]);
    }
  }

  predicate HasFound(q: Inquiry) { q.search.Ready? || q.search.Returned? }

  /** Reading a request through cache and store agrees with the plain map of submissions: whatever is
      found, with any steps between those of the read and whichever copies are lost, has the user, the
      contents and the start time that were submitted for this backend and ID. */
  lemma CachedReadsAgreeWithWrites(env: Env, s: State, p: ReplyId)
    requires Reaches(env, Init, s) && Replier(p) in s.searches && HasFound(s.searches[Replier(p)])
    ensures
      var q := s.searches[Replier(p)];
      && q.search.value.OfRequest? && q.id in s.submissions && s.submissions[q.id].backend == q.backend
      && q.search.value.request.(completed := false) == Submitted(q.id, s.submissions[q.id])
  {
    ReachedSearch(env, s, Replier(p));
  }

  predicate AllPresent(s: State, names: seq<GoString>) { forall i :: 0 <= i < |names| ==> names[i] in s.parts }

  /** A read that missed the cache and is not interrupted finds the request if and only if its entity
      is stored and all of its parts have survived. */
  lemma StoredRequestIsFoundExactlyIfPartsSurvive(env: Env, s: State, p: ReplyId) returns (t: State)
    requires Inv(env, s) && Replier(p) in s.searches && s.searches[Replier(p)].search.Missed?
    ensures Reaches(env, s, t) && t == s.(searches := t.searches) && Replier(p) in t.searches
    ensures
      var q := s.searches[Replier(p)];
      var k := RequestEntity(env, q.backend, q.id);
      var found := k in s.store && AllPresent(s, s.store[k].bytes.parts);
      if found then t.searches[Replier(p)].search.Ready? else t.searches[Replier(p)].search.Refused?
  {
    var r := Replier(p);
    var q := s.searches[r];
    var k := RequestEntity(env, q.backend, q.id);
    var a := OfRead(AskStore(r));
    var u := Next(env, s, a);
    StepKeepsInv(env, s, a);
    if k in s.store {
      t := FetchAll(env, u, r);
      ReachesBefore(env, s, a, t);
    } else {
      t := u;
      ReachesNext(env, s, a);
    }
  }

  /** The parts that were fetched so far are those that are stored. */
  ghost predicate FetchedFrom(s: State, names: seq<GoString>, from: seq<Value>) {
    && |from| <= |names|
    && forall i :: 0 <= i < |from| ==> names[i] in s.parts && from[i] == s.parts[names[i]].of
  }

  /** What the end of a read has of the entity it loaded. */
  ghost predicate ReadyFrom(s: State, r: Reader, q: Inquiry, e: Entity) {
    && q.search.Ready? && FetchedFrom(s, e.bytes.parts, q.search.from) && |q.search.from| == |e.bytes.parts|
    && exists got :: q.search.value == LoadedValue(r, Loading(e, got, []))
  }

  lemma FetchOne(env: Env, s: State, r: Reader) returns (t: State)
    requires r in s.searches && s.searches[r].search.Loading?
    requires
      var l := s.searches[r].search;
      FetchedFrom(s, l.entity.bytes.parts, l.from) && |l.from| < |l.entity.bytes.parts|
    ensures Reaches(env, s, t) && t == SetSearch(s, r, FetchedPart(s.parts, s.searches[r].search))
    ensures
      var l := t.searches[r].search;
      l.Loading? ==> FetchedFrom(t, l.entity.bytes.parts, l.from)
  {
    t := Next(env, s, OfRead(FetchPart(r)));
    ReachesNext(env, s, OfRead(FetchPart(r)));
  }

  lemma FinishOne(env: Env, s: State, r: Reader) returns (t: State)
    requires r in s.searches && s.searches[r].search.Loading?
    requires
      var l := s.searches[r].search;
      FetchedFrom(s, l.entity.bytes.parts, l.from) && |l.from| == |l.entity.bytes.parts|
    ensures Reaches(env, s, t) && r in t.searches && t == SetSearch(s, r, t.searches[r].search)
    ensures ReadyFrom(s, r, t.searches[r], s.searches[r].search.entity)
  {
    var l := s.searches[r].search;
    t := Next(env, s, OfRead(FinishLoad(r)));
    ReachesNext(env, s, OfRead(FinishLoad(r)));
    assert t.searches[r].search.value == LoadedValue(r, Loading(l.entity, l.got, []));
  }

  /** The rest of a read that is not interrupted. */
  lemma {:induction false} FetchAll(env: Env, s: State, r: Reader) returns (t: State)
    requires r in s.searches && s.searches[r].search.Loading?
    requires FetchedFrom(s, s.searches[r].search.entity.bytes.parts, s.searches[r].search.from)
    ensures Reaches(env, s, t) && r in t.searches && t == SetSearch(s, r, t.searches[r].search)
    ensures
      var e := s.searches[r].search.entity;
      if AllPresent(s, e.bytes.parts) then ReadyFrom(s, r, t.searches[r], e) else t.searches[r].search.Refused?
    decreases |s.searches[r].search.entity.bytes.parts| - |s.searches[r].search.from|
  {
    var l := s.searches[r].search;
    if |l.from| == |l.entity.bytes.parts| {
      t := FinishOne(env, s, r);
    } else {
      var u := FetchOne(env, s, r);
      if l.entity.bytes.parts[|l.from|] in s.parts {
        t := FetchAll(env, u, r);
        ReachesOn(env, s, u, t);
        SetTwice(s, r, u.searches[r].search, t.searches[r].search);
      } else {
        t := u;
      }
    }
  }

  lemma SetTwice(s: State, r: Reader, a: Search, b: Search)
    requires r in s.searches
    ensures SetSearch(SetSearch(s, r, a), r, b) == SetSearch(s, r, b)
  {
    assert SetSearch(SetSearch(s, r, a), r, b).searches == SetSearch(s, r, b).searches;
  }

  // ---------------------------------------------------------------- responses

  /** Whatever `waitForResponse` returns was put together from replies to this very request, each by the
      backend that the request was routed to, although the stored response does not name the backend in
      its key: the inlined bytes of one, and for each part the part of that number of one. */
  lemma ResponseIsMadeOfOwnReplies(env: Env, s: State, id: GoString, x: Response) returns (from: seq<Value>)
    requires Reaches(env, Init, s) && HasReturned(s, id, x)
    ensures id in s.submissions && x.id == id && x.backend == s.submissions[id].backend
    ensures MadeOfReplies(s, x, from)
  {
    ReachedSearch(env, s, Waiter(id));
    from := s.searches[Waiter(id)].search.from;
  }

  lemma {:induction false} AssembledIsLong(first: Bytes, from: seq<Bytes>)
    requires Supplied(from)
    ensures |Assembled(first, from)| >= |BlobOf(first, []).inlined|
  {
    if from != [] {
      AssembledIsLong(first, from[..|from| - 1]);
    }
  }

  /** All replies to `id` that got past `ReadRequest` have the same contents. */
  ghost predicate RepliesAgree(s: State, id: GoString) {
    forall p, p' :: IsReplyTo(s, id, p) && IsReplyTo(s, id, p') ==> s.replies[p].contents == s.replies[p'].contents
  }

  /** A response below the limit of one field, and any response if all replies to the request agree, was
      posted with those contents by the backend that the request was routed to. */
  lemma ResponseComesFromOwnBackend(env: Env, s: State, id: GoString, x: Response)
    requires Reaches(env, Init, s) && HasReturned(s, id, x)
    requires |x.contents| < FIELD_BYTE_LIMIT || RepliesAgree(s, id)
    ensures IsReplyTo(s, id, x.poster) && id in s.submissions
    ensures s.replies[x.poster] == Reply(s.submissions[id].backend, id, x.contents)
  {
    var from := ResponseIsMadeOfOwnReplies(env, s, id, x);
    var c := s.replies[x.poster].contents;
    if |x.contents| < FIELD_BYTE_LIMIT {
      AssembledIsLong(c, AllContents(from));
      assert from == [];
    } else {
      forall i | 0 <= i < |from| ensures AllContents(from)[i] == c {
        assert Sourced(s, from[i]);
        assert IsReplyTo(s, id, from[i].response.poster) && IsReplyTo(s, id, x.poster);
      }
      AssembledSame(c, AllContents(from));
    }
  }

  // ---------------------------------------------------------------- when responses cannot be mixed

  ghost predicate AllIn(from: seq<Bytes>, all: iset<Bytes>) { forall i :: 0 <= i < |from| ==> from[i] in all }

  /** Parts of any of the contents put together with the inlined bytes of any of them give one of them. */
  ghost predicate Closed(all: iset<Bytes>) {
    forall first, from :: first in all && AllIn(from, all) && Supplied(from) && |from| == NumParts(first) ==>
      Assembled(first, from) in all
  }

  /** Every reply to `id` that got past `ReadRequest` has one of these contents. */
  ghost predicate RepliesAreIn(s: State, id: GoString, all: iset<Bytes>) {
    forall p :: IsReplyTo(s, id, p) ==> s.replies[p].contents in all
  }

  /** In every run in which the replies to a request have these contents, so has what is returned. */
  ghost predicate NeverMixed(env: Env, all: iset<Bytes>) {
    forall s, id, x :: Reaches(env, Init, s) && RepliesAreIn(s, id, all) && HasReturned(s, id, x) ==> x.contents in all
  }

  lemma ClosedIsNeverMixed(env: Env, all: iset<Bytes>)
    requires Closed(all)
    ensures NeverMixed(env, all)
  {
    forall s, id, x | Reaches(env, Init, s) && RepliesAreIn(s, id, all) && HasReturned(s, id, x)
      ensures x.contents in all
    {
      var from := ResponseIsMadeOfOwnReplies(env, s, id, x);
      var first := s.replies[x.poster].contents;
      assert IsReplyTo(s, id, x.poster);
      forall i | 0 <= i < |from| ensures AllContents(from)[i] in all {
        assert Sourced(s, from[i]);
        assert IsReplyTo(s, id, from[i].response.poster);
      }
      assert AllIn(AllContents(from), all);
    }
  }
}
