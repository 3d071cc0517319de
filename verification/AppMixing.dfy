/** The parts of a large response are stored under names that do not tell which reply wrote them. So the
    parts of different replies to one request can be mixed in every way, and a response is always one
    that was posted exactly if no mixture is anything else. */
module AppMixing {
  import opened Basics
  import opened Quoting
  import opened BlobStore
  import opened AppProxy
  import opened AppReads

  const ID := Text("1")
  const BACKEND := Text("b")

  const Asked := Submission(BACKEND, [], [], 0)

  function Posted(p: ReplyId, contents: Bytes): Value { Answer(p, Reply(BACKEND, ID, contents)) }

  function PartAt(i: nat): GoString { PartName(BlobName(ID, ResponseBlob), i) }

  /** The request is stored and in the cache, where its replies find it, and nobody waits for it yet. */
  predicate IsAsked(env: Env, s: State) {
    && ID in s.submissions && s.submissions[ID] == Asked && HasWritten(s, ID) && Waiter(ID) !in s.searches
    && RequestKey(env.printable, BACKEND, ID) in s.memcache
    && s.memcache[RequestKey(env.printable, BACKEND, ID)] == Cached(OfRequest(Submitted(ID, Asked)))
    && ResponseKey(env.printable, BACKEND, ID) !in s.memcache
  }

  lemma AskOne(env: Env) returns (s: State)
    ensures Reaches(env, Init, s) && IsAsked(env, s) && s.replies == map[]
  {
    var w, v := Submitter(ID), OfRequest(Submitted(ID, Asked));
    var a1, a2, a3 := OfCall(Submit(ID, BACKEND, [], [], 0)), OfWrite(TryCache(w, true)), OfWrite(PutEntity(w, true));
    var s1 := Next(env, Init, a1);
    assert s1.writes[w] == Write(v, Begun) && s1.replies == map[] && s1.searches == map[];
    var s2 := Next(env, s1, a2);
    assert s2.writes[w] == Write(v, Storing({}));
    KeySpacesDisjoint(env.printable, BACKEND, ID, BACKEND, ID);
    assert ResponseKey(env.printable, BACKEND, ID) !in s2.memcache;
    s := Next(env, s2, a3);
    ReachesNext(env, s2, a3);
    ReachesBefore(env, s1, a2, s);
    ReachesBefore(env, Init, a1, s);
  }

  /** `t` is `s` with the reply `p` accepted and about to store its response. */
  predicate AcceptedIn(s: State, t: State, p: ReplyId, contents: Bytes) {
    && t.memcache == s.memcache && t.store == s.store && t.parts == s.parts && t.submissions == s.submissions
    && t.replies == s.replies[p := Reply(BACKEND, ID, contents)]
    && Responder(p) in t.writes && t.writes[Responder(p)] == Write(Posted(p, contents), Storing({}))
    && (forall w :: w in s.writes && w != Completer(p) && w != Responder(p) ==>
          w in t.writes && t.writes[w] == s.writes[w])
    && (Waiter(ID) in t.searches <==> Waiter(ID) in s.searches)
  }

  lemma FindRequest(env: Env, s: State, p: ReplyId, contents: Bytes) returns (t: State)
    requires IsAsked(env, s) && p !in s.replies
    ensures Reaches(env, s, t)
    ensures
      var q := Inquiry(BACKEND, ID, Ready(OfRequest(Submitted(ID, Asked)), []));
      t == s.(replies := s.replies[p := Reply(BACKEND, ID, contents)], searches := s.searches[Replier(p) := q])
  {
    var r := Replier(p);
    var a1, a2 := OfCall(BeginReply(p, BACKEND, ID, contents)), OfRead(AskCache(r));
    var u := Next(env, s, a1);
    assert u.searches[r] == Inquiry(BACKEND, ID, Asking);
    t := Next(env, u, a2);
    assert t.searches[r] == Inquiry(BACKEND, ID, Ready(OfRequest(Submitted(ID, Asked)), []));
    ReachesNext(env, u, a2);
    ReachesBefore(env, s, a1, t);
  }

  lemma StartResponse(env: Env, s: State, p: ReplyId) returns (t: State)
    requires p in s.replies && Replier(p) in s.searches && s.searches[Replier(p)].search.Ready?
    ensures Reaches(env, s, t)
    ensures t == s.(writes := t.writes, searches := t.searches)
    ensures Responder(p) in t.writes && t.writes[Responder(p)] == Write(Answer(p, s.replies[p]), Storing({}))
    ensures forall w :: w in s.writes && w != Completer(p) && w != Responder(p) ==>
      w in t.writes && t.writes[w] == s.writes[w]
    ensures Waiter(ID) in t.searches <==> Waiter(ID) in s.searches
  {
    var a1, a2 := OfRead(Conclude(Replier(p))), OfWrite(TryCache(Responder(p), false));
    var u := Next(env, s, a1);
    t := Next(env, u, a2);
    ReachesNext(env, u, a2);
    ReachesBefore(env, s, a1, t);
  }

  lemma AcceptReply(env: Env, s: State, p: ReplyId, contents: Bytes) returns (t: State)
    requires IsAsked(env, s) && p !in s.replies
    ensures Reaches(env, s, t) && IsAsked(env, t) && AcceptedIn(s, t, p, contents)
  {
    var u := FindRequest(env, s, p, contents);
    t := StartResponse(env, u, p);
    ReachesOn(env, s, u, t);
  }

  /** Only the parts and the progress of one write differ. */
  predicate OnlyPuts(s: State, t: State, w: Writer, v: Value, done: set<nat>) {
    t == s.(parts := t.parts, writes := s.writes[w := Write(v, Storing(done))])
  }

  lemma PutOne(env: Env, s: State, w: Writer, v: Value, done: set<nat>, i: nat) returns (t: State)
    requires w in s.writes && s.writes[w] == Write(v, Storing(done)) && i < NumParts(ContentsOf(v)) && i !in done
    ensures Reaches(env, s, t) && OnlyPuts(s, t, w, v, done + {i})
    ensures t.parts == s.parts[PartNameOf(v, i) := PartOf(v, i)]
  {
    t := Next(env, s, OfWrite(PutPart(w, i)));
    ReachesNext(env, s, OfWrite(PutPart(w, i)));
  }

  function Below(n: nat): (r: set<nat>)
    ensures forall j: nat :: j in r <==> j < n
  {
    if n == 0 then {} else Below(n - 1) + {n - 1}
  }

  /** The writer puts its first `n` parts. */
  lemma {:induction false} PutFirst(env: Env, s: State, w: Writer, v: Value, n: nat) returns (t: State)
    requires w in s.writes && s.writes[w] == Write(v, Storing({})) && n <= NumParts(ContentsOf(v))
    ensures Reaches(env, s, t) && OnlyPuts(s, t, w, v, Below(n))
    ensures forall j: nat :: j < n ==> PartNameOf(v, j) in t.parts
  {
    if n == 0 {
      t := s;
      ReachesItself(env, s);
      assert s.writes[w := Write(v, Storing({}))] == s.writes;
    } else {
      var u := PutFirst(env, s, w, v, n - 1);
      t := PutNext(env, s, u, w, v, n);
      ReachesOn(env, s, u, t);
    }
  }

  lemma PutNext(env: Env, s: State, u: State, w: Writer, v: Value, n: nat) returns (t: State)
    requires 0 < n <= NumParts(ContentsOf(v)) && OnlyPuts(s, u, w, v, Below(n - 1))
    requires forall j: nat :: j < n - 1 ==> PartNameOf(v, j) in u.parts
    ensures Reaches(env, u, t) && OnlyPuts(s, t, w, v, Below(n))
    ensures forall j: nat :: j < n ==> PartNameOf(v, j) in t.parts
  {
    t := PutOne(env, u, w, v, Below(n - 1), n - 1);
    PutsOn(s, u, t, w, v, Below(n - 1), Below(n));
  }

  lemma PutsOn(s: State, t: State, u: State, w: Writer, v: Value, before: set<nat>, done: set<nat>)
    requires OnlyPuts(s, t, w, v, before) && OnlyPuts(t, u, w, v, done)
    ensures OnlyPuts(s, u, w, v, done)
  {
    assert t.writes[w := Write(v, Storing(done))] == s.writes[w := Write(v, Storing(done))];
  }

  /** Reply 0 with the contents `first`, and reply `i + 1` with the contents `from[i]` for the first `k`. */
  function Replies(first: Bytes, from: seq<Bytes>, k: nat): map<ReplyId, Reply>
    requires k <= |from|
  {
    if k == 0 then map[0 := Reply(BACKEND, ID, first)]
    else Replies(first, from, k - 1)[k := Reply(BACKEND, ID, from[k - 1])]
  }

  lemma {:induction false} OnlyThose(first: Bytes, from: seq<Bytes>, k: nat, p: ReplyId)
    requires k <= |from|
    ensures 0 in Replies(first, from, k) && Replies(first, from, k)[0] == Reply(BACKEND, ID, first)
    ensures p > k ==> p !in Replies(first, from, k)
    ensures p in Replies(first, from, k) ==>
      Replies(first, from, k)[p].contents == first || Replies(first, from, k)[p].contents in from
  {
    if k > 0 {
      OnlyThose(first, from, k - 1, p);
    }
  }

  /** Reply 0 has put all its parts, and for each part before number `k` another reply has put over it
      the part of that number of `from`. */
  ghost predicate Overwritten(env: Env, s: State, first: Bytes, from: seq<Bytes>, k: nat)
    requires Supplied(from) && k <= |from| == NumParts(first)
  {
    && IsAsked(env, s)
    && s.replies == Replies(first, from, k)
    && Responder(0) in s.writes && s.writes[Responder(0)].value == Posted(0, first) && PartsDone(s.writes[Responder(0)])
    && (forall i :: 0 <= i < |from| ==> PartAt(i) in s.parts)
    && (forall i :: 0 <= i < k ==> ContentsOf(s.parts[PartAt(i)].of) == from[i])
  }

  lemma FirstPuts(env: Env, first: Bytes, from: seq<Bytes>) returns (s: State)
    requires Supplied(from) && |from| == NumParts(first)
    ensures Reaches(env, Init, s) && Overwritten(env, s, first, from, 0)
  {
    var s1 := AskOne(env);
    var s2 := AcceptReply(env, s1, 0, first);
    ReachesOn(env, Init, s1, s2);
    s := PutOwn(env, s2, first, |from|);
    ReachesOn(env, Init, s2, s);
  }

  lemma PutOwn(env: Env, s: State, first: Bytes, n: nat) returns (t: State)
    requires n == NumParts(first) && IsAsked(env, s)
    requires Responder(0) in s.writes && s.writes[Responder(0)] == Write(Posted(0, first), Storing({}))
    ensures Reaches(env, s, t) && IsAsked(env, t) && t.replies == s.replies
    ensures Responder(0) in t.writes && t.writes[Responder(0)].value == Posted(0, first)
      && PartsDone(t.writes[Responder(0)])
    ensures forall i :: 0 <= i < n ==> PartAt(i) in t.parts
  {
    t := PutFirst(env, s, Responder(0), Posted(0, first), n);
    forall i | 0 <= i < n ensures PartAt(i) in t.parts {
      assert PartNameOf(Posted(0, first), i) == PartAt(i);
    }
  }

  lemma OverwriteOne(env: Env, s: State, first: Bytes, from: seq<Bytes>, k: nat) returns (t: State)
    requires Supplied(from) && k < |from| == NumParts(first) && Overwritten(env, s, first, from, k)
    ensures Reaches(env, s, t) && Overwritten(env, t, first, from, k + 1)
  {
    OnlyThose(first, from, k, k + 1);
    var u := AcceptReply(env, s, k + 1, from[k]);
    t := PutOne(env, u, Responder(k + 1), Posted(k + 1, from[k]), {}, k);
    ReachesOn(env, s, u, t);
    assert PartNameOf(Posted(k + 1, from[k]), k) == PartAt(k);
    OverwrittenOnce(env, s, u, t, first, from, k, {} + {k});
  }

  lemma OverwrittenOnce(env: Env, s: State, u: State, t: State, first: Bytes, from: seq<Bytes>, k: nat,
                        done: set<nat>)
    requires Supplied(from) && k < |from| == NumParts(first) && Overwritten(env, s, first, from, k)
    requires IsAsked(env, u) && AcceptedIn(s, u, k + 1, from[k])
    requires OnlyPuts(u, t, Responder(k + 1), Posted(k + 1, from[k]), done)
    requires t.parts == u.parts[PartAt(k) := PartOf(Posted(k + 1, from[k]), k)]
    ensures Overwritten(env, t, first, from, k + 1)
  {
    forall i | 0 <= i < |from| && i != k ensures PartAt(i) != PartAt(k) {
      PartsNeverCollide(ID, ResponseBlob, i, ID, ResponseBlob, k);
    }
  }

  lemma {:induction false} OverwriteAll(env: Env, s: State, first: Bytes, from: seq<Bytes>, k: nat) returns (t: State)
    requires Supplied(from) && k <= |from| == NumParts(first) && Overwritten(env, s, first, from, k)
    ensures Reaches(env, s, t) && Overwritten(env, t, first, from, |from|)
    decreases |from| - k
  {
    if k == |from| {
      t := s;
      ReachesItself(env, s);
    } else {
      var u := OverwriteOne(env, s, first, from, k);
      t := OverwriteAll(env, u, first, from, k + 1);
      ReachesOn(env, s, u, t);
    }
  }

  /** The waiter has loaded the entity of reply 0; nothing else has changed but that write. */
  ghost predicate Loaded(s: State, t: State, first: Bytes) {
    && t.replies == s.replies && t.parts == s.parts && Waiter(ID) in t.searches
    && t.searches[Waiter(ID)] ==
       Inquiry(BACKEND, ID, Loading(EntityOf(Posted(0, first)), BlobOf(first, []).inlined, []))
  }

  lemma StoreAndAsk(env: Env, s: State, first: Bytes) returns (t: State)
    requires IsAsked(env, s) && Responder(0) in s.writes
    requires s.writes[Responder(0)].value == Posted(0, first) && PartsDone(s.writes[Responder(0)])
    ensures Reaches(env, s, t) && Loaded(s, t, first)
  {
    var r := Waiter(ID);
    var a1, a2 := OfWrite(PutEntity(Responder(0), true)), OfCall(Await(ID));
    var a3, a4 := OfRead(AskCache(r)), OfRead(AskStore(r));
    var s1 := Next(env, s, a1);
    assert s1.store[ResponseEntity(ID)] == EntityOf(Posted(0, first));
    assert HasWritten(s1, ID);
    var s2 := Next(env, s1, a2);
    assert s2.searches[r] == Inquiry(BACKEND, ID, Asking);
    var s3 := Next(env, s2, a3);
    assert s3.searches[r] == Inquiry(BACKEND, ID, Missed);
    t := Next(env, s3, a4);
    ReachesNext(env, s3, a4);
    ReachesBefore(env, s2, a3, t);
    ReachesBefore(env, s1, a2, t);
    ReachesBefore(env, s, a1, t);
  }

  /** Every mixture of a large response with parts of others is returned in some run in which just these
      were posted. */
  lemma MixtureIsReturned(env: Env, first: Bytes, from: seq<Bytes>) returns (s: State, x: Response)
    requires |first| >= FIELD_BYTE_LIMIT && Supplied(from) && |from| == NumParts(first)
    ensures Reaches(env, Init, s) && HasReturned(s, ID, x) && x.contents == Assembled(first, from)
    ensures forall p :: IsReplyTo(s, ID, p) ==> s.replies[p].contents == first || s.replies[p].contents in from
  {
    var s0 := FirstPuts(env, first, from);
    var s1 := OverwriteAll(env, s0, first, from, 0);
    ReachesOn(env, Init, s0, s1);
    var s2 := StoreAndAsk(env, s1, first);
    ReachesOn(env, Init, s1, s2);
    var s3 := ReadMixture(env, s1, s2, first, from);
    ReachesOn(env, Init, s2, s3);
    OnlyThose(first, from, |from|, 0);
    FromThose(env, s1, s3, first, from, s3.searches[Waiter(ID)].search.from);
    ReachedSearch(env, s3, Waiter(ID));
    x := Mixed(s3, s3.searches[Waiter(ID)], first, from);
    AssembledIsLong(first, from);
    s := ReturnMixture(env, s3, x);
    ReachesOn(env, Init, s3, s);
    forall p | IsReplyTo(s, ID, p) ensures s.replies[p].contents == first || s.replies[p].contents in from {
      OnlyThose(first, from, |from|, p);
    }
  }

  lemma ReturnMixture(env: Env, s: State, x: Response) returns (t: State)
    requires Waiter(ID) in s.searches && s.searches[Waiter(ID)].search.Ready? && x.contents != []
    requires s.searches[Waiter(ID)].search.value == OfResponse(x)
    ensures Reaches(env, s, t) && HasReturned(t, ID, x) && t.replies == s.replies
  {
    t := Next(env, s, OfRead(Conclude(Waiter(ID))));
    ReachesNext(env, s, OfRead(Conclude(Waiter(ID))));
  }

  lemma ReadMixture(env: Env, s: State, t: State, first: Bytes, from: seq<Bytes>) returns (u: State)
    requires Supplied(from) && |from| == NumParts(first) && Overwritten(env, s, first, from, |from|)
      && Loaded(s, t, first)
    ensures Reaches(env, t, u) && u.replies == s.replies && u.parts == s.parts && Waiter(ID) in u.searches
    ensures ReadyFrom(u, Waiter(ID), u.searches[Waiter(ID)], EntityOf(Posted(0, first)))
  {
    u := FetchAll(env, t, Waiter(ID));
    var names := EntityOf(Posted(0, first)).bytes.parts;
    forall i | 0 <= i < |names| ensures names[i] in t.parts {
      assert names[i] == PartAt(i);
    }
  }

  lemma Mixed(s: State, q: Inquiry, first: Bytes, from: seq<Bytes>) returns (x: Response)
    requires q.search.Ready? && FoundInv(s, Waiter(ID), q, q.search.value, q.search.from)
    requires exists got :: q.search.value == LoadedValue(Waiter(ID), Loading(EntityOf(Posted(0, first)), got, []))
    requires 0 in s.replies && s.replies[0].contents == first && AllContents(q.search.from) == from
    ensures q.search.value == OfResponse(x) && Supplied(from) && x.contents == Assembled(first, from)
  {
    LoadedFromFirst(q, first);
    x := q.search.value.response;
  }

  lemma LoadedFromFirst(q: Inquiry, first: Bytes)
    requires q.search.Ready?
    requires exists got :: q.search.value == LoadedValue(Waiter(ID), Loading(EntityOf(Posted(0, first)), got, []))
    ensures q.search.value.OfResponse? && q.search.value.response.poster == 0
  {
  }

  lemma FromThose(env: Env, s: State, t: State, first: Bytes, from: seq<Bytes>, values: seq<Value>)
    requires Supplied(from) && |from| == NumParts(first) && Overwritten(env, s, first, from, |from|)
      && t.parts == s.parts
    requires
      var names := EntityOf(Posted(0, first)).bytes.parts;
      FetchedFrom(t, names, values) && |values| == |names|
    ensures AllContents(values) == from
  {
    var names := EntityOf(Posted(0, first)).bytes.parts;
    forall i | 0 <= i < |from| ensures AllContents(values)[i] == from[i] {
      assert names[i] == PartAt(i);
    }
  }

  /** So the condition is exact: what is returned is always one of the posted contents if and only if no
      mixture of them is anything else. */
  lemma NeverMixedExactlyIfClosed(env: Env, all: iset<Bytes>)
    ensures NeverMixed(env, all) <==> Closed(all)
  {
    if Closed(all) {
      ClosedIsNeverMixed(env, all);
    }
    if NeverMixed(env, all) {
      forall first, from | first in all && AllIn(from, all) && Supplied(from) && |from| == NumParts(first)
        ensures Assembled(first, from) in all
      {
        if |first| >= FIELD_BYTE_LIMIT {
          var s, x := MixtureIsReturned(env, first, from);
          assert RepliesAreIn(s, ID, all);
        } else {
          assert from == [];
        }
      }
    }
  }

  /** Contents below the limit of one field are never mixed, and neither are contents that agree. */
  lemma SmallIsClosed(all: iset<Bytes>)
    requires (forall c :: c in all ==> |c| < FIELD_BYTE_LIMIT) || exists c :: all == iset{c}
    ensures Closed(all)
  {
    forall first, from | first in all && AllIn(from, all) && Supplied(from) && |from| == NumParts(first)
      ensures Assembled(first, from) in all
    {
      if |first| < FIELD_BYTE_LIMIT {
        assert from == [];
      } else {
        AssembledSame(first, from);
      }
    }
  }

  /** A run in which two replies of a million and one bytes are posted to one request, and the response is
      neither of them. */
  lemma TwoLargeRepliesCanMix(env: Env) returns (s: State, x: Response)
    ensures Reaches(env, Init, s) && HasReturned(s, ID, x)
    ensures forall p :: IsReplyTo(s, ID, p) ==> s.replies[p].contents != x.contents
  {
    var n := FIELD_BYTE_LIMIT + 1;
    var a: Bytes := seq(n, i => 1);
    var b: Bytes := seq(n, i => 2);
    assert NumParts(a) == 1 && NumParts(b) == 1;
    s, x := MixtureIsReturned(env, a, [b]);
    var mixed := Assembled(a, [b]);
    assert [b][..0] == [];
    assert mixed == a[..FIELD_BYTE_LIMIT] + PartBytes(Overflow(b), 0);
    assert mixed[0] == 1 && mixed[FIELD_BYTE_LIMIT] == 2;
    assert a[FIELD_BYTE_LIMIT] == 1 && b[0] == 2;
  }
}
