/** The App Engine proxy (app/proxy.go) over the caching store (app/cache/cache.go) over the
    keyed store (app/store/store.go), as a step relation over every interleaving.

    A cache set may fail without notice, a cached entry may vanish at any time, a store write may
    fail, or be reported as failed and land all the same, and stored entities and parts may be
    deleted at any time by the clean-up job. The cache set, the puts of the parts and the put of the
    entity are separate steps of a write; the look into the cache, the get of the entity and the gets
    of its parts are separate steps of a read. Request IDs are globally unique. */
module AppProxy {
  import opened Basics
  import opened Quoting
  import opened BlobStore

  type ReplyId = nat

  datatype Request = Request(
    backend: GoString, id: GoString, user: GoString, contents: Bytes, start: int, completed: bool)

  /** `poster` is the history of the value: the `postResponse` call that made it. */
  datatype Response = Response(backend: GoString, id: GoString, contents: Bytes, poster: ReplyId)

  /** What the store's methods write and read. */
  datatype Value = OfRequest(request: Request) | OfResponse(response: Response)

  function ContentsOf(v: Value): Bytes { if v.OfRequest? then v.request.contents else v.response.contents }
  function IdOf(v: Value): GoString { if v.OfRequest? then v.request.id else v.response.id }
  function BackendOf(v: Value): GoString { if v.OfRequest? then v.request.backend else v.response.backend }
  function RoleOf(v: Value): Role { if v.OfRequest? then RequestBlob else ResponseBlob }

  function WithContents(v: Value, contents: Bytes): Value {
    if v.OfRequest? then OfRequest(v.request.(contents := contents)) else OfResponse(v.response.(contents := contents))
  }

  /** What memcache holds under a key: the encoding of a value, or a whole page, which was kept for `user`
      and `url`. Nothing in an entry says which of these it is. */
  datatype Entry = Cached(value: Value) | CachedPage(user: GoString, url: GoString, page: Bytes)

  datatype Key = Key(kind: string, name: GoString)

  /** A stored request or response: the fields of `of`, but of its contents only the blob. The contents
      in `of` are history. */
  datatype Entity = Entity(bytes: Blob, of: Value)

  /** A stored part, and as its history the value and the number it was written for. */
  datatype Part = Part(stored: BlobPart, of: Value, index: nat)

  /** The write of a submitted request, and the two writes of a `postResponse`. */
  datatype Writer = Submitter(id: GoString) | Completer(reply: ReplyId) | Responder(reply: ReplyId)

  /** `Storing` names the parts that have been put. A write that was reported as failed can still land:
      a part of it at any time, and its entity if that was what failed. */
  datatype Progress = Begun | Storing(done: set<nat>) | Done | PartFailed | EntityFailed | Landed

  datatype Write = Write(value: Value, progress: Progress)

  /** The read of `waitForResponse`, and that of a `postResponse`. */
  datatype Reader = Waiter(id: GoString) | Replier(reply: ReplyId)

  /** `got` is what was put together so far; as history, `from` has the value that each part came from. */
  datatype Search =
    | Asking
    | Missed
    | Loading(entity: Entity, got: Bytes, from: seq<Value>)
    | Ready(value: Value, from: seq<Value>)
    | Refused
    | Returned(value: Value, from: seq<Value>)

  datatype Inquiry = Inquiry(backend: GoString, id: GoString, search: Search)

  /** One call of `postRequest` followed by `waitForResponse`. */
  datatype Submission = Submission(backend: GoString, user: GoString, contents: Bytes, start: int)

  /** One call of `postResponse`. */
  datatype Reply = Reply(backend: GoString, id: GoString, contents: Bytes)

  /** `id` was on a pending list returned to `backend`. */
  datatype Listing = Listing(backend: GoString, id: GoString)

  datatype State = State(
    memcache: map<string, Entry>,
    store: map<Key, Entity>,
    parts: map<GoString, Part>,
    submissions: map<GoString, Submission>,
    replies: map<ReplyId, Reply>,
    writes: map<Writer, Write>,
    searches: map<Reader, Inquiry>,
    listed: set<Listing>)

  const Init := State(map[], map[], map[], map[], map[], map[], map[], {})

  const CACHE_ENTRY_SIZE_LIMIT := 1000000
  const LIST_LIMIT := 100

  /** What the libraries do that nothing here depends on: which runes `%q` takes for printable, and what
      gob decoding makes of bytes that it did not encode. */
  datatype Env = Env(
    printable: char -> bool,
    gobRequest: Bytes -> Option<Request>,
    gobResponse: Bytes -> Option<Response>)

  // ---------------------------------------------------------------- keys and decoding

  function RequestEntity(env: Env, backend: GoString, id: GoString): Key {
    Key(RequestKind(env.printable, backend), id)
  }

  function ResponseEntity(id: GoString): Key { Key(RESPONSE_KIND, id) }

  /** The key of a stored value; that of a response does not name the backend. */
  function KeyOf(env: Env, v: Value): Key {
    if v.OfRequest? then RequestEntity(env, v.request.backend, v.request.id) else ResponseEntity(v.response.id)
  }

  function CacheKeyOf(env: Env, v: Value): string {
    if v.OfRequest? then RequestKey(env.printable, v.request.backend, v.request.id)
    else ResponseKey(env.printable, v.response.backend, v.response.id)
  }

  /** Decoding goes by field names, both from the cache and from the store, and a response has no field
      that a request lacks; so either decodes as the other, with the missing fields empty. */
  function AsRequest(v: Value): Value {
    match v
    case OfRequest(_) => v
    case OfResponse(x) => OfRequest(Request(x.backend, x.id, [], x.contents, 0, false))
  }

  function AsResponse(v: Value): Value {
    match v
    case OfRequest(r) => OfResponse(Response(r.backend, r.id, r.contents, 0))
    case OfResponse(_) => v
  }

  /** `memcache.Gob.Get` into a request or into a response. */
  function Decode(env: Env, r: Reader, e: Entry): Option<Value> {
    match (e, r)
    case (Cached(v), Replier(_)) => Some(AsRequest(v))
    case (Cached(v), Waiter(_)) => Some(AsResponse(v))
    case (CachedPage(_, _, page), Replier(_)) =>
      (match env.gobRequest(page) case Some(x) => Some(OfRequest(x)) case None => None)
    case (CachedPage(_, _, page), Waiter(_)) =>
      (match env.gobResponse(page) case Some(x) => Some(OfResponse(x)) case None => None)
  }

  function CacheKeyFor(env: Env, r: Reader, q: Inquiry): string {
    match r
    case Waiter(_) => ResponseKey(env.printable, q.backend, q.id)
    case Replier(_) => RequestKey(env.printable, q.backend, q.id)
  }

  function KeyFor(env: Env, r: Reader, q: Inquiry): Key {
    match r
    case Waiter(_) => ResponseEntity(q.id)
    case Replier(_) => RequestEntity(env, q.backend, q.id)
  }

  function RoleFor(r: Reader): Role { if r.Waiter? then ResponseBlob else RequestBlob }

  /** The query for pending requests goes by kind and by the completed flag. */
  predicate PendingAt(store: map<Key, Entity>, k: Key) { k in store && !AsRequest(store[k].of).request.completed }

  predicate IsPending(env: Env, s: State, backend: GoString, id: GoString) {
    PendingAt(s.store, RequestEntity(env, backend, id))
  }

  // ---------------------------------------------------------------- the steps

  datatype CallStep =
    | Submit(id: GoString, backend: GoString, user: GoString, contents: Bytes, start: int)
    | Await(id: GoString)
    | List(backend: GoString, ids: set<GoString>)
    | BeginReply(reply: ReplyId, backend: GoString, id: GoString, contents: Bytes)

  datatype ReadStep =
    | AskCache(reader: Reader)
    | AskStore(reader: Reader)
    | FetchPart(reader: Reader)
    | FinishLoad(reader: Reader)
    | Conclude(reader: Reader)
    | Retry(reader: Reader)

  datatype WriteStep =
    | TryCache(writer: Writer, lands: bool)
    | PutPart(writer: Writer, index: nat)
    | FailPart(writer: Writer)
    | PutEntity(writer: Writer, lands: bool)
    | LateEntity(writer: Writer)

  datatype SystemStep =
    | Evict(key: string)
    | ExpireEntity(entity: Key)
    | ExpirePart(part: GoString)
    | CachePage(user: GoString, url: GoString, page: Bytes)

  datatype Step =
    | OfCall(call: CallStep)
    | OfRead(read: ReadStep)
    | OfWrite(write: WriteStep)
    | OfSystem(system: SystemStep)

  predicate HasWritten(s: State, id: GoString) {
    Submitter(id) in s.writes && s.writes[Submitter(id)].progress == Done
  }

  predicate CallEnabled(env: Env, s: State, a: CallStep) {
    match a
    case Submit(id, _, _, _, _) => id !in s.submissions
    case Await(id) => id in s.submissions && HasWritten(s, id) && Waiter(id) !in s.searches
    case List(backend, ids) => |ids| <= LIST_LIMIT && forall id :: id in ids ==> IsPending(env, s, backend, id)
    case BeginReply(p, _, _, _) => p !in s.replies
  }

  predicate ReadEnabled(s: State, a: ReadStep) {
    && a.reader in s.searches
    && var q := s.searches[a.reader];
    match a
    case AskCache(_) => q.search.Asking?
    case AskStore(_) => q.search.Missed?
    case FetchPart(_) => q.search.Loading? && |q.search.from| < |q.search.entity.bytes.parts|
    case FinishLoad(_) => q.search.Loading? && |q.search.from| == |q.search.entity.bytes.parts|
    case Conclude(r) => q.search.Ready? && (r.Replier? ==> r.reply in s.replies)
    case Retry(r) => q.search.Refused? && r.Waiter?
  }

  /** All parts of the value have been put, so its entity may be. */
  predicate PartsDone(w: Write) {
    w.progress.Storing? && forall i: nat :: i < NumParts(ContentsOf(w.value)) ==> i in w.progress.done
  }

  predicate WriteEnabled(s: State, a: WriteStep) {
    && a.writer in s.writes
    && var w := s.writes[a.writer];
    match a
    case TryCache(_, _) => w.progress.Begun?
    case PutPart(_, i) =>
      i < NumParts(ContentsOf(w.value)) && ((w.progress.Storing? && i !in w.progress.done) || w.progress.PartFailed?)
    case FailPart(_) => w.progress.Storing? && !PartsDone(w)
    case PutEntity(_, _) => PartsDone(w)
    case LateEntity(_) => w.progress.EntityFailed?
  }

  predicate Enabled(env: Env, s: State, a: Step) {
    match a
    case OfCall(b) => CallEnabled(env, s, b)
    case OfRead(b) => ReadEnabled(s, b)
    case OfWrite(b) => WriteEnabled(s, b)
    case OfSystem(b) => true
  }

  function Submitted(id: GoString, m: Submission): Request {
    Request(m.backend, id, m.user, m.contents, m.start, false)
  }

  function CallNext(env: Env, s: State, a: CallStep): State
    requires CallEnabled(env, s, a)
  {
    match a
    case Submit(id, backend, user, contents, start) =>
      var m := Submission(backend, user, contents, start);
      s.(submissions := s.submissions[id := m],
         writes := s.writes[Submitter(id) := Write(OfRequest(Submitted(id, m)), Begun)])
    case Await(id) => s.(searches := s.searches[Waiter(id) := Inquiry(s.submissions[id].backend, id, Asking)])
    case List(backend, ids) => s.(listed := s.listed + set id | id in ids :: Listing(backend, id))
    case BeginReply(p, backend, id, contents) =>
      s.(replies := s.replies[p := Reply(backend, id, contents)],
         searches := s.searches[Replier(p) := Inquiry(backend, id, Asking)])
  }

  function SetSearch(s: State, r: Reader, search: Search): State
    requires r in s.searches
  {
    s.(searches := s.searches[r := s.searches[r].(search := search)])
  }

  function AskedCache(env: Env, s: State, r: Reader, q: Inquiry): Search {
    var k := CacheKeyFor(env, r, q);
    if k in s.memcache && Decode(env, r, s.memcache[k]).Some?
    then Ready(Decode(env, r, s.memcache[k]).value, [])
    else Missed
  }

  function AskedStore(env: Env, s: State, r: Reader, q: Inquiry): Search {
    var k := KeyFor(env, r, q);
    if k in s.store then Loading(s.store[k], s.store[k].bytes.inlined, []) else Refused
  }

  /** `GetMulti` gets the parts one after the other, and fails if one is missing. */
  function FetchedPart(parts: map<GoString, Part>, l: Search): Search
    requires l.Loading? && |l.from| < |l.entity.bytes.parts|
  {
    var name := l.entity.bytes.parts[|l.from|];
    if name in parts then Loading(l.entity, l.got + parts[name].stored.bytes, l.from + [parts[name].of]) else Refused
  }

  function LoadedValue(r: Reader, l: Search): Value
    requires l.Loading?
  {
    var v := WithContents(l.entity.of, l.got);
    if r.Waiter? then AsResponse(v) else AsRequest(v)
  }

  /** The request as `postResponse` writes it back. */
  function Completion(v: Value): Value { OfRequest(AsRequest(v).request.(completed := true)) }

  function Answer(p: ReplyId, y: Reply): Value { OfResponse(Response(y.backend, y.id, y.contents, p)) }

  /** `waitForResponse` asks again if the response is empty; `postResponse` starts its two writes. */
  function Concluded(s: State, r: Reader, v: Value, from: seq<Value>): State
    requires r in s.searches && (r.Replier? ==> r.reply in s.replies)
  {
    match r
    case Waiter(_) => SetSearch(s, r, if |ContentsOf(v)| > 0 then Returned(v, from) else Asking)
    case Replier(p) =>
      SetSearch(s, r, Returned(v, from))
      .(writes := s.writes[Completer(p) := Write(Completion(v), Begun)]
                          [Responder(p) := Write(Answer(p, s.replies[p]), Begun)])
  }

  function ReadNext(env: Env, s: State, a: ReadStep): State
    requires ReadEnabled(s, a)
  {
    var r := a.reader;
    var q := s.searches[r];
    match a
    case AskCache(_) => SetSearch(s, r, AskedCache(env, s, r, q))
    case AskStore(_) => SetSearch(s, r, AskedStore(env, s, r, q))
    case FetchPart(_) => SetSearch(s, r, FetchedPart(s.parts, q.search))
    case FinishLoad(_) => SetSearch(s, r, Ready(LoadedValue(r, q.search), q.search.from))
    case Conclude(_) => Concluded(s, r, q.search.value, q.search.from)
    case Retry(_) => SetSearch(s, r, Asking)
  }

  function SetProgress(s: State, w: Writer, progress: Progress): State
    requires w in s.writes
  {
    s.(writes := s.writes[w := s.writes[w].(progress := progress)])
  }

  function CacheValue(env: Env, s: State, v: Value, lands: bool): State {
    if lands && |ContentsOf(v)| < CACHE_ENTRY_SIZE_LIMIT
    then s.(memcache := s.memcache[CacheKeyOf(env, v) := Cached(v)])
    else s
  }

  function PartNameOf(v: Value, i: nat): GoString { PartName(BlobName(IdOf(v), RoleOf(v)), i) }

  function PartOf(v: Value, i: nat): Part
    requires i < NumParts(ContentsOf(v))
  {
    Part(BlobPart(PartNameOf(v, i), PartBytes(Overflow(ContentsOf(v)), i), 0), v, i)
  }

  function EntityOf(v: Value): Entity { Entity(BlobOf(ContentsOf(v), BlobName(IdOf(v), RoleOf(v))), v) }

  function StoreValue(env: Env, s: State, v: Value): State { s.(store := s.store[KeyOf(env, v) := EntityOf(v)]) }

  function WriteNext(env: Env, s: State, a: WriteStep): State
    requires WriteEnabled(s, a)
  {
    var w := a.writer;
    var v := s.writes[w].value;
    match a
    case TryCache(_, lands) => CacheValue(env, SetProgress(s, w, Storing({})), v, lands)
    case PutPart(_, i) =>
      var p := s.writes[w].progress;
      SetProgress(s, w, if p.Storing? then Storing(p.done + {i}) else p)
      .(parts := s.parts[PartNameOf(v, i) := PartOf(v, i)])
    case FailPart(_) => SetProgress(s, w, PartFailed)
    case PutEntity(_, lands) =>
      if lands then StoreValue(env, SetProgress(s, w, Done), v) else SetProgress(s, w, EntityFailed)
    case LateEntity(_) => StoreValue(env, SetProgress(s, w, Landed), v)
  }

  function SystemNext(env: Env, s: State, a: SystemStep): State
  {
    match a
    case Evict(k) => s.(memcache := s.memcache - {k})
    case ExpireEntity(e) => s.(store := s.store - {e})
    case ExpirePart(n) => s.(parts := s.parts - {n})
    case CachePage(user, url, page) =>
      s.(memcache := s.memcache[PageKey(env.printable, user, url) := CachedPage(user, url, page)])
  }

  function Next(env: Env, s: State, a: Step): State
    requires Enabled(env, s, a)
  {
    match a
    case OfCall(b) => CallNext(env, s, b)
    case OfRead(b) => ReadNext(env, s, b)
    case OfWrite(b) => WriteNext(env, s, b)
    case OfSystem(b) => SystemNext(env, s, b)
  }

  predicate Legal(env: Env, s: State, run: seq<Step>)
    decreases |run|
  {
    run == [] || (Enabled(env, s, run[0]) && Legal(env, Next(env, s, run[0]), run[1..]))
  }

  function Final(env: Env, s: State, run: seq<Step>): State
    requires Legal(env, s, run)
    decreases |run|
  {
    if run == [] then s else Final(env, Next(env, s, run[0]), run[1..])
  }

  // ---------------------------------------------------------------- the invariant

  predicate HasBegun(s: State, id: GoString) {
    Submitter(id) in s.writes && s.writes[Submitter(id)].progress != Begun
  }

  /** `r` says about its request what the user submitted, and the submission has begun to write it. */
  predicate True(s: State, r: Request) {
    && r.id in s.submissions
    && r.(completed := false) == Submitted(r.id, s.submissions[r.id])
    && HasBegun(s, r.id)
  }

  /** The reply got past `ReadRequest`: the request exists and was routed to this backend. */
  predicate Accepted(s: State, p: ReplyId) {
    && Responder(p) in s.writes && p in s.replies
    && s.replies[p].id in s.submissions && s.submissions[s.replies[p].id].backend == s.replies[p].backend
  }

  /** `x` was posted by the backend that its request was routed to. */
  predicate Authentic(s: State, x: Response) {
    Accepted(s, x.poster) && OfResponse(x) == Answer(x.poster, s.replies[x.poster])
  }

  predicate Sourced(s: State, v: Value) {
    match v
    case OfRequest(r) => True(s, r)
    case OfResponse(x) => Authentic(s, x)
  }

  predicate EntryInv(env: Env, s: State, k: string, e: Entry) {
    match e
    case Cached(v) => k == CacheKeyOf(env, v) && Sourced(s, v) && |ContentsOf(v)| < CACHE_ENTRY_SIZE_LIMIT
    case CachedPage(user, url, _) => k == PageKey(env.printable, user, url)
  }

  predicate EntityInv(env: Env, s: State, k: Key, e: Entity) {
    k == KeyOf(env, e.of) && Sourced(s, e.of) && e == EntityOf(e.of)
  }

  predicate PartInv(s: State, name: GoString, part: Part) {
    && part.index < NumParts(ContentsOf(part.of)) && part == PartOf(part.of, part.index)
    && name == PartNameOf(part.of, part.index) && Sourced(s, part.of)
  }

  predicate WriteInv(s: State, w: Writer, v: Value) {
    match w
    case Submitter(id) => id in s.submissions && v == OfRequest(Submitted(id, s.submissions[id]))
    case Completer(p) =>
      && p in s.replies && v.OfRequest? && True(s, v.request) && v.request.completed
      && v.request.id == s.replies[p].id && v.request.backend == s.replies[p].backend
    case Responder(p) =>
      Accepted(s, p) && v == Answer(p, s.replies[p]) && HasBegun(s, s.replies[p].id)
  }

  function AllContents(from: seq<Value>): (r: seq<Bytes>)
    ensures |r| == |from|
  {
    seq(|from|, i requires 0 <= i < |from| => ContentsOf(from[i]))
  }

  /** Each part came from a value of the same request and kind, of which it is the part of that number. */
  predicate PartsFit(s: State, from: seq<Value>, id: GoString, role: Role) {
    forall i :: 0 <= i < |from| ==>
      Sourced(s, from[i]) && IdOf(from[i]) == id && RoleOf(from[i]) == role && i < NumParts(ContentsOf(from[i]))
  }

  /** `contents` was put together from the inlined bytes of `first` and the parts of `from`. */
  predicate PutTogether(first: Bytes, from: seq<Value>, contents: Bytes) {
    Supplied(AllContents(from)) && contents == Assembled(first, AllContents(from))
  }

  predicate IsFor(q: Inquiry, r: Reader, v: Value) {
    RoleOf(v) == RoleFor(r) && IdOf(v) == q.id && BackendOf(v) == q.backend
  }

  predicate LoadInv(s: State, r: Reader, q: Inquiry, e: Entity, got: Bytes, from: seq<Value>) {
    && e == EntityOf(e.of) && Sourced(s, e.of) && IsFor(q, r, e.of)
    && PartsFit(s, from, q.id, RoleFor(r)) && PutTogether(ContentsOf(e.of), from, got)
    && |from| <= NumParts(ContentsOf(e.of))
  }

  /** A request that was found is the submitted one; a response that was found was put together from
      responses to this request, all posted by the backend that it was routed to. */
  predicate FoundInv(s: State, r: Reader, q: Inquiry, v: Value, from: seq<Value>) {
    && IsFor(q, r, v)
    && (v.OfRequest? ==> True(s, v.request))
    && (v.OfResponse? ==> MadeOfReplies(s, v.response, from))
  }

  predicate MadeOfReplies(s: State, x: Response, from: seq<Value>) {
    && Accepted(s, x.poster)
    && var y := s.replies[x.poster];
    && x.(contents := y.contents) == Answer(x.poster, y).response
    && PartsFit(s, from, x.id, ResponseBlob) && |from| == NumParts(y.contents)
    && PutTogether(y.contents, from, x.contents)
  }

  predicate SearchInv(s: State, r: Reader, q: Inquiry) {
    && (match r
        case Waiter(id) => q.id == id && id in s.submissions && s.submissions[id].backend == q.backend
        case Replier(p) => p in s.replies && q.id == s.replies[p].id && q.backend == s.replies[p].backend)
    && (match q.search
        case Loading(e, got, from) => LoadInv(s, r, q, e, got, from)
        case Ready(v, from) => FoundInv(s, r, q, v, from)
        case Returned(v, from) => FoundInv(s, r, q, v, from) && (r.Waiter? ==> ContentsOf(v) != [])
        case _ => true)
  }

  ghost predicate Inv(env: Env, s: State) {
    && (forall k :: k in s.memcache ==> EntryInv(env, s, k, s.memcache[k]))
    && (forall k :: k in s.store ==> EntityInv(env, s, k, s.store[k]))
    && (forall n :: n in s.parts ==> PartInv(s, n, s.parts[n]))
    && (forall w :: w in s.writes ==> WriteInv(s, w, s.writes[w].value))
    && (forall r :: r in s.searches ==> SearchInv(s, r, s.searches[r]))
  }

  // ---------------------------------------------------------------- what stays true

  /** Nothing that the invariant speaks of is lost from `s` to `t`. */
  ghost predicate Grows(s: State, t: State) {
    && (forall id :: id in s.submissions ==> id in t.submissions && t.submissions[id] == s.submissions[id])
    && (forall p :: p in s.replies ==> p in t.replies && t.replies[p] == s.replies[p])
    && (forall w :: w in s.writes ==> w in t.writes)
    && (forall id :: HasBegun(s, id) ==> HasBegun(t, id))
  }

  lemma SourcedGrows(s: State, t: State, v: Value)
    requires Grows(s, t) && Sourced(s, v)
    ensures Sourced(t, v)
  {
  }

  lemma PartsFitGrows(s: State, t: State, from: seq<Value>, id: GoString, role: Role)
    requires Grows(s, t) && PartsFit(s, from, id, role)
    ensures PartsFit(t, from, id, role)
  {
    forall i | 0 <= i < |from| ensures Sourced(t, from[i]) {
      SourcedGrows(s, t, from[i]);
    }
  }

  lemma WriteGrows(s: State, t: State, w: Writer, v: Value)
    requires Grows(s, t) && WriteInv(s, w, v)
    ensures WriteInv(t, w, v)
  {
  }

  lemma SearchGrows(s: State, t: State, r: Reader, q: Inquiry)
    requires Grows(s, t) && SearchInv(s, r, q)
    ensures SearchInv(t, r, q)
  {
    match q.search
    case Loading(e, got, from) =>
      SourcedGrows(s, t, e.of);
      PartsFitGrows(s, t, from, q.id, RoleFor(r));
    case Ready(v, from) => FoundGrows(s, t, r, q, v, from);
    case Returned(v, from) => FoundGrows(s, t, r, q, v, from);
    case _ =>
  }

  lemma FoundGrows(s: State, t: State, r: Reader, q: Inquiry, v: Value, from: seq<Value>)
    requires Grows(s, t) && FoundInv(s, r, q, v, from)
    ensures FoundInv(t, r, q, v, from)
  {
    match v
    case OfRequest(x) => SourcedGrows(s, t, v);
    case OfResponse(x) => PartsFitGrows(s, t, from, x.id, ResponseBlob);
  }

  /** If records only grow and everything new is sound, the invariant is kept. */
  lemma GrowthKeepsInv(env: Env, s: State, t: State)
    requires Inv(env, s) && Grows(s, t)
    requires forall k :: k in t.memcache ==>
      (k in s.memcache && t.memcache[k] == s.memcache[k]) || EntryInv(env, t, k, t.memcache[k])
    requires forall k :: k in t.store ==> (k in s.store && t.store[k] == s.store[k]) || EntityInv(env, t, k, t.store[k])
    requires forall n :: n in t.parts ==> (n in s.parts && t.parts[n] == s.parts[n]) || PartInv(t, n, t.parts[n])
    requires forall w :: w in t.writes ==>
      (w in s.writes && t.writes[w].value == s.writes[w].value) || WriteInv(t, w, t.writes[w].value)
    requires forall r :: r in t.searches ==>
      (r in s.searches && t.searches[r] == s.searches[r]) || SearchInv(t, r, t.searches[r])
    ensures Inv(env, t)
  {
    forall k | k in t.memcache ensures EntryInv(env, t, k, t.memcache[k]) {
      if k in s.memcache && t.memcache[k] == s.memcache[k] && t.memcache[k].Cached? {
        assert EntryInv(env, s, k, s.memcache[k]);
        SourcedGrows(s, t, t.memcache[k].value);
      }
    }
    forall k | k in t.store ensures EntityInv(env, t, k, t.store[k]) {
      if k in s.store && t.store[k] == s.store[k] {
        assert EntityInv(env, s, k, s.store[k]);
        SourcedGrows(s, t, t.store[k].of);
      }
    }
    forall n | n in t.parts ensures PartInv(t, n, t.parts[n]) {
      if n in s.parts && t.parts[n] == s.parts[n] {
        assert PartInv(s, n, s.parts[n]);
        SourcedGrows(s, t, t.parts[n].of);
      }
    }
    forall w | w in t.writes ensures WriteInv(t, w, t.writes[w].value) {
      if w in s.writes && t.writes[w].value == s.writes[w].value {
        WriteGrows(s, t, w, s.writes[w].value);
      }
    }
    forall r | r in t.searches ensures SearchInv(t, r, t.searches[r]) {
      if r in s.searches && t.searches[r] == s.searches[r] {
        SearchGrows(s, t, r, s.searches[r]);
      }
    }
  }

  // ---------------------------------------------------------------- keys tell kinds apart

  /** Only the keys tell requests, responses and pages apart, and they do: what is read under a key is
      always of the kind that the reader takes it for, and of the request that it asks for. */
  lemma KeysTellKindsApart(env: Env, s: State, r: Reader)
    requires Inv(env, s) && r in s.searches
    ensures
      var q := s.searches[r];
      var k := CacheKeyFor(env, r, q);
      k in s.memcache ==> s.memcache[k].Cached? && IsFor(q, r, s.memcache[k].value)
    ensures
      var q := s.searches[r];
      var k := KeyFor(env, r, q);
      k in s.store ==> IsFor(q, r, s.store[k].of)
  {
    var q := s.searches[r];
    assert SearchInv(s, r, q);
    if CacheKeyFor(env, r, q) in s.memcache {
      CacheKeyTells(env, s, r, q);
    }
    if KeyFor(env, r, q) in s.store {
      StoreKeyTells(env, s, r, q);
    }
  }

  lemma CacheKeyTells(env: Env, s: State, r: Reader, q: Inquiry)
    requires CacheKeyFor(env, r, q) in s.memcache
    requires EntryInv(env, s, CacheKeyFor(env, r, q), s.memcache[CacheKeyFor(env, r, q)])
    ensures
      var e := s.memcache[CacheKeyFor(env, r, q)];
      e.Cached? && IsFor(q, r, e.value)
  {
    var e, pr := s.memcache[CacheKeyFor(env, r, q)], env.printable;
    match e
    case CachedPage(user, url, _) => KeySpacesDisjoint(pr, q.backend, q.id, user, url);
    case Cached(v) =>
      match v
      case OfRequest(x) =>
        KeySpacesDisjoint(pr, x.backend, x.id, q.backend, q.id);
        RequestKeyInjective(pr, x.backend, x.id, q.backend, q.id);
      case OfResponse(x) =>
        KeySpacesDisjoint(pr, q.backend, q.id, x.backend, x.id);
        ResponseKeyInjective(pr, x.backend, x.id, q.backend, q.id);
  }

  lemma StoreKeyTells(env: Env, s: State, r: Reader, q: Inquiry)
    requires SearchInv(s, r, q) && KeyFor(env, r, q) in s.store
    requires EntityInv(env, s, KeyFor(env, r, q), s.store[KeyFor(env, r, q)])
    ensures IsFor(q, r, s.store[KeyFor(env, r, q)].of)
  {
    var v := s.store[KeyFor(env, r, q)].of;
    RequestKindInjective(env.printable, BackendOf(v), q.backend);
    RequestKindInjective(env.printable, q.backend, q.backend);
  }

  // ---------------------------------------------------------------- every step keeps the invariant

  lemma SubmitKeepsInv(env: Env, s: State, a: CallStep)
    requires Inv(env, s) && CallEnabled(env, s, a) && a.Submit?
    ensures Inv(env, CallNext(env, s, a))
  {
    var t := CallNext(env, s, a);
    var w := Submitter(a.id);
    assert w in s.writes ==> WriteInv(s, w, s.writes[w].value);
    assert WriteInv(t, w, t.writes[w].value);
    GrowthKeepsInv(env, s, t);
  }

  lemma AwaitKeepsInv(env: Env, s: State, id: GoString)
    requires Inv(env, s) && CallEnabled(env, s, Await(id))
    ensures Inv(env, CallNext(env, s, Await(id)))
  {
    var t := CallNext(env, s, Await(id));
    assert SearchInv(t, Waiter(id), t.searches[Waiter(id)]);
    GrowthKeepsInv(env, s, t);
  }

  lemma BeginReplyKeepsInv(env: Env, s: State, a: CallStep)
    requires Inv(env, s) && CallEnabled(env, s, a) && a.BeginReply?
    ensures Inv(env, CallNext(env, s, a))
  {
    var t := CallNext(env, s, a);
    assert SearchInv(t, Replier(a.reply), t.searches[Replier(a.reply)]);
    GrowthKeepsInv(env, s, t);
  }

  lemma CallStepKeepsInv(env: Env, s: State, a: CallStep)
    requires Inv(env, s) && CallEnabled(env, s, a)
    ensures Inv(env, CallNext(env, s, a))
  {
    match a
    case Submit(_, _, _, _, _) => SubmitKeepsInv(env, s, a);
    case Await(id) => AwaitKeepsInv(env, s, id);
    case List(_, _) => GrowthKeepsInv(env, s, CallNext(env, s, a));
    case BeginReply(_, _, _, _) => BeginReplyKeepsInv(env, s, a);
  }

  /** A search may go on to anything sound. */
  lemma SearchKeepsInv(env: Env, s: State, r: Reader, search: Search)
    requires Inv(env, s) && r in s.searches
    requires SearchInv(s, r, s.searches[r].(search := search))
    ensures Inv(env, SetSearch(s, r, search))
  {
    var t := SetSearch(s, r, search);
    assert Grows(s, t);
    SearchGrows(s, t, r, t.searches[r]);
    GrowthKeepsInv(env, s, t);
  }

  lemma AskCacheKeepsInv(env: Env, s: State, r: Reader)
    requires Inv(env, s) && ReadEnabled(s, AskCache(r))
    ensures Inv(env, ReadNext(env, s, AskCache(r)))
  {
    var q := s.searches[r];
    var k := CacheKeyFor(env, r, q);
    KeysTellKindsApart(env, s, r);
    assert SearchInv(s, r, q);
    if k in s.memcache {
      var v := s.memcache[k].value;
      assert EntryInv(env, s, k, s.memcache[k]);
      assert Decode(env, r, s.memcache[k]) == Some(v);
      SmallIsFound(s, r, q, v);
    }
    SearchKeepsInv(env, s, r, AskedCache(env, s, r, q));
  }

  lemma SmallIsFound(s: State, r: Reader, q: Inquiry, v: Value)
    requires IsFor(q, r, v) && Sourced(s, v) && |ContentsOf(v)| < FIELD_BYTE_LIMIT
    ensures FoundInv(s, r, q, v, [])
  {
    assert AllContents([]) == [];
  }

  lemma EntityLoads(s: State, r: Reader, q: Inquiry, e: Entity)
    requires e == EntityOf(e.of) && Sourced(s, e.of) && IsFor(q, r, e.of)
    ensures LoadInv(s, r, q, e, e.bytes.inlined, [])
  {
    assert AllContents([]) == [];
  }

  lemma AskStoreKeepsInv(env: Env, s: State, r: Reader)
    requires Inv(env, s) && ReadEnabled(s, AskStore(r))
    ensures Inv(env, ReadNext(env, s, AskStore(r)))
  {
    var q := s.searches[r];
    var k := KeyFor(env, r, q);
    KeysTellKindsApart(env, s, r);
    assert SearchInv(s, r, q);
    if k in s.store {
      assert EntityInv(env, s, k, s.store[k]);
      EntityLoads(s, r, q, s.store[k]);
    }
    SearchKeepsInv(env, s, r, AskedStore(env, s, r, q));
  }

  /** The part that is fetched is the one of that number of some value of the same request and kind. */
  lemma FetchKeepsLoad(s: State, r: Reader, q: Inquiry, name: GoString)
    requires q.search.Loading? && LoadInv(s, r, q, q.search.entity, q.search.got, q.search.from)
    requires |q.search.from| < |q.search.entity.bytes.parts| && name == q.search.entity.bytes.parts[|q.search.from|]
    requires name in s.parts && PartInv(s, name, s.parts[name])
    ensures
      var l := FetchedPart(s.parts, q.search);
      l.Loading? && LoadInv(s, r, q, l.entity, l.got, l.from)
  {
    var l, part := q.search, s.parts[name];
    var i, v := |l.from|, part.of;
    PartsNeverCollide(q.id, RoleFor(r), i, IdOf(v), RoleOf(v), part.index);
    OneMorePart(s, l.from, v, q.id, RoleFor(r));
    assert AllContents(l.from + [v]) == AllContents(l.from) + [ContentsOf(v)];
    assert AllContents(l.from + [v])[..i] == AllContents(l.from);
  }

  lemma OneMorePart(s: State, from: seq<Value>, v: Value, id: GoString, role: Role)
    requires PartsFit(s, from, id, role)
    requires Sourced(s, v) && IdOf(v) == id && RoleOf(v) == role && |from| < NumParts(ContentsOf(v))
    ensures PartsFit(s, from + [v], id, role) && Supplied(AllContents(from + [v]))
  {
    var longer := from + [v];
    forall j | 0 <= j < |longer|
      ensures Sourced(s, longer[j]) && IdOf(longer[j]) == id && RoleOf(longer[j]) == role
      ensures j < NumParts(ContentsOf(longer[j])) && AllContents(longer)[j] == ContentsOf(longer[j])
    {
      assert j < |from| ==> longer[j] == from[j];
    }
  }

  lemma FetchKeepsInv(env: Env, s: State, r: Reader)
    requires Inv(env, s) && ReadEnabled(s, FetchPart(r))
    ensures Inv(env, ReadNext(env, s, FetchPart(r)))
  {
    var q := s.searches[r];
    var name := q.search.entity.bytes.parts[|q.search.from|];
    assert SearchInv(s, r, q);
    if name in s.parts {
      assert PartInv(s, name, s.parts[name]);
      FetchKeepsLoad(s, r, q, name);
    }
    SearchKeepsInv(env, s, r, FetchedPart(s.parts, q.search));
  }

  /** All values of one request have the same contents, so its parts make up the submitted contents. */
  lemma RequestIsWhole(s: State, r: Reader, q: Inquiry, e: Entity, got: Bytes, from: seq<Value>)
    requires LoadInv(s, r, q, e, got, from) && e.of.OfRequest? && |from| == |e.bytes.parts|
    ensures got == ContentsOf(e.of)
  {
    var c := ContentsOf(e.of);
    forall i | 0 <= i < |from| ensures AllContents(from)[i] == c {
      assert Sourced(s, from[i]);
    }
    AssembledSame(c, AllContents(from));
  }

  lemma FinishKeepsInv(env: Env, s: State, r: Reader)
    requires Inv(env, s) && ReadEnabled(s, FinishLoad(r))
    ensures Inv(env, ReadNext(env, s, FinishLoad(r)))
  {
    var q := s.searches[r];
    assert SearchInv(s, r, q);
    var l := q.search;
    var v := LoadedValue(r, l);
    if r.Replier? {
      RequestIsWhole(s, r, q, l.entity, l.got, l.from);
      assert v == l.entity.of;
    } else {
      assert v == WithContents(l.entity.of, l.got);
      assert MadeOfReplies(s, v.response, l.from);
    }
    assert FoundInv(s, r, q, v, l.from);
    SearchKeepsInv(env, s, r, Ready(v, l.from));
  }

  lemma ConcludeKeepsInv(env: Env, s: State, r: Reader)
    requires Inv(env, s) && ReadEnabled(s, Conclude(r))
    ensures Inv(env, ReadNext(env, s, Conclude(r)))
  {
    var q := s.searches[r];
    var v, from := q.search.value, q.search.from;
    assert SearchInv(s, r, q);
    match r
    case Waiter(_) => SearchKeepsInv(env, s, r, if |ContentsOf(v)| > 0 then Returned(v, from) else Asking);
    case Replier(p) =>
      SearchKeepsInv(env, s, r, Returned(v, from));
      StartKeepsInv(env, SetSearch(s, r, Returned(v, from)), p, v);
  }

  /** The two writes of a reply that has read its request. */
  lemma StartKeepsInv(env: Env, s: State, p: ReplyId, v: Value)
    requires Inv(env, s) && p in s.replies && v.OfRequest? && True(s, v.request)
    requires v.request.id == s.replies[p].id && v.request.backend == s.replies[p].backend
    ensures
      Inv(env, s.(writes := s.writes[Completer(p) := Write(Completion(v), Begun)]
                                    [Responder(p) := Write(Answer(p, s.replies[p]), Begun)]))
  {
    var t := s.(writes := s.writes[Completer(p) := Write(Completion(v), Begun)]
                                  [Responder(p) := Write(Answer(p, s.replies[p]), Begun)]);
    assert Grows(s, t);
    assert WriteInv(t, Completer(p), Completion(v));
    assert WriteInv(t, Responder(p), Answer(p, s.replies[p]));
    GrowthKeepsInv(env, s, t);
  }

  lemma ReadStepKeepsInv(env: Env, s: State, a: ReadStep)
    requires Inv(env, s) && ReadEnabled(s, a)
    ensures Inv(env, ReadNext(env, s, a))
  {
    match a
    case AskCache(r) => AskCacheKeepsInv(env, s, r);
    case AskStore(r) => AskStoreKeepsInv(env, s, r);
    case FetchPart(r) => FetchKeepsInv(env, s, r);
    case FinishLoad(r) => FinishKeepsInv(env, s, r);
    case Conclude(r) => ConcludeKeepsInv(env, s, r);
    case Retry(r) =>
      assert SearchInv(s, r, s.searches[r]);
      SearchKeepsInv(env, s, r, Asking);
  }

  /** A write that has begun writes what was submitted or posted. */
  lemma BegunIsSourced(s: State, w: Writer)
    requires w in s.writes && WriteInv(s, w, s.writes[w].value) && s.writes[w].progress != Begun
    ensures Sourced(s, s.writes[w].value)
  {
  }

  lemma ProgressKeepsInv(env: Env, s: State, w: Writer, progress: Progress)
    requires Inv(env, s) && w in s.writes && progress != Begun
    ensures Inv(env, SetProgress(s, w, progress)) && Sourced(SetProgress(s, w, progress), s.writes[w].value)
  {
    var t := SetProgress(s, w, progress);
    GrowthKeepsInv(env, s, t);
    BegunIsSourced(t, w);
  }

  lemma CachingKeepsInv(env: Env, s: State, v: Value, lands: bool)
    requires Inv(env, s) && Sourced(s, v)
    ensures Inv(env, CacheValue(env, s, v, lands))
  {
    var t := CacheValue(env, s, v, lands);
    assert Grows(s, t);
    SourcedGrows(s, t, v);
    GrowthKeepsInv(env, s, t);
  }

  lemma StoringKeepsInv(env: Env, s: State, v: Value)
    requires Inv(env, s) && Sourced(s, v)
    ensures Inv(env, StoreValue(env, s, v))
  {
    var t := StoreValue(env, s, v);
    assert Grows(s, t);
    SourcedGrows(s, t, v);
    GrowthKeepsInv(env, s, t);
  }

  lemma PuttingKeepsInv(env: Env, s: State, v: Value, i: nat)
    requires Inv(env, s) && Sourced(s, v) && i < NumParts(ContentsOf(v))
    ensures Inv(env, s.(parts := s.parts[PartNameOf(v, i) := PartOf(v, i)]))
  {
    var t := s.(parts := s.parts[PartNameOf(v, i) := PartOf(v, i)]);
    assert Grows(s, t);
    SourcedGrows(s, t, v);
    GrowthKeepsInv(env, s, t);
  }

  lemma WriteStepKeepsInv(env: Env, s: State, a: WriteStep)
    requires Inv(env, s) && WriteEnabled(s, a)
    ensures Inv(env, WriteNext(env, s, a))
  {
    var w := a.writer;
    var v, p := s.writes[w].value, s.writes[w].progress;
    match a
    case TryCache(_, lands) =>
      ProgressKeepsInv(env, s, w, Storing({}));
      CachingKeepsInv(env, SetProgress(s, w, Storing({})), v, lands);
    case PutPart(_, i) =>
      var next := if p.Storing? then Storing(p.done + {i}) else p;
      ProgressKeepsInv(env, s, w, next);
      PuttingKeepsInv(env, SetProgress(s, w, next), v, i);
    case FailPart(_) =>
      ProgressKeepsInv(env, s, w, PartFailed);
    case PutEntity(_, lands) =>
      ProgressKeepsInv(env, s, w, if lands then Done else EntityFailed);
      if lands {
        StoringKeepsInv(env, SetProgress(s, w, Done), v);
      }
    case LateEntity(_) =>
      ProgressKeepsInv(env, s, w, Landed);
      StoringKeepsInv(env, SetProgress(s, w, Landed), v);
  }

  lemma LossKeepsInv(env: Env, s: State, memcache: map<string, Entry>, store: map<Key, Entity>,
                     parts: map<GoString, Part>)
    requires Inv(env, s)
    requires forall k :: k in memcache ==> k in s.memcache && memcache[k] == s.memcache[k]
    requires forall k :: k in store ==> k in s.store && store[k] == s.store[k]
    requires forall n :: n in parts ==> n in s.parts && parts[n] == s.parts[n]
    ensures Inv(env, s.(memcache := memcache, store := store, parts := parts))
  {
    GrowthKeepsInv(env, s, s.(memcache := memcache, store := store, parts := parts));
  }

  lemma SystemStepKeepsInv(env: Env, s: State, a: SystemStep)
    requires Inv(env, s)
    ensures Inv(env, SystemNext(env, s, a))
  {
    match a
    case Evict(k) => LossKeepsInv(env, s, s.memcache - {k}, s.store, s.parts);
    case ExpireEntity(e) => LossKeepsInv(env, s, s.memcache, s.store - {e}, s.parts);
    case ExpirePart(n) => LossKeepsInv(env, s, s.memcache, s.store, s.parts - {n});
    case CachePage(_, _, _) => PageKeepsInv(env, s, a);
  }

  lemma PageKeepsInv(env: Env, s: State, a: SystemStep)
    requires Inv(env, s) && a.CachePage?
    ensures Inv(env, SystemNext(env, s, a))
  {
    var t := SystemNext(env, s, a);
    var k := PageKey(env.printable, a.user, a.url);
    assert EntryInv(env, t, k, t.memcache[k]);
    GrowthKeepsInv(env, s, t);
  }

  lemma StepKeepsInv(env: Env, s: State, a: Step)
    requires Inv(env, s) && Enabled(env, s, a)
    ensures Inv(env, Next(env, s, a))
  {
    match a
    case OfCall(b) => CallStepKeepsInv(env, s, b);
    case OfRead(b) => ReadStepKeepsInv(env, s, b);
    case OfWrite(b) => WriteStepKeepsInv(env, s, b);
    case OfSystem(b) => SystemStepKeepsInv(env, s, b);
  }

  lemma {:induction false} RunKeepsInv(env: Env, s: State, run: seq<Step>)
    requires Inv(env, s) && Legal(env, s, run)
    ensures Inv(env, Final(env, s, run))
    decreases |run|
  {
    if run != [] {
      StepKeepsInv(env, s, run[0]);
      RunKeepsInv(env, Next(env, s, run[0]), run[1..]);
    }
  }

  // ---------------------------------------------------------------- what can be reached

  predicate StepAt(env: Env, path: seq<State>, run: seq<Step>, i: nat)
    requires i < |run| && i + 1 < |path|
  {
    Enabled(env, path[i], run[i]) && path[i + 1] == Next(env, path[i], run[i])
  }

  /** The run leads through the states of the path. */
  ghost predicate IsPath(env: Env, path: seq<State>, run: seq<Step>) {
    && |path| == |run| + 1
    && forall i: nat {:trigger StepAt(env, path, run, i)} :: i < |run| ==> StepAt(env, path, run, i)
  }

  /** Some run leads from `s` to `t`. */
  ghost predicate Reaches(env: Env, s: State, t: State) {
    exists path, run :: IsPath(env, path, run) && path[0] == s && path[|run|] == t
  }

  lemma ReachesItself(env: Env, s: State)
    ensures Reaches(env, s, s)
  {
    assert IsPath(env, [s], []);
  }

  lemma ReachesNext(env: Env, s: State, a: Step)
    requires Enabled(env, s, a)
    ensures Reaches(env, s, Next(env, s, a))
  {
    var path := [s, Next(env, s, a)];
    assert StepAt(env, path, [a], 0);
    assert IsPath(env, path, [a]);
  }

  lemma ReachesOn(env: Env, s: State, t: State, u: State)
    requires Reaches(env, s, t) && Reaches(env, t, u)
    ensures Reaches(env, s, u)
  {
    var path, run :| IsPath(env, path, run) && path[0] == s && path[|run|] == t;
    var path', run' :| IsPath(env, path', run') && path'[0] == t && path'[|run'|] == u;
    var states, steps := path + path'[1..], run + run';
    forall i: nat | i < |steps| ensures StepAt(env, states, steps, i) {
      if i < |run| {
        assert StepAt(env, path, run, i);
      } else {
        assert StepAt(env, path', run', i - |run|);
      }
    }
    assert IsPath(env, states, steps);
  }

  lemma ReachesBefore(env: Env, s: State, a: Step, t: State)
    requires Enabled(env, s, a) && Reaches(env, Next(env, s, a), t)
    ensures Reaches(env, s, t)
  {
    ReachesNext(env, s, a);
    ReachesOn(env, s, Next(env, s, a), t);
  }

  lemma {:induction false} RunReaches(env: Env, s: State, run: seq<Step>)
    requires Legal(env, s, run)
    ensures Reaches(env, s, Final(env, s, run))
    decreases |run|
  {
    if run == [] {
      ReachesItself(env, s);
    } else {
      RunReaches(env, Next(env, s, run[0]), run[1..]);
      ReachesBefore(env, s, run[0], Final(env, s, run));
    }
  }

  lemma {:induction false} PathKeepsInv(env: Env, path: seq<State>, run: seq<Step>, i: nat)
    requires IsPath(env, path, run) && Inv(env, path[0]) && i <= |run|
    ensures Inv(env, path[i])
  {
    if i > 0 {
      PathKeepsInv(env, path, run, i - 1);
      assert StepAt(env, path, run, i - 1);
      StepKeepsInv(env, path[i - 1], run[i - 1]);
    }
  }

  lemma ReachedKeepsInv(env: Env, s: State, t: State)
    requires Inv(env, s) && Reaches(env, s, t)
    ensures Inv(env, t)
  {
    var path, run :| IsPath(env, path, run) && path[0] == s && path[|run|] == t;
    PathKeepsInv(env, path, run, |run|);
  }
}
