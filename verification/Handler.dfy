/** What one request does: lookup, variant match, freshness, hit, miss, revalidation, background refresh. */
module Handler {
  import opened KeyBytes
  import opened StoreState
  import opened Freshness
  import VariantKey
  import EsiParse
  import EsiScan

  // ---------- Configuration ----------

  /** Compression may fail; `Lossless` says what it owes when it does not. */
  datatype Codec = Codec(compress: Bytes -> Option<Bytes>, decompress: Bytes -> Option<Bytes>)

  /** Header parsing is a parameter: every function of the header fields is allowed. `esi` says which responses
      the ESI processor takes, `cleaned` what it leaves of their fields. */
  datatype Config = Config(parse: Headers -> Parsed, date: Bytes -> Option<Time>, seconds: Bytes -> nat,
                           tagsOf: Headers -> seq<Tag>, esi: Headers -> bool, cleaned: Headers -> Headers,
                           precompressed: Bytes -> bool, codecs: map<Bytes, Codec>, configured: Bytes,
                           convertHead: bool, closed: bool)

  const NO_CODEC: Bytes := "none"
  const LZ4: Bytes := "lz4"
  const MIN_COMPRESSED := 256

  ghost predicate Lossless(cfg: Config) {
    && NO_CODEC in cfg.codecs
    && (forall x :: cfg.codecs[NO_CODEC].decompress(x) == Some(x))
    && (forall n, x :: n in cfg.codecs && cfg.codecs[n].compress(x).Some?
          ==> cfg.codecs[n].decompress(cfg.codecs[n].compress(x).value) == Some(x))
    && [] !in cfg.codecs
  }

  /** No codec makes a body out of nothing. */
  ghost predicate Grounded(cfg: Config) {
    forall n :: n in cfg.codecs && cfg.codecs[n].decompress([]).Some? ==> cfg.codecs[n].decompress([]).value == []
  }

  const IDENTITY := Codec((x: Bytes) => Some(x), (x: Bytes) => Some(x))

  /** Storing bodies uncompressed meets both conditions. */
  lemma IdentityIsLossless(cfg: Config)
    requires cfg.codecs == map[NO_CODEC := IDENTITY]
    ensures Lossless(cfg) && Grounded(cfg)
  {
  }

  // ---------- Header fields (names in canonical form) ----------

  const HOP_BY_HOP: set<Bytes> := {"Connection", "Keep-Alive", "Proxy-Authenticate", "Proxy-Authorization",
                                   "Proxy-Connection", "Te", "Trailers", "Transfer-Encoding", "Upgrade"}
  const SET_COOKIE: Bytes := "Set-Cookie"
  const CONNECTION: Bytes := "Connection"
  const VARY: Bytes := "Vary"
  const AGE: Bytes := "Age"
  const ETAG: Bytes := "Etag"
  const LAST_MODIFIED: Bytes := "Last-Modified"
  const CONTENT_ENCODING: Bytes := "Content-Encoding"
  const CONTENT_TYPE: Bytes := "Content-Type"

  function Get(h: Headers, k: Bytes): Bytes { if k in h && h[k] != [] then h[k][0] else [] }

  predicate Token(c: Byte) {
    'a' <= c <= 'z' || 'A' <= c <= 'Z' || '0' <= c <= '9' || c in "!#$%&'*+-.^_`|~"
  }

  function Cased(s: Bytes, upper: bool): Bytes {
    if s == [] then []
    else
      var c: Byte := if upper && 'a' <= s[0] <= 'z' then s[0] - 'a' + 'A'
                     else if !upper && 'A' <= s[0] <= 'Z' then s[0] - 'A' + 'a' else s[0];
      [c] + Cased(s[1..], c == '-')
  }

  /** Header names compare in this form; a name with other bytes stays as it is. */
  function Canonical(s: Bytes): Bytes {
    if forall i :: 0 <= i < |s| ==> Token(s[i]) then Cased(s, true) else s
  }

  function CanonicalAll(ps: seq<Bytes>): seq<Bytes> {
    if ps == [] then [] else [Canonical(ps[0])] + CanonicalAll(ps[1..])
  }

  /** Headers the connection declared as belonging to it alone. */
  function ConnectionTokens(h: Headers): seq<Bytes> {
    CanonicalAll(VariantKey.NonEmpty(TrimAll(Split(Get(h, CONNECTION), ','))))
  }

  predicate Storeable(k: Bytes) { k !in HOP_BY_HOP && k != SET_COOKIE }

  function StoredHeaders(h: Headers): Headers {
    map k | k in h && Storeable(k) && k !in ConnectionTokens(h) :: h[k]
  }

  function NonHop(h: Headers): Headers { map k | k in h && k !in HOP_BY_HOP :: h[k] }

  /** A confirmation's fields replace the stored ones; section 4.3.4 of RFC 9111. */
  function MergedHeaders(stored: Headers, h: Headers): Headers {
    map k | k in stored.Keys + h.Keys && (k in stored || Storeable(k)) :: if k in h && Storeable(k) then h[k] else stored[k]
  }

  ghost predicate CleanHeaders(h: Headers) { forall k :: k in h ==> Storeable(k) }

  function Deduped(ps: seq<Bytes>): seq<Bytes>
    decreases |ps|
  {
    if ps == [] then []
    else
      var init := Deduped(ps[..|ps| - 1]);
      if ps[|ps| - 1] in init then init else init + [ps[|ps| - 1]]
  }

  function VaryNames(h: Headers): seq<Bytes> {
    Deduped(CanonicalAll(VariantKey.Tokens(if VARY in h then h[VARY] else [])))
  }

  function LastModified(cfg: Config, h: Headers): Option<Time> { cfg.date(Get(h, LAST_MODIFIED)) }

  // ---------- Requests, replies, events ----------

  datatype Request = Request(pk: Key, fields: VariantKey.Fields, head: bool, authorized: bool,
                             conditional: bool, onlyIfCached: bool)

  datatype Reply = Panicked | Reply(status: int, headers: Headers, body: Bytes)

  datatype Precondition = Proceed | IsNotModified | IsFailed

  /** Everything one request takes from outside: instants, the origin's reply, storage failures, and
      the outcome of the client's preconditions. */
  datatype Env = Env(now: Time, load: Time, check: Time, asked: Time, answered: Time, clock: Time, wrote: Time,
                     served: Time, reply: Reply, lookupFails: bool, loadFails: bool, checkFails: bool, saveFails: bool,
                     precondition: Precondition)

  /** A write that reached storage: a full response, or a refresh after a confirmation. `received` are the
      fields of the reply, `headers` those its freshness was computed from. */
  datatype Event = Event(pk: Key, vk: Key, req: Request, status: int, headers: Headers, received: Headers, body: Bytes,
                         fragments: seq<EsiScan.Fragment>, viaGet: bool, vary: seq<Bytes>, asked: Time, answered: Time, clock: Time, refresh: bool)

  datatype Task = Task(req: Request, vk: Key)

  /** The store, the writes so far, and the background refreshes not yet run. */
  datatype World = World(store: Store, log: seq<Event>, pending: seq<Task>)

  datatype Kind = HIT | UPDATING | STALE | REVALIDATED

  /** `body` is the body before splicing and `fragments` the places to splice; `age` is the Age set on the answer,
      over the one among its headers. */
  datatype Answer =
    | FromCache(kind: Kind, vk: Key, status: int, headers: Headers, age: Option<int>, body: Option<Bytes>,
                fragments: seq<EsiScan.Fragment>)
    | NotModified(kind: Kind)
    | FromOrigin(status: int, headers: Headers, body: Option<Bytes>, fragments: seq<EsiScan.Fragment>)
    | Empty
    | PreconditionFailed
    | GatewayTimeout
    | ServerError
    | Crashed
    | Bypass

  datatype Outcome = Outcome(world: World, answer: Answer)

  function Sent(req: Request, body: Bytes): Option<Bytes> { if req.head then None else Some(body) }

  // ---------- Saving ----------

  function CodecFor(cfg: Config, h: Headers, size: nat): Bytes {
    if size < MIN_COMPRESSED || Get(h, CONTENT_ENCODING) != [] || cfg.precompressed(Get(h, CONTENT_TYPE))
       || cfg.configured !in cfg.codecs then NO_CODEC else cfg.configured
  }

  /** Codec recorded and bytes stored; a failed compression stores the body as it is. */
  function Packed(cfg: Config, h: Headers, body: Bytes): (Bytes, Bytes) {
    var n := CodecFor(cfg, h, |body|);
    if body == [] then (NO_CODEC, [])
    else if n in cfg.codecs && cfg.codecs[n].compress(body).Some? then (n, cfg.codecs[n].compress(body).value)
    else (NO_CODEC, body)
  }

  /** A key matched against stored metadata is kept; otherwise the response's own Vary decides. */
  function SaveKey(req: Request, vk: Key, h: Headers): Key {
    Named(if vk == [] || vk == DEFAULT then VariantKey.Key(VaryNames(h), req.fields) else vk)
  }

  /** A full response ready to be stored and served. */
  datatype Full = Full(status: int, headers: Headers, body: Bytes, fragments: seq<EsiScan.Fragment>)

  datatype Prepared = Ready(full: Full) | ScanDied

  /** Compile the ESI tags of a response the processor takes; the compiler may read past the body. */
  function Prepare(cfg: Config, status: int, h: Headers, body: Bytes): Prepared {
    if !cfg.esi(h) then Ready(Full(status, h, body, []))
    else if EsiParse.RunsOff(body) then ScanDied
    else Ready(Full(status, cfg.cleaned(h), body, EsiScan.Frags(body)))
  }

  function VariantFor(cfg: Config, key: Key, f: Full): Variant {
    var lm := LastModified(cfg, f.headers);
    Variant(key, f.status, StoredHeaders(f.headers), Get(f.headers, ETAG), if lm.Some? then lm.value else 0, |f.body|,
            f.fragments, Packed(cfg, f.headers, f.body).0)
  }

  function Save(cfg: Config, w: World, req: Request, vk: Key, f: Full, e: Env): World {
    if e.saveFails then w
    else
      var h := f.headers;
      var p := cfg.parse(h);
      var key := SaveKey(req, vk, h);
      var m := MetaFor(VaryNames(h), cfg.tagsOf(h), p, e.asked, e.answered);
      w.(store := AfterSet(w.store, req.pk, m, VariantFor(cfg, key, f), Packed(cfg, h, f.body).1,
                           StorageTtl(p, e.asked, e.answered), e.wrote),
         log := w.log + [FullEvent(cfg, req, key, f, e)])
  }

  function FullEvent(cfg: Config, req: Request, key: Key, f: Full, e: Env): Event {
    Event(req.pk, key, req, f.status, f.headers, f.headers, f.body, f.fragments, !req.head || cfg.convertHead,
          VaryNames(f.headers), e.asked, e.answered, e.clock, false)
  }

  /** The response may be stored, and the cache still stores. */
  predicate MayStore(cfg: Config, req: Request, f: Full, e: Env) {
    Storable(f.status, req.authorized, cfg.parse(f.headers), e.clock) && !cfg.closed && (!req.head || cfg.convertHead)
  }

  /** Store a full response if it may be stored. */
  function SaveIfAllowed(cfg: Config, w: World, req: Request, vk: Key, f: Full, e: Env): World {
    if MayStore(cfg, req, f, e) then Save(cfg, w, req, vk, f, e) else w
  }

  // ---------- Loading ----------

  function Fetched(s: Store, pk: Key, vk: Key, t: Time, fails: bool): Option<(Variant, Bytes)> {
    if !fails && HasVariant(s, pk, Named(vk), t) then
      Some((s.variants[pk][Named(vk)].variant, s.variants[pk][Named(vk)].body))
    else None
  }

  function CodecName(v: Variant): Bytes { if v.codec == [] then LZ4 else v.codec }

  /** The body, if the codec is known, decompression succeeds and the length is the recorded one. */
  function Decoded(cfg: Config, v: Variant, comp: Bytes): Option<Bytes> {
    if CodecName(v) !in cfg.codecs then None
    else
      var b := cfg.codecs[CodecName(v)].decompress(comp);
      if b.Some? && |b.value| == v.rawSize then b else None
  }

  datatype Loaded = Loaded(store: Store, got: Option<(Variant, Bytes)>)

  /** Load and decompress; a corrupt entry is marked for revalidation, an unknown codec is not. */
  function Load(cfg: Config, s: Store, pk: Key, vk: Key, e: Env): Loaded {
    match Fetched(s, pk, vk, e.load, e.loadFails)
    case None => Loaded(s, None)
    case Some(f) =>
      if (f.0.rawSize > 0 && f.1 == []) || CodecName(f.0) !in cfg.codecs then Loaded(s, None)
      else if Decoded(cfg, f.0, f.1).Some? then Loaded(s, Some((f.0, Decoded(cfg, f.0, f.1).value)))
      else Loaded(Marked(s, {pk}), None)
  }

  // ---------- Miss ----------

  predicate HasCookie(h: Headers) { SET_COOKIE in h && h[SET_COOKIE] != [] }

  /** Fetch without coalescing; responses that set cookies or stream are passed through. */
  function Miss(cfg: Config, w: World, req: Request, vk: Key, e: Env): Outcome {
    match e.reply
    case Panicked => Outcome(w, ServerError)
    case Reply(status, h, body) =>
      if HasCookie(h) || cfg.parse(h).eventStream then Outcome(w, FromOrigin(status, h, Sent(req, body), []))
      else
        match Prepare(cfg, status, h, body)
        case ScanDied => Outcome(w, Crashed)
        case Ready(f) =>
          Outcome(SaveIfAllowed(cfg, w, req, vk, f, e),
                  if f.fragments == [] && req.conditional && 200 <= status < 300 && e.precondition.IsNotModified?
                  then FromOrigin(304, NonHop(f.headers), None, [])
                  else FromOrigin(status, NonHop(f.headers), Sent(req, body), f.fragments))
  }

  // ---------- Hit and stale-while-revalidate ----------

  /** Serve a listed variant: without body I/O for HEAD and empty bodies, else by loading it. A hit without
      body I/O carries no Age. */
  function ServeListed(cfg: Config, w: World, req: Request, vk: Key, m: Meta, v: Variant, kind: Kind, e: Env): Outcome {
    var after := if kind.UPDATING? && !cfg.closed then w.pending + [Task(req, vk)] else w.pending;
    if req.head || v.rawSize == 0 then
      Outcome(w.(pending := after), FromCache(kind, vk, v.status, v.headers,
                                              if kind.HIT? then None else Some(AgeSent(m, e.now)), Sent(req, []), v.fragments))
    else
      var l := Load(cfg, w.store, req.pk, vk, e);
      match l.got
      case None => Miss(cfg, w.(store := l.store), req, vk, e)
      case Some(f) => Outcome(w.(pending := after), FromCache(kind, vk, f.0.status, f.0.headers,
                                                              Some(AgeSent(m, e.now)), Some(f.1), f.0.fragments))
  }

  // ---------- Revalidation ----------

  /** The in-flight recheck finds a copy that is fresh, unpurged and loadable. */
  predicate RecheckFinds(s: Store, pk: Key, vk: Key, e: Env) {
    && !e.checkFails && HasMeta(s, pk, e.check)
    && !s.meta[pk].soft && s.meta[pk].meta.expiresAt > e.check
    && var f := Fetched(s, pk, vk, e.check, false);
       f.Some? && (f.value.0.rawSize == 0 || f.value.1 != [])
  }

  /** What a flight hands to everyone waiting for it: a stored copy, or the origin's response. */
  datatype FlightResult =
    | Copy(kind: Kind, meta: Meta, variant: Variant, bytes: Bytes)
    | Fetch(full: Full)
    | Died

  /** What a request makes of a flight's result. A copy that does not decode leaves an empty answer. A confirmation
      leaves creation time and initial age alone, so the Age does not depend on it. Responses shared by several
      requests lose their cookies, unless they hold ESI tags. */
  function AnswerOf(cfg: Config, req: Request, vk: Key, r: FlightResult, shared: bool, e: Env): Answer {
    match r
    case Died => Crashed
    case Fetch(f) =>
      if f.fragments != [] then FromOrigin(f.status, NonHop(f.headers), Sent(req, f.body), f.fragments)
      else FromOrigin(f.status, if shared then f.headers - {SET_COOKIE} else f.headers, Sent(req, f.body), [])
    case Copy(kind, m, v, bytes) =>
      if kind.REVALIDATED? && e.precondition.IsNotModified? then NotModified(REVALIDATED)
      else
        var b := Decoded(cfg, v, bytes);
        if b.None? then Empty
        else FromCache(kind, vk, v.status, v.headers, Some(AgeSent(m, e.served)), Sent(req, b.value), v.fragments)
  }

  function RefreshedVariant(cfg: Config, v: Variant, h: Headers): Variant {
    var v1 := v.(headers := MergedHeaders(v.headers, h));
    var v2 := if Get(h, ETAG) != [] then v1.(etag := Get(h, ETAG)) else v1;
    if LastModified(cfg, h).Some? then v2.(lastModified := LastModified(cfg, h).value) else v2
  }

  /** The fields that decide the new freshness. */
  function RefreshFields(cfg: Config, v: Variant, h: Headers): Headers {
    var m := MergedHeaders(v.headers, h);
    var m1 := if Get(h, ETAG) != [] then m[ETAG := [Get(h, ETAG)]] else m;
    if LastModified(cfg, h).Some? then m1[LAST_MODIFIED := [Get(h, LAST_MODIFIED)]] else m1
  }

  /** The origin confirmed the stored response: move the expiry, keep the body. */
  function Refresh(cfg: Config, w: World, req: Request, vk: Key, m: Meta, v: Variant, comp: Bytes, h: Headers, e: Env): World {
    var fields := RefreshFields(cfg, v, h);
    var p := cfg.parse(fields);
    if Ttl(p, e.asked, e.answered) > 0 && !cfg.closed && !e.saveFails then
      w.(store := AfterSet(w.store, req.pk, MetaRefreshed(m, p, e.asked, e.answered), RefreshedVariant(cfg, v, h), comp,
                           StorageTtl(p, e.asked, e.answered), e.wrote),
         log := w.log + [Event(req.pk, vk, req, v.status, fields, h, [], [], true, m.vary, e.asked, e.answered, e.clock, true)])
    else w
  }

  datatype Landing = Landing(world: World, result: FlightResult)

  /** The origin's reply about variant `v`, whose stored bytes are `comp`, has come in. */
  function Land(cfg: Config, w: World, req: Request, vk: Key, m: Meta, v: Variant, comp: Bytes, e: Env): Landing {
    match e.reply
    case Panicked => Landing(w, Copy(STALE, m, v, comp))
    case Reply(status, h, body) =>
      if status == 304 && comp != [] then
        Landing(Refresh(cfg, w, req, vk, m, v, comp, h, e), Copy(REVALIDATED, m, RefreshedVariant(cfg, v, h), comp))
      else if status >= 500 && comp != [] then Landing(w, Copy(STALE, m, v, comp))
      else
        match Prepare(cfg, status, h, body)
        case ScanDied => Landing(w, Died)
        case Ready(f) => Landing(SaveIfAllowed(cfg, w, req, vk, f, e), Fetch(f))
  }

  function Contact(cfg: Config, w: World, req: Request, vk: Key, m: Meta, v: Variant, comp: Bytes, e: Env): Outcome {
    var l := Land(cfg, w, req, vk, m, v, comp, e);
    Outcome(l.world, AnswerOf(cfg, req, vk, l.result, false, e))
  }

  /** A revalidation nobody else waits for. */
  function Revalidate(cfg: Config, w: World, req: Request, vk: Key, m: Meta, v: Variant, e: Env): Outcome {
    var held := Fetched(w.store, req.pk, vk, e.load, e.loadFails);
    var comp := if held.Some? then held.value.1 else [];
    if RecheckFinds(w.store, req.pk, vk, e) then
      var f := Fetched(w.store, req.pk, vk, e.check, false).value;
      Outcome(w, AnswerOf(cfg, req, vk, Copy(STALE, w.store.meta[req.pk].meta, f.0, f.1), false, e))
    else Contact(cfg, w, req, vk, m, v, comp, e)
  }

  // ---------- The whole request ----------

  function MatchKey(m: Meta, req: Request): Key { Named(VariantKey.Key(m.vary, req.fields)) }

  function Serve(cfg: Config, w: World, req: Request, e: Env): Outcome {
    if e.lookupFails then Outcome(w, Bypass)
    else if !HasMeta(w.store, req.pk, e.now) then
      if req.onlyIfCached then Outcome(w, GatewayTimeout) else Miss(cfg, w, req, [], e)
    else
      var entry := w.store.meta[req.pk];
      var vk := MatchKey(entry.meta, req);
      if !ListsVariant(w.store, req.pk, vk, e.now) then
        if req.onlyIfCached then Outcome(w, GatewayTimeout) else Miss(cfg, w, req, vk, e)
      else
        ServeMatched(cfg, w, req, vk, entry, w.store.variants[req.pk][vk].variant, e)
  }

  function ServeMatched(cfg: Config, w: World, req: Request, vk: Key, entry: MetaEntry, v: Variant, e: Env): Outcome {
    match Judge(entry.meta, entry.soft, e.now)
    case Fresh =>
      (match e.precondition
       case IsNotModified => Outcome(w, NotModified(HIT))
       case IsFailed => Outcome(w, PreconditionFailed)
       case Proceed => ServeListed(cfg, w, req, vk, entry.meta, v, HIT, e))
    case Updating => ServeListed(cfg, w, req, vk, entry.meta, v, UPDATING, e)
    case Expired =>
      if !entry.soft && req.onlyIfCached then Outcome(w, GatewayTimeout)
      else Revalidate(cfg, w, req, vk, entry.meta, v, e)
  }

  /** A background refresh: fetch and store, answer nobody; a failing scan is recovered from. */
  function Background(cfg: Config, w: World, t: Task, e: Env): World {
    match e.reply
    case Panicked => w
    case Reply(status, h, body) =>
      match Prepare(cfg, status, h, body)
      case ScanDied => w
      case Ready(f) => SaveIfAllowed(cfg, w, t.req, t.vk, f, e)
  }
}
