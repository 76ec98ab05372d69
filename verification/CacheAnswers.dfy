/** What a client is answered, told from the store, the clock and the origin's reply. */
module CacheAnswers {
  import opened KeyBytes
  import opened StoreState
  import opened Freshness
  import opened Handler
  import VariantKey
  import EsiParse
  import EsiScan

  // ---------- Fields ----------

  /** Fields that belong to one connection. */
  ghost predicate HopByHop(k: Bytes) {
    || k == "Connection" || k == "Keep-Alive" || k == "Proxy-Authenticate" || k == "Proxy-Authorization" || k == "Proxy-Connection"
    || k == "Te" || k == "Trailers" || k == "Transfer-Encoding" || k == "Upgrade"
  }

  /** `sent` holds exactly the fields of `h` that do not belong to the connection, as they were. */
  ghost predicate WithoutHops(sent: Headers, h: Headers) {
    forall k :: (k in sent <==> k in h && !HopByHop(k)) && (k in sent ==> sent[k] == h[k])
  }

  lemma NonHopIs(h: Headers)
    ensures WithoutHops(NonHop(h), h)
  {
  }

  /** What the ESI processor leaves of a response: its fields and the places of its tags. */
  function FieldsLeft(cfg: Config, h: Headers): Headers { if cfg.esi(h) then cfg.cleaned(h) else h }

  function Tags(cfg: Config, h: Headers, body: Bytes): seq<EsiScan.Fragment> {
    if cfg.esi(h) then EsiScan.Frags(body) else []
  }

  // ---------- Misses ----------

  /** The lookup finds no metadata, or metadata that lists no variant for the request. */
  ghost predicate NotListed(w: World, req: Request, now: Time) {
    HasMeta(w.store, req.pk, now) ==> !ListsVariant(w.store, req.pk, MatchKey(w.store.meta[req.pk].meta, req), now)
  }

  predicate PassesThrough(cfg: Config, h: Headers) { ("Set-Cookie" in h && h["Set-Cookie"] != []) || cfg.parse(h).eventStream }

  predicate Unreadable(cfg: Config, h: Headers, body: Bytes) { cfg.esi(h) && EsiParse.RunsOff(body) }

  /** The reply reaches the client as the origin sent it: status, body unless it asked for none, places of its tags. */
  ghost predicate Relayed(a: Answer, cfg: Config, req: Request, status: int, h: Headers, body: Bytes) {
    a.FromOrigin? && a.status == status && a.body == (if req.head then None else Some(body)) && a.fragments == Tags(cfg, h, body)
  }

  /** The client already has what it asks for, by its own precondition. */
  ghost predicate AlreadyHas(cfg: Config, req: Request, e: Env, status: int, h: Headers, body: Bytes) {
    Tags(cfg, h, body) == [] && req.conditional && 200 <= status < 300 && e.precondition.IsNotModified?
  }

  /** The answer is the origin's reply, or says why it is not. */
  ghost predicate AsOnMiss(a: Answer, cfg: Config, req: Request, e: Env) {
    match e.reply
    case Panicked => a == ServerError
    case Reply(status, h, body) =>
      if PassesThrough(cfg, h) then a == FromOrigin(status, h, if req.head then None else Some(body), [])
      else if Unreadable(cfg, h, body) then a == Crashed
      else if AlreadyHas(cfg, req, e, status, h, body) then a.FromOrigin? && a.status == 304 && a.body == None && a.fragments == []
      else Relayed(a, cfg, req, status, h, body) && WithoutHops(a.headers, FieldsLeft(cfg, h))
  }

  lemma MissSpelled(cfg: Config, w: World, req: Request, vk: Key, e: Env)
    ensures AsOnMiss(Miss(cfg, w, req, vk, e).answer, cfg, req, e)
  {
    hide SaveIfAllowed, NonHop, WithoutHops, EsiScan.Frags, EsiParse.RunsOff;
    if e.reply.Reply? { NonHopIs(FieldsLeft(cfg, e.reply.headers)); }
  }

  /** On a miss the client gets the origin's reply; a request for stored copies only, a timeout. */
  lemma MissAnswered(cfg: Config, w: World, req: Request, e: Env)
    requires !e.lookupFails && NotListed(w, req, e.now)
    ensures var o := Serve(cfg, w, req, e);
      if req.onlyIfCached then o == Outcome(w, GatewayTimeout) else AsOnMiss(o.answer, cfg, req, e)
  {
    hide Miss, AsOnMiss, MatchKey, ServeMatched;
    MissSpelled(cfg, w, req, [], e);
    if HasMeta(w.store, req.pk, e.now) { MissSpelled(cfg, w, req, MatchKey(w.store.meta[req.pk].meta, req), e); }
  }

  // ---------- Revalidations ----------

  /** The stored copy is there, stale or marked, and the request must ask. */
  ghost predicate MustAsk(w: World, req: Request, e: Env) {
    && !e.lookupFails && HasMeta(w.store, req.pk, e.now)
    && var entry := w.store.meta[req.pk];
    && ListsVariant(w.store, req.pk, MatchKey(entry.meta, req), e.now)
    && (entry.soft || (entry.meta.expiresAt < e.now && !(entry.meta.expiresAt < entry.meta.staleUntil && e.now <= entry.meta.staleUntil)))
    && (req.onlyIfCached ==> entry.soft)
  }

  /** The bytes stored for the request, if they can be read. */
  ghost function HeldBytes(w: World, req: Request, e: Env): Bytes
    requires req.pk in w.store.meta
  {
    var vk := MatchKey(w.store.meta[req.pk].meta, req);
    if !e.loadFails && HasVariant(w.store, req.pk, vk, e.load) then w.store.variants[req.pk][vk].body else []
  }

  /** When the flight looks again, a fresh copy is there. */
  ghost predicate FreshMeanwhile(w: World, req: Request, e: Env)
    requires req.pk in w.store.meta
  {
    var entry, vk := w.store.meta[req.pk], MatchKey(w.store.meta[req.pk].meta, req);
    && !e.checkFails && !(entry.expires.Some? && e.check > entry.expires.value) && !entry.soft && e.check < entry.meta.expiresAt
    && req.pk in w.store.variants && vk in w.store.variants[req.pk]
    && var x := w.store.variants[req.pk][vk];
    !(x.expires.Some? && e.check > x.expires.value) && (x.variant.rawSize == 0 || x.body != [])
  }

  ghost predicate StillStale(w: World, req: Request, e: Env)
    requires req.pk in w.store.meta
  {
    !FreshMeanwhile(w, req, e)
  }

  lemma RecheckExactly(w: World, req: Request, e: Env)
    requires req.pk in w.store.meta
    ensures RecheckFinds(w.store, req.pk, MatchKey(w.store.meta[req.pk].meta, req), e) <==> FreshMeanwhile(w, req, e)
  {
    hide MatchKey;
    KeyNamed(w.store.meta[req.pk].meta, req);
  }

  /** A full response to a revalidation reaches the client like one to a miss, without losing fields unless it has tags. */
  lemma RevalidationAnswered(cfg: Config, w: World, req: Request, e: Env, status: int, h: Headers, body: Bytes)
    requires MustAsk(w, req, e) && StillStale(w, req, e) && e.reply == Reply(status, h, body)
    requires (status != 304 && status < 500) || HeldBytes(w, req, e) == []
    ensures var a := Serve(cfg, w, req, e).answer;
      if Unreadable(cfg, h, body) then a == Crashed
      else
        && Relayed(a, cfg, req, status, h, body)
        && (if Tags(cfg, h, body) == [] then a.headers == FieldsLeft(cfg, h) else WithoutHops(a.headers, FieldsLeft(cfg, h)))
  {
    hide SaveIfAllowed, Refresh, NonHop, WithoutHops, EsiScan.Frags, EsiParse.RunsOff, MatchKey, RecheckFinds, Miss, Load;
    NonHopIs(FieldsLeft(cfg, h));
    RecheckExactly(w, req, e);
    hide FreshMeanwhile;
    KeyNamed(w.store.meta[req.pk].meta, req);
  }

  lemma KeyNamed(m: Meta, req: Request)
    ensures MatchKey(m, req) != [] && Named(MatchKey(m, req)) == MatchKey(m, req)
  {
    hide VariantKey.Key;
  }

  // ---------- Answers from the store ----------

  /** The store lists a variant for the request. */
  ghost predicate Found(w: World, req: Request, e: Env) {
    && !e.lookupFails && HasMeta(w.store, req.pk, e.now)
    && ListsVariant(w.store, req.pk, MatchKey(w.store.meta[req.pk].meta, req), e.now)
  }

  ghost function FoundEntry(w: World, req: Request, e: Env): VarEntry
    requires Found(w, req, e)
  {
    w.store.variants[req.pk][MatchKey(w.store.meta[req.pk].meta, req)]
  }

  /** These bytes are the stored form of `b`. */
  ghost predicate Unpacks(cfg: Config, x: VarEntry, b: Bytes) {
    var name := if x.variant.codec == [] then LZ4 else x.variant.codec;
    name in cfg.codecs && cfg.codecs[name].decompress(x.body) == Some(b) && |b| == x.variant.rawSize
  }

  /** The stored body can be read when it is loaded, and is `b`. */
  ghost predicate Loads(cfg: Config, w: World, req: Request, e: Env, b: Bytes)
    requires Found(w, req, e)
  {
    var x := FoundEntry(w, req, e);
    !e.loadFails && !(x.expires.Some? && e.load > x.expires.value) && (x.variant.rawSize == 0 || x.body != []) && Unpacks(cfg, x, b)
  }

  /** A stored representation as the answer to a request. */
  ghost predicate Represents(a: Answer, kind: Kind, req: Request, x: VarEntry, fields: Headers, b: Bytes) {
    && a.FromCache? && a.kind == kind && a.status == x.variant.status && a.headers == fields
    && a.body == (if req.head then None else Some(b)) && a.fragments == x.variant.fragments
  }

  /** A fresh copy answers by itself: 304 or 412 if the client's preconditions say so, otherwise the stored representation;
      nothing changes. */
  lemma HitAnswered(cfg: Config, w: World, req: Request, e: Env, b: Bytes)
    requires Found(w, req, e) && !w.store.meta[req.pk].soft && e.now <= w.store.meta[req.pk].meta.expiresAt
    requires Loads(cfg, w, req, e, b)
    ensures var o, x := Serve(cfg, w, req, e), FoundEntry(w, req, e);
      && o.world == w
      && match e.precondition
         case IsNotModified => o.answer == NotModified(HIT)
         case IsFailed => o.answer == PreconditionFailed
         case Proceed => Represents(o.answer, HIT, req, x, x.variant.headers, if x.variant.rawSize == 0 then [] else b)
  {
    hide MatchKey, Miss, Revalidate;
    KeyNamed(w.store.meta[req.pk].meta, req);
  }

  /** A copy in its stale window answers too, and leaves exactly one refresh of its key to do. */
  lemma UpdatingAnswered(cfg: Config, w: World, req: Request, e: Env, b: Bytes)
    requires Found(w, req, e) && !w.store.meta[req.pk].soft && Loads(cfg, w, req, e, b)
    requires var m := w.store.meta[req.pk].meta; m.expiresAt < e.now <= m.staleUntil
    ensures var o, x := Serve(cfg, w, req, e), FoundEntry(w, req, e);
      && o.world.store == w.store && o.world.log == w.log
      && o.world.pending == w.pending + (if cfg.closed then [] else [Task(req, MatchKey(w.store.meta[req.pk].meta, req))])
      && Represents(o.answer, UPDATING, req, x, x.variant.headers, if x.variant.rawSize == 0 then [] else b)
  {
    hide MatchKey, Miss, Revalidate;
    KeyNamed(w.store.meta[req.pk].meta, req);
  }

  /** The confirmation's fields over the stored ones. */
  ghost predicate LaidOver(sent: Headers, stored: Headers, h: Headers) {
    forall k ::
      var told := k in h && !HopByHop(k) && k != "Set-Cookie";
      (k in sent <==> told || k in stored) && (k in sent ==> sent[k] == if told then h[k] else stored[k])
  }

  lemma MergedIs(stored: Headers, h: Headers)
    ensures LaidOver(MergedHeaders(stored, h), stored, h)
  {
  }

  /** A confirmed copy answers with its own body and status, and with the confirmation's fields laid over its own. */
  lemma ConfirmedAnswered(cfg: Config, w: World, req: Request, e: Env, h: Headers, body: Bytes, b: Bytes)
    requires Found(w, req, e) && MustAsk(w, req, e) && StillStale(w, req, e) && e.reply == Reply(304, h, body)
    requires HeldBytes(w, req, e) != [] && Unpacks(cfg, FoundEntry(w, req, e), b)
    ensures var a, x := Serve(cfg, w, req, e).answer, FoundEntry(w, req, e);
      if e.precondition.IsNotModified? then a == NotModified(REVALIDATED)
      else a.FromCache? && Represents(a, REVALIDATED, req, x, a.headers, b) && LaidOver(a.headers, x.variant.headers, h)
  {
    hide MatchKey, Miss, Refresh, MergedHeaders, LaidOver, RecheckFinds, SaveIfAllowed, Prepare, Load;
    KeyNamed(w.store.meta[req.pk].meta, req);
    RecheckExactly(w, req, e);
    hide FreshMeanwhile;
    MergedIs(FoundEntry(w, req, e).variant.headers, h);
  }

  /** When the origin fails, the stored copy answers as it is. */
  lemma FailureAnswered(cfg: Config, w: World, req: Request, e: Env, b: Bytes)
    requires Found(w, req, e) && MustAsk(w, req, e) && StillStale(w, req, e) && HeldBytes(w, req, e) != []
    requires e.reply.Panicked? || e.reply.status >= 500
    requires Unpacks(cfg, FoundEntry(w, req, e), b)
    ensures var o, x := Serve(cfg, w, req, e), FoundEntry(w, req, e);
      o.world == w && Represents(o.answer, STALE, req, x, x.variant.headers, b)
  {
    hide MatchKey, Miss, Refresh, RecheckFinds, SaveIfAllowed, Prepare, Load;
    KeyNamed(w.store.meta[req.pk].meta, req);
    RecheckExactly(w, req, e);
    hide FreshMeanwhile;
  }

  /** A copy that turned out to be fresh when the flight looked again answers, and nobody asks. */
  lemma MeanwhileAnswered(cfg: Config, w: World, req: Request, e: Env, b: Bytes)
    requires Found(w, req, e) && MustAsk(w, req, e) && FreshMeanwhile(w, req, e) && Unpacks(cfg, FoundEntry(w, req, e), b)
    ensures var o, x := Serve(cfg, w, req, e), FoundEntry(w, req, e);
      o.world == w && Represents(o.answer, STALE, req, x, x.variant.headers, b)
  {
    hide MatchKey, Miss, Contact, Load, ServeListed;
    KeyNamed(w.store.meta[req.pk].meta, req);
    RecheckExactly(w, req, e);
  }

  /** The stored body cannot be had: it cannot be read, is gone, or does not unpack to its length. */
  ghost predicate Lost(cfg: Config, w: World, req: Request, e: Env)
    requires Found(w, req, e)
  {
    var x := FoundEntry(w, req, e);
    e.loadFails || (x.expires.Some? && e.load > x.expires.value) || x.body == [] || forall b :: !Unpacks(cfg, x, b)
  }

  /** Then a request that needs it is answered as on a miss. */
  lemma LostBodyAnswered(cfg: Config, w: World, req: Request, e: Env)
    requires Found(w, req, e) && Lost(cfg, w, req, e) && !req.head && FoundEntry(w, req, e).variant.rawSize > 0
    requires var entry := w.store.meta[req.pk];
      !entry.soft && ((e.now <= entry.meta.expiresAt && e.precondition.Proceed?) || entry.meta.expiresAt < e.now <= entry.meta.staleUntil)
    ensures AsOnMiss(Serve(cfg, w, req, e).answer, cfg, req, e)
  {
    hide MatchKey, Miss, Revalidate, AsOnMiss;
    var vk := MatchKey(w.store.meta[req.pk].meta, req);
    KeyNamed(w.store.meta[req.pk].meta, req);
    LoadsNothing(cfg, w, req, e);
    MissSpelled(cfg, w.(store := Load(cfg, w.store, req.pk, vk, e).store), req, vk, e);
  }

  lemma LoadsNothing(cfg: Config, w: World, req: Request, e: Env)
    requires Found(w, req, e) && Lost(cfg, w, req, e) && FoundEntry(w, req, e).variant.rawSize > 0
    ensures Load(cfg, w.store, req.pk, MatchKey(w.store.meta[req.pk].meta, req), e).got.None?
  {
    hide MatchKey, Marked;
    KeyNamed(w.store.meta[req.pk].meta, req);
    var x := FoundEntry(w, req, e);
    if Decoded(cfg, x.variant, x.body).Some? { assert Unpacks(cfg, x, Decoded(cfg, x.variant, x.body).value); }
  }

  /** A body that was read and does not unpack marks its entry, so that the next request asks; one that could not be read,
      or whose codec is unknown, marks nothing. */
  lemma CorruptMarked(cfg: Config, w: World, req: Request, e: Env)
    requires Found(w, req, e) && Lost(cfg, w, req, e) && !req.head && FoundEntry(w, req, e).variant.rawSize > 0 && e.reply.Panicked?
    requires var entry := w.store.meta[req.pk];
      !entry.soft && ((e.now <= entry.meta.expiresAt && e.precondition.Proceed?) || entry.meta.expiresAt < e.now <= entry.meta.staleUntil)
    ensures var s', x, entry := Serve(cfg, w, req, e).world.store, FoundEntry(w, req, e), w.store.meta[req.pk];
      && s'.variants == w.store.variants && s'.meta.Keys == w.store.meta.Keys
      && (forall k :: k in w.store.meta && k != req.pk ==> s'.meta[k] == w.store.meta[k])
      && s'.meta[req.pk] == MetaEntry(entry.meta, !e.loadFails && !(x.expires.Some? && e.load > x.expires.value) && x.body != []
                                        && (if x.variant.codec == [] then LZ4 else x.variant.codec) in cfg.codecs, entry.expires)
  {
    hide MatchKey, Revalidate;
    KeyNamed(w.store.meta[req.pk].meta, req);
    LoadsNothing(cfg, w, req, e);
  }

  /** What the cache alone may answer, and cannot: a timeout. */
  lemma OnlyIfCachedAnswered(cfg: Config, w: World, req: Request, e: Env)
    requires Found(w, req, e) && req.onlyIfCached && !w.store.meta[req.pk].soft
    requires var m := w.store.meta[req.pk].meta; m.expiresAt < e.now && !(m.expiresAt < m.staleUntil && e.now <= m.staleUntil)
    ensures Serve(cfg, w, req, e) == Outcome(w, GatewayTimeout)
  {
    hide MatchKey, Miss, Revalidate, ServeListed;
  }
}
