/** The middleware itself: state functions over a store they update in place, proved against `Handler`. */
module HandlerCode {
  import opened KeyBytes
  import opened StoreState
  import opened Freshness
  import opened Handler
  import opened CacheRuns
  import opened TestStore
  import VariantKey
  import EsiScan
  import PrimaryKey
  import QueryString

  // ---------- Header loops ----------

  lemma CanonicalSnoc(ps: seq<Bytes>, x: Bytes)
    ensures CanonicalAll(ps + [x]) == CanonicalAll(ps) + [Canonical(x)]
  {
    hide Canonical;
    if ps == [] {
      assert ps + [x] == [x] && [x][1..] == [];
    } else {
      assert (ps + [x])[1..] == ps[1..] + [x];
      CanonicalSnoc(ps[1..], x);
    }
  }

  lemma DedupedSnoc(ps: seq<Bytes>, x: Bytes)
    ensures Deduped(ps + [x]) == if x in Deduped(ps) then Deduped(ps) else Deduped(ps) + [x]
  {
    assert (ps + [x])[..|ps|] == ps;
  }

  /** Header names listed in Vary, canonical and without repetition. */
  method ExtractVaryHeaderNames(h: Headers) returns (names: seq<Bytes>)
    ensures names == VaryNames(h)
  {
    hide Canonical, Deduped, CanonicalAll, VariantKey.Tokens;
    var tokens := VariantKey.CollectTokens(if VARY in h then h[VARY] else []);
    names := [];
    NoNames();
    assert tokens[..0] == [];
    for i := 0 to |tokens|
      invariant names == Deduped(CanonicalAll(tokens[..i]))
    {
      assert tokens[..i + 1] == tokens[..i] + [tokens[i]];
      CanonicalSnoc(tokens[..i], tokens[i]);
      DedupedSnoc(CanonicalAll(tokens[..i]), Canonical(tokens[i]));
      var name := Canonical(tokens[i]);
      if name !in names { names := names + [name]; }
    }
    assert tokens[..|tokens|] == tokens;
  }

  lemma NoNames()
    ensures Deduped(CanonicalAll([])) == []
  {
  }

  /** Header fields that may be stored. */
  method ProtoHeaders(h: Headers) returns (m: Headers)
    ensures m == StoredHeaders(h) && CleanHeaders(m)
  {
    hide ConnectionTokens, Storeable;
    var tokens := ConnectionTokens(h);
    m := map[];
    var todo := h.Keys;
    while todo != {}
      decreases |todo|
      invariant todo <= h.Keys
      invariant forall k :: k in m <==> k in h && k !in todo && Storeable(k) && k !in tokens
      invariant forall k :: k in m ==> m[k] == h[k]
    {
      var k :| k in todo;
      todo := todo - {k};
      if Storeable(k) && k !in tokens { m := m[k := h[k]]; }
    }
  }

  /** Lay a confirmation's fields over the stored ones. */
  method MergeHeaders(stored: Headers, h: Headers) returns (m: Headers)
    ensures m == MergedHeaders(stored, h)
  {
    hide MergedHeaders, Storeable;
    m := stored;
    var todo := h.Keys;
    MergeNone(stored, h);
    while todo != {}
      decreases |todo|
      invariant todo <= h.Keys && m == MergedHeaders(stored, h - todo)
    {
      var k :| k in todo;
      MergeOneMore(stored, h, todo, k);
      todo := todo - {k};
      if Storeable(k) { m := m[k := h[k]]; }
    }
    assert h - todo == h;
  }

  lemma MergeNone(stored: Headers, h: Headers)
    ensures MergedHeaders(stored, h - h.Keys) == stored
  {
  }

  lemma OneBack(h: Headers, todo: set<Bytes>, k: Bytes)
    requires k in todo && k in h
    ensures h - (todo - {k}) == (h - todo)[k := h[k]]
  {
  }

  lemma MergeUpdated(stored: Headers, base: Headers, k: Bytes, vs: seq<Bytes>)
    requires k !in base
    ensures MergedHeaders(stored, base[k := vs])
         == if Storeable(k) then MergedHeaders(stored, base)[k := vs] else MergedHeaders(stored, base)
  {
    hide Storeable;
    var a, b := MergedHeaders(stored, base[k := vs]), MergedHeaders(stored, base);
    forall j ensures j in a <==> j in b || (j == k && Storeable(k)) {}
    forall j | j in b && j != k ensures a[j] == b[j] {}
  }

  lemma MergeOneMore(stored: Headers, h: Headers, todo: set<Bytes>, k: Bytes)
    requires k in todo && k in h
    ensures MergedHeaders(stored, h - (todo - {k}))
         == if Storeable(k) then MergedHeaders(stored, h - todo)[k := h[k]] else MergedHeaders(stored, h - todo)
  {
    hide MergedHeaders, Storeable;
    OneBack(h, todo, k);
    MergeUpdated(stored, h - todo, k, h[k]);
  }

  class Titip {
    const cfg: Config
    const store: MemStore
    var pending: seq<Task>
    ghost var log: seq<Event>

    ghost predicate Ready()
      reads this, store
    {
      !store.closed && Valid(store.Now())
    }

    ghost function Now(): World
      reads this, store
    {
      World(store.Now(), log, pending)
    }

    constructor (c: Config)
      ensures Ready() && Now() == START && cfg == c && fresh(store)
    {
      cfg, pending, log := c, [], [];
      store := new MemStore();
    }

    // ---------- Storage ----------

    /** Compress the body, falling back to the plain bytes; empty bodies are not compressed. */
    method PackBody(h: Headers, body: Bytes) returns (codec: Bytes, bytes: Bytes)
      ensures (codec, bytes) == Packed(cfg, h, body)
    {
      hide CodecFor;
      codec, bytes := NO_CODEC, [];
      if |body| > 0 {
        codec := CodecFor(cfg, h, |body|);
        var packed := if codec in cfg.codecs then cfg.codecs[codec].compress(body) else None;
        if packed.Some? {
          bytes := packed.value;
        } else {
          bytes, codec := body, NO_CODEC;
        }
      }
    }

    method ChooseKey(req: Request, vk: Key, h: Headers, names: seq<Bytes>) returns (key: Key)
      requires names == VaryNames(h)
      ensures key == SaveKey(req, vk, h)
    {
      hide VariantKey.Key, VaryNames;
      key := vk;
      if key == [] || key == DEFAULT { key := VariantKey.GenerateVariantKey(req.fields, names); }
      if key == [] { key := DEFAULT; }
    }

    /** What freshness calculation promises about a response. */
    ghost predicate InfoFor(info: Info, h: Headers, e: Env) {
      var p := cfg.parse(h);
      && info.ttl == Ttl(p, e.asked, e.answered) && info.initialAge == InitialAge(p, e.asked, e.answered)
      && info.swrTtl == SwrWindow(p) && info.sieTtl == SieWindow(p)
    }

    method NewMeta(h: Headers, names: seq<Bytes>, info: Info, e: Env) returns (meta: Meta, ttl: int)
      requires InfoFor(info, h, e)
      ensures meta == MetaFor(names, cfg.tagsOf(h), cfg.parse(h), e.asked, e.answered)
      ensures ttl == StorageTtl(cfg.parse(h), e.asked, e.answered)
    {
      hide Ttl, InitialAge, SwrWindow, SieWindow;
      NonNegative(cfg.parse(h), e.asked, e.answered);
      meta := Meta(names, e.answered, e.answered + info.ttl, 0, info.initialAge / SECOND, cfg.tagsOf(h));
      if info.swrTtl > 0 { meta := meta.(staleUntil := meta.expiresAt + info.swrTtl); }
      ttl := info.ttl + Max(info.swrTtl, info.sieTtl);
      if ttl <= 0 { ttl := info.ttl; }
    }

    method SaveVariantToStorage(req: Request, vk: Key, f: Full, info: Info, e: Env)
      requires Ready() && InfoFor(info, f.headers, e)
      modifies this`log, store
      ensures Ready() && Now() == Save(cfg, old(Now()), req, vk, f, e)
    {
      hide Valid, AfterSet, MetaFor, StorageTtl, SaveKey, VaryNames, StoredHeaders, Packed, InfoFor, CleanHeaders;
      var h := f.headers;
      var codec, bytes := PackBody(h, f.body);
      var names := ExtractVaryHeaderNames(h);
      var key := ChooseKey(req, vk, h, names);
      var meta, ttl := NewMeta(h, names, info, e);
      var headers := ProtoHeaders(h);
      var lm := LastModified(cfg, h);
      var variant := Variant(key, f.status, headers, Get(h, ETAG), if lm.Some? then lm.value else 0, |f.body|, f.fragments, codec);
      if !e.saveFails {
        var ok := store.SetVariant(req.pk, meta, variant, bytes, ttl, e.wrote);
        log := log + [Event(req.pk, key, req, f.status, h, h, f.body, f.fragments, !req.head || cfg.convertHead, names,
                            e.asked, e.answered, e.clock, false)];
      }
    }

    /** Store a full response if it may be stored. */
    method StoreResponse(req: Request, vk: Key, f: Full, e: Env)
      requires Ready()
      modifies this`log, store
      ensures Ready() && Now() == SaveIfAllowed(cfg, old(Now()), req, vk, f, e)
    {
      hide Valid, Save, Ttl, InitialAge, SwrWindow, SieWindow, Storable;
      var info := CalculateFreshness(f.status, req.authorized, cfg.parse(f.headers), e.asked, e.answered, e.answered, e.clock);
      var shouldCache := info.cacheable && !cfg.closed;
      if req.head && !cfg.convertHead { shouldCache := false; }
      if shouldCache { SaveVariantToStorage(req, vk, f, info, e); }
    }

    /** Compile the ESI tags of a response the processor takes. */
    method InspectAndPrepareEsi(status: int, h: Headers, body: Bytes) returns (p: Prepared)
      ensures p == Prepare(cfg, status, h, body)
    {
      if !cfg.esi(h) { return Prepared.Ready(Full(status, h, body, [])); }
      var scan := EsiScan.Scan(body);
      if scan.Panicked? { return ScanDied; }
      return Prepared.Ready(Full(status, cfg.cleaned(h), body, scan.fragments));
    }

    method ReadVariant(pk: Key, vk: Key, t: Time, fails: bool) returns (r: Option<(Variant, Bytes)>)
      requires Ready()
      ensures r == Fetched(store.Now(), pk, vk, t, fails)
    {
      hide Valid;
      r := None;
      if !fails {
        var got := store.GetVariant(pk, vk, t);
        r := got.value;
      }
    }

    /** Decompress into a buffer and compare its length with the recorded one. */
    method Decompress(v: Variant, comp: Bytes) returns (known: bool, body: Option<Bytes>)
      ensures known == (CodecName(v) in cfg.codecs) && body == Decoded(cfg, v, comp)
    {
      var codec := v.codec;
      if codec == [] { codec := LZ4; }
      if codec !in cfg.codecs { return false, None; }
      var b := cfg.codecs[codec].decompress(comp);
      if b.None? || |b.value| != v.rawSize { return true, None; }
      return true, b;
    }

    method LoadDecompressed(pk: Key, vk: Key, e: Env) returns (got: Option<(Variant, Bytes)>)
      requires Ready()
      modifies store
      ensures Ready()
      ensures var l := Load(cfg, old(store.Now()), pk, vk, e); got == l.got && store.Now() == l.store
      ensures got.Some? ==> store.Now() == old(store.Now())
    {
      hide Valid, Marked, Removed, Fetched, Decoded;
      var f := ReadVariant(pk, vk, e.load, e.loadFails);
      if f.None? || (f.value.0.rawSize > 0 && |f.value.1| == 0) { return None; }
      var known, body := Decompress(f.value.0, f.value.1);
      if !known { return None; }
      if body.None? {
        var n := store.Purge(pk, true);
        return None;
      }
      return Some((f.value.0, body.value));
    }

    // ---------- States ----------

    method FetchOriginMiss(req: Request, vk: Key, e: Env) returns (a: Handler.Answer)
      requires Ready()
      modifies this`log, store
      ensures Ready() && Outcome(Now(), a) == Miss(cfg, old(Now()), req, vk, e)
    {
      hide Valid, SaveIfAllowed, Prepare, NonHop;
      if e.reply.Panicked? { return ServerError; }
      var status, h, body := e.reply.status, e.reply.headers, e.reply.body;
      if HasCookie(h) { return FromOrigin(status, h, Sent(req, body), []); }
      if cfg.parse(h).eventStream { return FromOrigin(status, h, Sent(req, body), []); }
      var p := InspectAndPrepareEsi(status, h, body);
      if p.ScanDied? { return Crashed; }
      StoreResponse(req, vk, p.full, e);
      if |p.full.fragments| > 0 { return FromOrigin(status, NonHop(p.full.headers), Sent(req, body), p.full.fragments); }
      if req.conditional && 200 <= status < 300 {
        if e.precondition.IsNotModified? { return FromOrigin(304, NonHop(p.full.headers), None, []); }
      }
      return FromOrigin(status, NonHop(p.full.headers), Sent(req, body), p.full.fragments);
    }

    method SpawnSWR(req: Request, vk: Key)
      modifies this`pending
      ensures pending == if cfg.closed then old(pending) else old(pending) + [Task(req, vk)]
    {
      if cfg.closed { return; }
      pending := pending + [Task(req, vk)];
    }

    method ServeCachedHit(req: Request, vk: Key, m: Meta, v: Variant, e: Env) returns (a: Handler.Answer)
      requires Ready()
      modifies this`log, store
      ensures Ready() && Outcome(Now(), a) == ServeListed(cfg, old(Now()), req, vk, m, v, HIT, e)
    {
      hide Valid, Load, Miss;
      if req.head || v.rawSize == 0 { return FromCache(HIT, vk, v.status, v.headers, None, Sent(req, []), v.fragments); }
      var got := LoadDecompressed(req.pk, vk, e);
      if got.None? {
        a := FetchOriginMiss(req, vk, e);
        return;
      }
      return FromCache(HIT, vk, got.value.0.status, got.value.0.headers, Some(AgeSent(m, e.now)), Some(got.value.1), got.value.0.fragments);
    }

    method ServeSWR(req: Request, vk: Key, m: Meta, v: Variant, e: Env) returns (a: Handler.Answer)
      requires Ready()
      modifies this`log, this`pending, store
      ensures Ready() && Outcome(Now(), a) == ServeListed(cfg, old(Now()), req, vk, m, v, UPDATING, e)
    {
      hide Valid, Load, Miss;
      if req.head || v.rawSize == 0 {
        SpawnSWR(req, vk);
        return FromCache(UPDATING, vk, v.status, v.headers, Some(AgeSent(m, e.now)), Sent(req, []), v.fragments);
      }
      var got := LoadDecompressed(req.pk, vk, e);
      if got.None? {
        a := FetchOriginMiss(req, vk, e);
        return;
      }
      SpawnSWR(req, vk);
      return FromCache(UPDATING, vk, got.value.0.status, got.value.0.headers, Some(AgeSent(m, e.now)), Some(got.value.1), got.value.0.fragments);
    }

    /** Edit the stored variant and metadata in place after a confirmation and write them back. */
    method RefreshStored(req: Request, vk: Key, m: Meta, v: Variant, comp: Bytes, h: Headers, e: Env) returns (v': Variant)
      requires Ready()
      modifies this`log, store
      ensures Ready() && v' == RefreshedVariant(cfg, v, h) && Now() == Refresh(cfg, old(Now()), req, vk, m, v, comp, h, e)
    {
      hide Valid, AfterSet, MergedHeaders, Ttl, InitialAge, SwrWindow, SieWindow, CleanHeaders, Storable, Lifetime, CurrentAge, ApparentAge;
      var merged := MergeHeaders(v.headers, h);
      v' := v.(headers := merged);
      var etag := Get(h, ETAG);
      if etag != [] {
        v' := v'.(etag := etag);
        merged := merged[ETAG := [etag]];
      }
      var lm := LastModified(cfg, h);
      if lm.Some? {
        v' := v'.(lastModified := lm.value);
        merged := merged[LAST_MODIFIED := [Get(h, LAST_MODIFIED)]];
      }
      assert merged == RefreshFields(cfg, v, h) && v' == RefreshedVariant(cfg, v, h);
      var info := CalculateFreshness(200, req.authorized, cfg.parse(merged), e.asked, e.answered, e.answered, e.clock);
      if info.ttl > 0 && !cfg.closed && !e.saveFails {
        WriteRefresh(req, vk, m, v', v.status, comp, merged, h, info, e);
      }
    }

    method WriteRefresh(req: Request, vk: Key, m: Meta, v: Variant, status: int, comp: Bytes, fields: Headers, h: Headers,
                        info: Info, e: Env)
      requires Ready() && InfoFor(info, fields, e)
      modifies this`log, store
      ensures Ready()
      ensures var p := cfg.parse(fields);
        Now() == old(Now()).(
          store := AfterSet(old(store.Now()), req.pk, MetaRefreshed(m, p, e.asked, e.answered), v, comp,
                            StorageTtl(p, e.asked, e.answered), e.wrote),
          log := old(log) + [Event(req.pk, vk, req, status, fields, h, [], [], true, m.vary, e.asked, e.answered, e.clock, true)])
    {
      hide Valid, AfterSet, Ttl, InitialAge, SwrWindow, SieWindow;
      NonNegative(cfg.parse(fields), e.asked, e.answered);
      var meta := m.(expiresAt := e.answered + info.ttl);
      if info.swrTtl > 0 {
        meta := meta.(staleUntil := meta.expiresAt + info.swrTtl);
      } else {
        meta := meta.(staleUntil := meta.expiresAt);
      }
      var ttl := info.ttl + Max(info.swrTtl, info.sieTtl);
      var ok := store.SetVariant(req.pk, meta, v, comp, ttl, e.wrote);
      log := log + [Event(req.pk, vk, req, status, fields, h, [], [], true, m.vary, e.asked, e.answered, e.clock, true)];
    }

    /** Answer from a flight's result nobody else waits for. */
    method ServeResult(req: Request, vk: Key, r: FlightResult, e: Env) returns (a: Handler.Answer)
      ensures a == AnswerOf(cfg, req, vk, r, false, e)
    {
      hide Decoded, NonHop;
      if r.Died? { return Crashed; }
      if r.Copy? {
        if r.kind.REVALIDATED? && e.precondition.IsNotModified? { return Handler.NotModified(REVALIDATED); }
        var known, body := Decompress(r.variant, r.bytes);
        if body.Some? {
          return FromCache(r.kind, vk, r.variant.status, r.variant.headers, Some(AgeSent(r.meta, e.served)),
                           Sent(req, body.value), r.variant.fragments);
        }
        return Empty;
      }
      if |r.full.fragments| > 0 {
        return FromOrigin(r.full.status, NonHop(r.full.headers), Sent(req, r.full.body), r.full.fragments);
      }
      return FromOrigin(r.full.status, r.full.headers, Sent(req, r.full.body), []);
    }

    /** The double check inside a flight. */
    method Recheck(pk: Key, vk: Key, e: Env) returns (r: Option<(Variant, Bytes)>, m: Meta)
      requires Ready()
      ensures r.Some? <==> RecheckFinds(store.Now(), pk, vk, e)
      ensures r.Some? ==> r == Fetched(store.Now(), pk, vk, e.check, false) && m == store.meta[pk].meta
    {
      hide Fetched, ListsVariant;
      r, m := None, Meta([], 0, 0, 0, 0, []);
      if e.checkFails { return; }
      var latest := store.GetMeta(pk, e.check, e.check);
      if latest.value.None? { return; }
      var found := latest.value.value;
      m := found.meta;
      if found.soft || m.expiresAt <= e.check { return; }
      var f := ReadVariant(pk, vk, e.check, false);
      if f.Some? && (f.value.0.rawSize == 0 || |f.value.1| > 0) { r := f; }
    }

    method FetchOriginRevalidate(req: Request, vk: Key, m: Meta, v: Variant, e: Env) returns (a: Handler.Answer)
      requires Ready()
      modifies this`log, store
      ensures Ready() && Outcome(Now(), a) == Revalidate(cfg, old(Now()), req, vk, m, v, e)
    {
      hide Valid, Fetched, RecheckFinds, Land, AnswerOf;
      var held := ReadVariant(req.pk, vk, e.load, e.loadFails);
      var comp := if held.Some? then held.value.1 else [];
      var latest, latestMeta := Recheck(req.pk, vk, e);
      if latest.Some? {
        a := ServeResult(req, vk, Copy(STALE, latestMeta, latest.value.0, latest.value.1), e);
        return;
      }
      var r := AskOrigin(req, vk, m, v, comp, e);
      a := ServeResult(req, vk, r, e);
    }

    /** Ask the origin about the stored variant and store what comes of it. */
    method AskOrigin(req: Request, vk: Key, m: Meta, v: Variant, comp: Bytes, e: Env) returns (r: FlightResult)
      requires Ready()
      modifies this`log, store
      ensures Ready() && Landing(Now(), r) == Land(cfg, old(Now()), req, vk, m, v, comp, e)
    {
      hide Valid, SaveIfAllowed, Refresh, RefreshedVariant, Prepare;
      if e.reply.Panicked? { return Copy(STALE, m, v, comp); }
      var status, h, body := e.reply.status, e.reply.headers, e.reply.body;
      if status == 304 && |comp| > 0 {
        var v' := RefreshStored(req, vk, m, v, comp, h, e);
        return Copy(REVALIDATED, m, v', comp);
      }
      if status >= 500 && |comp| > 0 { return Copy(STALE, m, v, comp); }
      var p := InspectAndPrepareEsi(status, h, body);
      if p.ScanDied? { return Died; }
      StoreResponse(req, vk, p.full, e);
      return Fetch(p.full);
    }

    method EvaluateFreshness(req: Request, vk: Key, entry: MetaEntry, v: Variant, e: Env) returns (a: Handler.Answer)
      requires Ready()
      modifies this`log, this`pending, store
      ensures Ready() && Outcome(Now(), a) == ServeMatched(cfg, old(Now()), req, vk, entry, v, e)
    {
      hide Valid, ServeListed, Revalidate;
      if entry.soft {
        a := FetchOriginRevalidate(req, vk, entry.meta, v, e);
        return;
      }
      if e.now <= entry.meta.expiresAt {
        match e.precondition {
          case IsNotModified => return Handler.NotModified(HIT);
          case IsFailed => return PreconditionFailed;
          case Proceed =>
            a := ServeCachedHit(req, vk, entry.meta, v, e);
            return;
        }
      }
      if entry.meta.staleUntil > entry.meta.expiresAt && e.now <= entry.meta.staleUntil {
        a := ServeSWR(req, vk, entry.meta, v, e);
        return;
      }
      if req.onlyIfCached { return GatewayTimeout; }
      a := FetchOriginRevalidate(req, vk, entry.meta, v, e);
    }

    /** Lookup, variant match, freshness. */
    method ServeHTTP(req: Request, e: Env) returns (a: Handler.Answer)
      requires Ready()
      modifies this`log, this`pending, store
      ensures Ready() && Outcome(Now(), a) == Serve(cfg, old(Now()), req, e)
    {
      hide Miss, ServeMatched, VariantKey.Key;
      if e.lookupFails { return Bypass; }
      var got := store.GetMeta(req.pk, e.now, e.now);
      if got.value.None? {
        if req.onlyIfCached { return GatewayTimeout; }
        a := FetchOriginMiss(req, [], e);
        return;
      }
      var found := got.value.value;
      var vk := VariantKey.GenerateVariantKey(req.fields, found.meta.vary);
      if vk == [] { vk := DEFAULT; }
      if vk !in found.variants {
        if req.onlyIfCached { return GatewayTimeout; }
        a := FetchOriginMiss(req, vk, e);
        return;
      }
      ghost var entry := store.meta[req.pk];
      JudgeSame(cfg, Now(), req, vk, entry, MetaEntry(found.meta, found.soft, None), found.variants[vk], e);
      a := EvaluateFreshness(req, vk, MetaEntry(found.meta, found.soft, None), found.variants[vk], e);
    }

    /** A background refresh picked from the pending ones. */
    method RevalidateOriginAsync(i: nat, e: Env)
      requires Ready() && i < |pending|
      modifies this`log, this`pending, store
      ensures Ready() && Now() == After(cfg, old(Now()), Finishing(i, e))
    {
      hide Valid, SaveIfAllowed, Serve, TestStore.Apply, Prepare;
      var t := pending[i];
      pending := pending[..i] + pending[i + 1..];
      if e.reply.Panicked? { return; }
      var p := InspectAndPrepareEsi(e.reply.status, e.reply.headers, e.reply.body);
      if p.ScanDied? { return; }
      StoreResponse(t.req, t.vk, p.full, e);
    }

    /** A whole request: its primary key is generated from the HTTP request, then looked up. */
    method Handle(http: PrimaryKey.Request, keys: QueryString.CacheKey, fields: VariantKey.Fields, authorized: bool,
                  conditional: bool, onlyIfCached: bool, e: Env) returns (a: Handler.Answer)
      requires Ready()
      modifies this`log, this`pending, store
      ensures Ready()
      ensures var req := Request(PrimaryKey.KeyOf(http, keys), fields, http.verb == "HEAD", authorized, conditional, onlyIfCached);
        Outcome(Now(), a) == Serve(cfg, old(Now()), req, e)
    {
      hide Serve, Valid, PrimaryKey.KeyOf;
      var pk := PrimaryKey.GeneratePrimaryKey(http, keys);
      a := ServeHTTP(Request(pk, fields, http.verb == "HEAD", authorized, conditional, onlyIfCached), e);
    }
  }

  /** The storage expiry of metadata plays no part once it was read. */
  lemma JudgeSame(cfg: Config, w: World, req: Request, vk: Key, a: MetaEntry, b: MetaEntry, v: Variant, e: Env)
    requires a.meta == b.meta && a.soft == b.soft
    ensures ServeMatched(cfg, w, req, vk, a, v, e) == ServeMatched(cfg, w, req, vk, b, v, e)
  {
    hide ServeListed, Revalidate, Judge;
  }
}
