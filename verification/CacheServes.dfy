/** From one request to the next: what a response leaves in the cache and whom it answers afterwards. */
module CacheServes {
  import opened KeyBytes
  import opened StoreState
  import opened Freshness
  import opened Handler
  import opened CacheRuns
  import opened CacheAnswers
  import FreshRules
  import HeaderRules
  import VariantKey
  import EsiParse
  import EsiScan

  // ---------- What a miss stores ----------

  /** A shared cache may keep the response to this request, and the cache can. */
  ghost predicate Keepable(cfg: Config, req: Request, e: Env) {
    && e.reply.Reply? && !Unreadable(cfg, e.reply.headers, e.reply.body)
    && !FreshRules.Unshareable(e.reply.status, req.authorized, cfg.parse(FieldsLeft(cfg, e.reply.headers)), e.clock)
    && (!req.head || cfg.convertHead) && !cfg.closed && !e.saveFails
  }

  /** The entry a full response leaves. */
  ghost predicate Entered(cfg: Config, x: VarEntry, reply: Reply)
    requires reply.Reply?
  {
    var h := FieldsLeft(cfg, reply.headers);
    && x.variant.status == reply.status && HeaderRules.StoredFrom(x.variant.headers, h) && x.variant.rawSize == |reply.body|
    && x.variant.fragments == Tags(cfg, reply.headers, reply.body) && Unpacks(cfg, x, reply.body) && (reply.body != [] ==> x.body != [])
    && x.variant.etag == First(h, "Etag") && x.variant.lastModified == (var at := cfg.date(First(h, "Last-Modified")); if at.Some? then at.value else 0)
  }

  /** The first value of a field, or nothing. */
  function First(h: Headers, k: Bytes): Bytes { if k in h && h[k] != [] then h[k][0] else [] }

  /** The metadata a full response leaves. */
  function MetaOf(cfg: Config, h: Headers, e: Env): (m: Meta)
    ensures m.vary == VaryNames(h) && m.tags == cfg.tagsOf(h) && m.createdAt == e.answered
  {
    MetaFor(VaryNames(h), cfg.tagsOf(h), cfg.parse(h), e.asked, e.answered)
  }

  lemma PackedEntered(cfg: Config, key: Key, f: Full, reply: Reply, exp: Option<Time>)
    requires Lossless(cfg) && Grounded(cfg) && reply.Reply? && key != []
    requires f == Full(reply.status, FieldsLeft(cfg, reply.headers), reply.body, Tags(cfg, reply.headers, reply.body))
    ensures Entered(cfg, VarEntry(VariantFor(cfg, key, f), Packed(cfg, f.headers, f.body).1, exp), reply)
  {
    hide Lossless, Grounded, StoredHeaders, HeaderRules.StoredFrom, EsiScan.Frags, Packed, Decoded, Unpacks;
    var v := VariantFor(cfg, key, f);
    HeaderRules.StoredExactly(f.headers);
    PackedDecodes(cfg, f.headers, f.body, v);
    UnpacksDecoded(cfg, VarEntry(v, Packed(cfg, f.headers, f.body).1, exp), f.body);
    if Packed(cfg, f.headers, f.body).1 == [] { NothingDecodes(cfg, v); }
  }

  lemma UnpacksDecoded(cfg: Config, x: VarEntry, b: Bytes)
    requires Decoded(cfg, x.variant, x.body) == Some(b)
    ensures Unpacks(cfg, x, b)
  {
  }

  /** Bodies are stored as they are if they are small, encoded already, of a type not worth packing, or if the configured
      codec is unknown or fails; otherwise as the codec packs them. */
  lemma PackedExactly(cfg: Config, h: Headers, body: Bytes)
    requires body != []
    ensures var packs := |body| >= 256 && !("Content-Encoding" in h && h["Content-Encoding"] != [] && h["Content-Encoding"][0] != [])
        && !cfg.precompressed(Get(h, CONTENT_TYPE)) && cfg.configured in cfg.codecs;
      var codec := if packs then cfg.configured else NO_CODEC;
      Packed(cfg, h, body) == (if codec in cfg.codecs && cfg.codecs[codec].compress(body).Some?
                               then (codec, cfg.codecs[codec].compress(body).value) else (NO_CODEC, body))
  {
  }

  /** What stands under a variant key of a primary key. */
  ghost predicate Holding(cfg: Config, s: Store, pk: Key, vk: Key, m: Meta, reply: Reply)
    requires reply.Reply?
  {
    && pk in s.meta && s.meta[pk].meta == m && !s.meta[pk].soft
    && pk in s.variants && vk in s.variants[pk] && Entered(cfg, s.variants[pk][vk], reply)
  }

  /** Every other variant and every other key is as it was. */
  ghost predicate OthersKept(s: Store, s': Store, pk: Key, vk: Key) {
    && (forall k :: k != pk ==> (k in s'.meta <==> k in s.meta) && (k in s.meta ==> s'.meta[k] == s.meta[k]))
    && (forall k :: k != pk ==> (k in s'.variants <==> k in s.variants) && (k in s.variants ==> s'.variants[k] == s.variants[k]))
    && (forall v :: v != vk && pk in s.variants && v in s.variants[pk] ==>
          pk in s'.variants && v in s'.variants[pk] && s'.variants[pk][v] == s.variants[pk][v])
  }

  lemma SavedHolds(cfg: Config, w: World, req: Request, vk: Key, e: Env)
    requires Lossless(cfg) && Grounded(cfg) && Keepable(cfg, req, e)
    ensures var h := FieldsLeft(cfg, e.reply.headers);
      var f := Full(e.reply.status, h, e.reply.body, Tags(cfg, e.reply.headers, e.reply.body));
      var w', key := SaveIfAllowed(cfg, w, req, vk, f, e), SaveKey(req, vk, h);
      && Prepare(cfg, e.reply.status, e.reply.headers, e.reply.body) == Ready(f)
      && Holding(cfg, w'.store, req.pk, key, MetaOf(cfg, h, e), e.reply) && OthersKept(w.store, w'.store, req.pk, key)
  {
    hide Lossless, Grounded, VaryNames, VariantKey.Key, Storable, FreshRules.Unshareable, Packed, StoredHeaders, EsiScan.Frags, EsiParse.RunsOff,
      WithTags, MetaFor, StorageTtl, Entered, SaveKey;
    var h := FieldsLeft(cfg, e.reply.headers);
    var f := Full(e.reply.status, h, e.reply.body, Tags(cfg, e.reply.headers, e.reply.body));
    var key := SaveKey(req, vk, h);
    FreshRules.StorableExactly(f.status, req.authorized, cfg.parse(h), e.clock);
    KeyNotEmpty(req, vk, h);
    PackedEntered(cfg, key, f, e.reply, Expiry(StorageTtl(cfg.parse(h), e.asked, e.answered), e.wrote));
  }

  lemma KeyNotEmpty(req: Request, vk: Key, h: Headers)
    ensures SaveKey(req, vk, h) != [] && Named(SaveKey(req, vk, h)) == SaveKey(req, vk, h)
  {
    hide VaryNames, VariantKey.Key;
  }

  /** The first request for a key: what may be kept is kept under the key its own Vary gives, nothing else changes. */
  lemma FirstRequestStores(cfg: Config, w: World, req: Request, e: Env)
    requires Lossless(cfg) && Grounded(cfg)
    requires !e.lookupFails && !HasMeta(w.store, req.pk, e.now) && !req.onlyIfCached
    requires e.reply.Reply? ==> !PassesThrough(cfg, e.reply.headers)
    ensures var s' := Serve(cfg, w, req, e).world.store;
      if Keepable(cfg, req, e) then
        var h := FieldsLeft(cfg, e.reply.headers);
        var key := Named(VariantKey.Key(VaryNames(h), req.fields));
        Holding(cfg, s', req.pk, key, MetaOf(cfg, h, e), e.reply) && OthersKept(w.store, s', req.pk, key)
      else s' == w.store
  {
    hide Lossless, Grounded, VaryNames, VariantKey.Key, Holding, OthersKept, MetaFor, SaveIfAllowed, EsiScan.Frags, EsiParse.RunsOff, FreshRules.Unshareable;
    if Keepable(cfg, req, e) {
      SavedHolds(cfg, w, req, [], e);
    } else if e.reply.Reply? && !Unreadable(cfg, e.reply.headers, e.reply.body) {
      NotSaved(cfg, w, req, [], e);
    }
  }

  lemma NotSaved(cfg: Config, w: World, req: Request, vk: Key, e: Env)
    requires e.reply.Reply? && !Unreadable(cfg, e.reply.headers, e.reply.body) && !Keepable(cfg, req, e)
    ensures var p := Prepare(cfg, e.reply.status, e.reply.headers, e.reply.body);
      p.Ready? && SaveIfAllowed(cfg, w, req, vk, p.full, e) == w
  {
    hide Storable, FreshRules.Unshareable, EsiScan.Frags, EsiParse.RunsOff, AfterSet, VaryNames, VariantKey.Key;
    FreshRules.StorableExactly(e.reply.status, req.authorized, cfg.parse(FieldsLeft(cfg, e.reply.headers)), e.clock);
  }

  // ---------- Whom it answers ----------

  /** An answer made from the stored reply. */
  ghost predicate Repeats(cfg: Config, a: Answer, kind: Kind, req: Request, reply: Reply)
    requires reply.Reply?
  {
    && a.FromCache? && a.kind == kind && a.status == reply.status && HeaderRules.StoredFrom(a.headers, FieldsLeft(cfg, reply.headers))
    && a.body == (if req.head then None else Some(reply.body)) && a.fragments == Tags(cfg, reply.headers, reply.body)
  }

  /** A fresh entry answers every request that matches its key. */
  lemma HeldAnswers(cfg: Config, w: World, req: Request, e: Env, m: Meta, vk: Key, reply: Reply)
    requires reply.Reply? && Holding(cfg, w.store, req.pk, vk, m, reply) && MatchKey(m, req) == vk
    requires Found(w, req, e) && !e.loadFails && HasVariant(w.store, req.pk, vk, e.load)
    requires e.precondition.Proceed? && e.now <= m.expiresAt
    ensures var o := Serve(cfg, w, req, e); o.world == w && Repeats(cfg, o.answer, HIT, req, reply)
  {
    hide MatchKey, Serve, HeaderRules.StoredFrom, Tags, Unpacks;
    HitAnswered(cfg, w, req, e, reply.body);
  }

  /** After a first request whose response may be kept, every request for the same key that agrees on the headers the
      response varies on is answered with it, for as long as it is fresh. */
  lemma SecondRequestHits(cfg: Config, w: World, req: Request, e: Env, req2: Request, e2: Env, later: Time)
    requires Lossless(cfg) && Grounded(cfg)
    requires !e.lookupFails && req.pk !in w.store.meta && !req.onlyIfCached
    requires Keepable(cfg, req, e) && !PassesThrough(cfg, e.reply.headers) && e.answered <= e.wrote
    requires var h := FieldsLeft(cfg, e.reply.headers);
      && req2.pk == req.pk && VariantKey.Key(VaryNames(h), req2.fields) == VariantKey.Key(VaryNames(h), req.fields)
      && FreshRules.FreshAt(VaryNames(h), cfg.tagsOf(h), cfg.parse(h), e.asked, e.answered, later)
    requires !e2.lookupFails && !e2.loadFails && e2.precondition.Proceed? && e2.now < later && e2.load < later
    ensures var w' := Serve(cfg, w, req, e).world;
      var o := Serve(cfg, w', req2, e2);
      o.world == w' && Repeats(cfg, o.answer, HIT, req2, e.reply)
  {
    hide Lossless, Grounded, VaryNames, VariantKey.Key, Serve, Repeats, EsiScan.Frags, EsiParse.RunsOff, FreshRules.Unshareable, OthersKept, Entered;
    var h := FieldsLeft(cfg, e.reply.headers);
    FirstRequestStores(cfg, w, req, e);
    FirstExpiry(cfg, w, req, e);
    NonNegative(cfg.parse(h), e.asked, e.answered);
    hide Ttl, SwrWindow, SieWindow, InitialAge;
    HeldAnswers(cfg, Serve(cfg, w, req, e).world, req2, e2, MetaOf(cfg, h, e), Named(VariantKey.Key(VaryNames(h), req.fields)), e.reply);
  }

  /** When the store lets go of it. */
  lemma FirstExpiry(cfg: Config, w: World, req: Request, e: Env)
    requires !e.lookupFails && req.pk !in w.store.meta && !req.onlyIfCached
    requires Keepable(cfg, req, e) && !PassesThrough(cfg, e.reply.headers)
    ensures var s', h := Serve(cfg, w, req, e).world.store, FieldsLeft(cfg, e.reply.headers);
      var key, exp := Named(VariantKey.Key(VaryNames(h), req.fields)), Expiry(StorageTtl(cfg.parse(h), e.asked, e.answered), e.wrote);
      req.pk in s'.meta && s'.meta[req.pk].expires == exp && req.pk in s'.variants && key in s'.variants[req.pk] && s'.variants[req.pk][key].expires == exp
  {
    hide VaryNames, VariantKey.Key, Storable, FreshRules.Unshareable, Packed, StoredHeaders, EsiScan.Frags, EsiParse.RunsOff, WithTags, MetaFor, StorageTtl;
    var h := FieldsLeft(cfg, e.reply.headers);
    FreshRules.StorableExactly(e.reply.status, req.authorized, cfg.parse(h), e.clock);
    KeyNotEmpty(req, [], h);
  }

  // ---------- What a background refresh stores ----------

  /** A background refresh puts the new response in the place of the old one; one that may not be kept changes nothing. */
  lemma RefreshReplaces(cfg: Config, w: World, i: nat, e: Env)
    requires Lossless(cfg) && Grounded(cfg) && i < |w.pending|
    ensures var t, w' := w.pending[i], After(cfg, w, Finishing(i, e));
      && w'.pending == w.pending[..i] + w.pending[i + 1..]
      && if Keepable(cfg, t.req, e) then
           var h := FieldsLeft(cfg, e.reply.headers);
           var key := if t.vk == [] || t.vk == DEFAULT then Named(VariantKey.Key(VaryNames(h), t.req.fields)) else t.vk;
           Holding(cfg, w'.store, t.req.pk, key, MetaOf(cfg, h, e), e.reply) && OthersKept(w.store, w'.store, t.req.pk, key)
         else w'.store == w.store
  {
    hide Lossless, Grounded, VaryNames, VariantKey.Key, Holding, OthersKept, MetaFor, EsiScan.Frags, EsiParse.RunsOff, FreshRules.Unshareable, AfterSet, Storable;
    var t, rest := w.pending[i], w.(pending := w.pending[..i] + w.pending[i + 1..]);
    if Keepable(cfg, t.req, e) {
      SavedHolds(cfg, rest, t.req, t.vk, e);
    } else if e.reply.Reply? && !Unreadable(cfg, e.reply.headers, e.reply.body) {
      NotSaved(cfg, rest, t.req, t.vk, e);
    }
  }

  // ---------- What a confirmation stores ----------

  /** The fields a confirmation is judged by: its own laid over the stored ones, of several validators only the first. */
  ghost predicate JudgedBy(cfg: Config, fields: Headers, stored: Headers, h: Headers) {
    && (forall k :: k != "Etag" && k != "Last-Modified" ==>
          var told := k in h && !HopByHop(k) && k != "Set-Cookie";
          (k in fields <==> told || k in stored) && (k in fields ==> fields[k] == if told then h[k] else stored[k]))
    && ("Etag" in h && h["Etag"] != [] && h["Etag"][0] != [] ==> "Etag" in fields && fields["Etag"] == [h["Etag"][0]])
    && ("Etag" !in h ==> ("Etag" in fields <==> "Etag" in stored) && ("Etag" in fields ==> fields["Etag"] == stored["Etag"]))
  }

  lemma RefreshFieldsJudged(cfg: Config, v: Variant, h: Headers)
    ensures JudgedBy(cfg, RefreshFields(cfg, v, h), v.headers, h)
  {
    hide MergedHeaders;
    MergedIs(v.headers, h);
    assert |"Etag"| == 4 && |"Last-Modified"| == 13 && |"Set-Cookie"| == 10;
  }

  /** A response with these fields is fresh for some time after its arrival. */
  ghost predicate Lasts(cfg: Config, h: Headers, e: Env) {
    FreshRules.FreshAt([], [], cfg.parse(h), e.asked, e.answered, e.answered + 1)
  }

  lemma LastsExactly(cfg: Config, h: Headers, e: Env)
    ensures Lasts(cfg, h, e) <==> Ttl(cfg.parse(h), e.asked, e.answered) > 0
  {
    hide Lifetime, InitialAge, SwrWindow;
  }

  /** The entry after a confirmation: same representation, the confirmation's fields over its own, a validator of the
      confirmation in the place of its own. */
  ghost predicate Confirmed(cfg: Config, x': VarEntry, x: VarEntry, bytes: Bytes, h: Headers) {
    && x'.body == bytes && x'.variant.status == x.variant.status && x'.variant.rawSize == x.variant.rawSize
    && x'.variant.codec == x.variant.codec && x'.variant.fragments == x.variant.fragments
    && LaidOver(x'.variant.headers, x.variant.headers, h)
    && x'.variant.etag == (if First(h, "Etag") != [] then First(h, "Etag") else x.variant.etag)
    && x'.variant.lastModified == (var at := cfg.date(First(h, "Last-Modified")); if at.Some? then at.value else x.variant.lastModified)
  }

  /** A confirmation moves the expiry and clears the mark, exactly if it grants some time and can be written. */
  lemma ConfirmationStores(cfg: Config, w: World, req: Request, e: Env, h: Headers, body: Bytes)
    requires Found(w, req, e) && MustAsk(w, req, e) && StillStale(w, req, e) && e.reply == Reply(304, h, body)
    requires HeldBytes(w, req, e) != []
    requires FoundEntry(w, req, e).variant.key == MatchKey(w.store.meta[req.pk].meta, req)
    ensures var x, m, vk := FoundEntry(w, req, e), w.store.meta[req.pk].meta, MatchKey(w.store.meta[req.pk].meta, req);
      var s', fields := Serve(cfg, w, req, e).world.store, RefreshFields(cfg, x.variant, h);
      && JudgedBy(cfg, fields, x.variant.headers, h)
      && if Lasts(cfg, fields, e) && !cfg.closed && !e.saveFails then
           && req.pk in s'.meta && !s'.meta[req.pk].soft && req.pk in s'.variants && vk in s'.variants[req.pk]
           && Confirmed(cfg, s'.variants[req.pk][vk], x, HeldBytes(w, req, e), h) && OthersKept(w.store, s', req.pk, vk)
           && var m' := s'.meta[req.pk].meta;
           && m'.vary == m.vary && m'.createdAt == m.createdAt && m'.initialAgeSeconds == m.initialAgeSeconds && m'.tags == m.tags
           && m'.expiresAt == MetaFor(m.vary, m.tags, cfg.parse(fields), e.asked, e.answered).expiresAt
         else s' == w.store
  {
    hide MatchKey, Miss, RecheckFinds, SaveIfAllowed, Prepare, Load, ServeListed, AnswerOf, Ttl, SwrWindow, SieWindow, InitialAge, AfterSet, Lasts, JudgedBy,
      Confirmed, OthersKept, RefreshFields, RefreshedVariant;
    var x, m, vk := FoundEntry(w, req, e), w.store.meta[req.pk].meta, MatchKey(w.store.meta[req.pk].meta, req);
    KeyNamed(m, req);
    RecheckExactly(w, req, e);
    RefreshFieldsJudged(cfg, x.variant, h);
    LastsExactly(cfg, RefreshFields(cfg, x.variant, h), e);
    RefreshSet(cfg, w.store, req.pk, vk, MetaRefreshed(m, cfg.parse(RefreshFields(cfg, x.variant, h)), e.asked, e.answered), x, h, HeldBytes(w, req, e),
      StorageTtl(cfg.parse(RefreshFields(cfg, x.variant, h)), e.asked, e.answered), e.wrote);
  }

  lemma RefreshSet(cfg: Config, s: Store, pk: Key, vk: Key, m: Meta, x: VarEntry, h: Headers, bytes: Bytes, ttl: int, wrote: Time)
    requires x.variant.key == vk && vk != []
    ensures var s' := AfterSet(s, pk, m, RefreshedVariant(cfg, x.variant, h), bytes, ttl, wrote);
      && pk in s'.meta && !s'.meta[pk].soft && s'.meta[pk].meta == m && pk in s'.variants && vk in s'.variants[pk]
      && Confirmed(cfg, s'.variants[pk][vk], x, bytes, h) && OthersKept(s, s', pk, vk)
  {
    hide RefreshedVariant, LaidOver, WithTags;
    VariantConfirmed(cfg, x, h);
  }

  lemma VariantConfirmed(cfg: Config, x: VarEntry, h: Headers)
    ensures var v := RefreshedVariant(cfg, x.variant, h);
      v.key == x.variant.key && forall bytes, exp :: Confirmed(cfg, VarEntry(v, bytes, exp), x, bytes, h)
  {
    hide MergedHeaders, LaidOver;
    MergedIs(x.variant.headers, h);
  }
}
