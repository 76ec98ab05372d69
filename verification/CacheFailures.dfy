/** What the cache does when the origin fails or merely confirms what is stored. */
module CacheFailures {
  import opened KeyBytes
  import opened StoreState
  import opened Freshness
  import opened Handler
  import opened CacheRuns
  import opened CacheLaws
  import EsiParse
  import EsiScan

  // ---------- Failing origin ----------

  /** The request reaches revalidation: its variant is listed, and soft-purged or past every window. */
  ghost predicate MustAsk(w: World, req: Request, e: Env) {
    && !e.lookupFails && HasMeta(w.store, req.pk, e.now)
    && var entry := w.store.meta[req.pk];
    && ListsVariant(w.store, req.pk, MatchKey(entry.meta, req), e.now)
    && Judge(entry.meta, entry.soft, e.now).Expired? && (entry.soft || !req.onlyIfCached)
  }

  ghost predicate Loads(w: World, req: Request, vk: Key, e: Env) { !e.loadFails && HasVariant(w.store, req.pk, vk, e.load) }

  /** The origin failed: it panicked, or answered with a server error while there are bytes to fall back on. */
  ghost predicate Failing(w: World, req: Request, vk: Key, e: Env)
    requires req.pk in w.store.variants && vk in w.store.variants[req.pk]
  {
    var x := w.store.variants[req.pk][vk];
    match e.reply
    case Panicked => Loads(w, req, vk, e) || x.variant.rawSize == 0
    case Reply(status, _, _) => status >= 500 && Loads(w, req, vk, e) && x.body != []
  }

  /** Landing on a copy that decodes is what makes an answer stale. */
  lemma ContactStale(cfg: Config, w: World, req: Request, vk: Key, m: Meta, v: Variant, comp: Bytes, e: Env)
    ensures var a := Contact(cfg, w, req, vk, m, v, comp, e).answer;
      (a.FromCache? && a.kind.STALE?) <==>
        && Decoded(cfg, v, comp).Some?
        && (e.reply.Panicked? || (e.reply.status >= 500 && comp != []))
  {
    hide Refresh, SaveIfAllowed, Prepare, RefreshedVariant, Decoded;
  }

  lemma EmptyDecodes(cfg: Config, x: VarEntry)
    requires Lossless(cfg) && Grounded(cfg)
    requires x.variant.rawSize == 0 ==> x.body == [] && x.variant.codec == NO_CODEC
    ensures Decoded(cfg, x.variant, []).Some? <==> x.variant.rawSize == 0
  {
    if Decoded(cfg, x.variant, []).Some? { NothingDecodes(cfg, x.variant); }
  }

  lemma RevalidateStale(cfg: Config, w: World, req: Request, vk: Key, m: Meta, e: Env)
    requires Lossless(cfg) && Grounded(cfg) && Inv(cfg, w) && req.pk in w.store.variants && vk in w.store.variants[req.pk]
    ensures var a := Revalidate(cfg, w, req, vk, m, w.store.variants[req.pk][vk].variant, e).answer;
      (a.FromCache? && a.kind.STALE?) <==> RecheckFinds(w.store, req.pk, vk, e) || Failing(w, req, vk, e)
  {
    hide Contact, LastFull, FieldsOf, Decoded, MetasPromised, Lossless, Grounded, CleanHeaders, Proper;
    var x := w.store.variants[req.pk][vk];
    assert Holds(cfg, x, LastFull(w.log, req.pk, vk), FieldsOf(w.log, req.pk, vk), vk);
    hide Inv, EntriesHold;
    EmptyDecodes(cfg, x);
    var held := Fetched(w.store, req.pk, vk, e.load, e.loadFails);
    ContactStale(cfg, w, req, vk, m, x.variant, if held.Some? then held.value.1 else [], e);
  }

  lemma MissNotStale(cfg: Config, w: World, req: Request, vk: Key, e: Env)
    ensures !Miss(cfg, w, req, vk, e).answer.FromCache?
  {
    hide SaveIfAllowed, Prepare;
  }

  /** In every run, an answer is stale exactly when the request had to ask and a copy turned up fresh meanwhile, or
      the origin failed while the stored one could be read. No directive of the stored response takes part:
      must-revalidate does not prevent it, and stale-if-error is not needed for it. */
  lemma StaleServedExactly(cfg: Config, steps: seq<Step>, req: Request, e: Env)
    requires Lossless(cfg) && Grounded(cfg)
    ensures var w := Run(cfg, steps);
      var a := Serve(cfg, w, req, e).answer;
      (a.FromCache? && a.kind.STALE?) <==>
        && MustAsk(w, req, e)
        && var vk := MatchKey(w.store.meta[req.pk].meta, req);
        (RecheckFinds(w.store, req.pk, vk, e) || Failing(w, req, vk, e))
  {
    hide Run, Inv, Lossless, Grounded, Miss, ServeListed, Revalidate, Judge, MatchKey, RecheckFinds, Failing;
    var w := Run(cfg, steps);
    RunKeeps(cfg, steps);
    MissNotStale(cfg, w, req, [], e);
    if HasMeta(w.store, req.pk, e.now) {
      var entry := w.store.meta[req.pk];
      var vk := MatchKey(entry.meta, req);
      MissNotStale(cfg, w, req, vk, e);
      if ListsVariant(w.store, req.pk, vk, e.now) {
        var v := w.store.variants[req.pk][vk].variant;
        ListedKinds(cfg, w, req, vk, entry.meta, v, HIT, e);
        ListedKinds(cfg, w, req, vk, entry.meta, v, UPDATING, e);
        RevalidateStale(cfg, w, req, vk, entry.meta, e);
      }
    }
  }

  // ---------- Confirmations ----------

  /** A confirmation from the origin goes on to the client exactly when no bytes were stored, so an empty stored
      body cannot be refreshed and the client gets a 304 it may not have asked for. */
  lemma EmptyBodyNotRefreshed(cfg: Config, w: World, req: Request, vk: Key, m: Meta, v: Variant, comp: Bytes, e: Env)
    requires e.reply.Reply? && e.reply.status == 304
    ensures var o := Contact(cfg, w, req, vk, m, v, comp, e);
      && (o.answer.FromOrigin? || o.answer.Crashed? <==> comp == [])
      && (comp == [] ==> o.world == w)
      && (o.answer.FromOrigin? ==> o.answer.status == 304 && o.answer.body == Sent(req, e.reply.body))
      && (comp == [] ==> (o.answer.Crashed? <==> Prepare(cfg, 304, e.reply.headers, e.reply.body).ScanDied?))
  {
    hide Refresh, RefreshedVariant, Save, EsiParse.RunsOff, EsiScan.Frags;
  }

  /** A confirmation that forbids storing still prolongs the stored entry, unless it grants no lifetime, the cache is
      closed or the write fails. */
  lemma RefreshIgnoresNoStore(cfg: Config, w: World, req: Request, vk: Key, m: Meta, v: Variant, comp: Bytes, h: Headers, e: Env)
    requires var p := cfg.parse(RefreshFields(cfg, v, h)); p.directives.Some? && p.directives.value.noStore
    ensures var p := cfg.parse(RefreshFields(cfg, v, h));
      var w' := Refresh(cfg, w, req, vk, m, v, comp, h, e);
      && !Storable(200, req.authorized, p, e.clock)
      && (w' == w <==> Ttl(p, e.asked, e.answered) == 0 || cfg.closed || e.saveFails)
      && (w' != w ==>
            && req.pk in w'.store.meta && w'.store.meta[req.pk].meta.expiresAt == e.answered + Ttl(p, e.asked, e.answered)
            && !Judge(w'.store.meta[req.pk].meta, w'.store.meta[req.pk].soft, e.answered).Expired?)
  {
    hide RefreshFields, SwrWindow, SieWindow, WithTags, RefreshedVariant, Lifetime, InitialAge;
    NonNegative(cfg.parse(RefreshFields(cfg, v, h)), e.asked, e.answered);
    hide Ttl;
    var w' := Refresh(cfg, w, req, vk, m, v, comp, h, e);
    assert w'.log != w.log ==> |w'.log| == |w.log| + 1;
  }
}
