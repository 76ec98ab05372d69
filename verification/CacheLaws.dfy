/** What holds of every answer, in every run. */
module CacheLaws {
  import opened KeyBytes
  import opened StoreState
  import opened Freshness
  import opened Handler
  import opened CacheRuns
  import VariantKey
  import PrimaryKey
  import QueryString
  import EsiParse
  import EsiScan
  import EsiSplice

  // ---------- Bodies ----------

  /** In every run, whatever the origin, the failures and the purges: an answer from the cache carries byte
      for byte the body, and the status, of the most recent full response saved under its keys. */
  lemma BodyServed(cfg: Config, steps: seq<Step>, req: Request, e: Env)
    requires Lossless(cfg) && Grounded(cfg)
    ensures var w := Run(cfg, steps);
      var a := Serve(cfg, w, req, e).answer;
      a.FromCache? ==>
        var saved := LastFull(w.log, req.pk, a.vk);
        && saved.Some?
        && a.status == saved.value.status
        && (if req.head then a.body == None else a.body == Some(saved.value.body))
  {
    hide Serve, Inv, Lossless, Grounded, LastFull, Run;
    RunKeeps(cfg, steps);
    ServeKeeps(cfg, Run(cfg, steps), req, e);
  }

  /** In every run, an answer from the cache carries the fields of the last full response saved under its keys
      with every confirmation since laid over them in order, the one just received included. */
  lemma FieldsServed(cfg: Config, steps: seq<Step>, req: Request, e: Env)
    requires Lossless(cfg) && Grounded(cfg)
    ensures var w := Run(cfg, steps);
      var a := Serve(cfg, w, req, e).answer;
      a.FromCache? ==>
        && (a.kind.REVALIDATED? ==> e.reply.Reply?)
        && a.headers == (if a.kind.REVALIDATED? then MergedHeaders(FieldsOf(w.log, req.pk, a.vk), e.reply.headers)
                         else FieldsOf(w.log, req.pk, a.vk))
  {
    hide Serve, Inv, Lossless, Grounded, LastFull, FieldsOf, MergedHeaders, Run;
    RunKeeps(cfg, steps);
    ServeKeeps(cfg, Run(cfg, steps), req, e);
  }

  /** In every run, splicing an answer from the cache at the fragments stored with it gives what a left-to-right
      reader of its body would emit, whatever bodies the fragments resolve to. */
  lemma SplicedServed(cfg: Config, steps: seq<Step>, req: Request, e: Env, bodies: seq<string>)
    requires Lossless(cfg) && Grounded(cfg)
    ensures var a := Serve(cfg, Run(cfg, steps), req, e).answer;
      a.FromCache? && a.body.Some? && a.fragments != [] && |bodies| == |a.fragments| ==>
        && EsiParse.TagCount(EsiParse.Parse(a.body.value)) == |bodies|
        && EsiSplice.Spliced(a.body.value, a.fragments, bodies, 0) == EsiParse.Render(EsiParse.Parse(a.body.value), bodies)
  {
    hide Serve, Inv, Lossless, Grounded, LastFull, Run, EsiParse.Parse, EsiParse.Render, EsiScan.Frags, EsiSplice.Spliced, EsiParse.TagCount;
    RunKeeps(cfg, steps);
    ServeKeeps(cfg, Run(cfg, steps), req, e);
    var a := Serve(cfg, Run(cfg, steps), req, e).answer;
    if a.FromCache? && a.body.Some? && a.fragments != [] && |bodies| == |a.fragments| {
      EsiSplice.SpliceAgreesWithReading(a.body.value, bodies);
    }
  }

  lemma RunRegular(cfg: Config, steps: seq<Step>)
    requires Lossless(cfg) && Grounded(cfg)
    ensures Regular(Run(cfg, steps).log)
  {
    hide Run, EntriesHold, MetasPromised, Regular, Lossless, Grounded;
    RunKeeps(cfg, steps);
  }

  /** A codec that makes a body out of nothing can pass it off as the stored one when the origin fails
      while the stored bytes cannot be read. */
  lemma UngroundedCodecMisleads(cfg: Config, w: World, req: Request, vk: Key, m: Meta, v: Variant, e: Env)
    requires CodecName(v) in cfg.codecs && v.rawSize > 0 && !req.head
    requires var b := cfg.codecs[CodecName(v)].decompress([]); b.Some? && |b.value| == v.rawSize
    requires e.loadFails && e.checkFails && e.reply.Panicked?
    ensures Revalidate(cfg, w, req, vk, m, v, e).answer
         == FromCache(STALE, vk, v.status, v.headers, Some(AgeSent(m, e.served)), cfg.codecs[CodecName(v)].decompress([]), v.fragments)
  {
  }

  /** Requests whose keys were generated from HTTP requests with a host: an answer from the cache was fetched by a
      request for the same cleaned path, host, included scheme, filtered query, included headers and cookies. */
  lemma ServedForSameParts(cfg: Config, steps: seq<Step>, req: Request, e: Env, keys: QueryString.CacheKey,
                           http: PrimaryKey.Request, source: PrimaryKey.Request)
    requires Lossless(cfg) && Grounded(cfg) && PrimaryKey.PlainNames(keys)
    requires PrimaryKey.Plain(http, keys) && PrimaryKey.Plain(source, keys) && req.pk == PrimaryKey.KeyOf(http, keys)
    ensures var w := Run(cfg, steps);
      var a := Serve(cfg, w, req, e).answer;
      a.FromCache? ==>
        var saved := LastFull(w.log, req.pk, a.vk);
        && saved.Some?
        && (saved.value.req.pk == PrimaryKey.KeyOf(source, keys) ==> PrimaryKey.SameParts(source, http, keys))
  {
    hide Serve, Inv, Lossless, Grounded, LastFull, Run, PrimaryKey.KeyOf, PrimaryKey.SameParts, PrimaryKey.Plain, PrimaryKey.PlainNames;
    BodyServed(cfg, steps, req, e);
    RunRegular(cfg, steps);
    PrimaryKey.KeysEqualExactly(source, http, keys);
  }

  // ---------- What is stored ----------

  /** In every reachable store each entry comes from a GET whose full response a shared cache may store,
      and its headers include neither Set-Cookie nor a hop-by-hop field. */
  lemma StoredMayBeShared(cfg: Config, steps: seq<Step>, pk: Key, vk: Key)
    requires Lossless(cfg) && Grounded(cfg)
    requires var s := Run(cfg, steps).store; pk in s.variants && vk in s.variants[pk]
    ensures var w := Run(cfg, steps);
      var saved := LastFull(w.log, pk, vk);
      && saved.Some? && saved.value.viaGet
      && Storable(saved.value.status, saved.value.req.authorized, cfg.parse(saved.value.headers), saved.value.clock)
      && SET_COOKIE !in w.store.variants[pk][vk].variant.headers
      && forall k :: k in HOP_BY_HOP ==> k !in w.store.variants[pk][vk].variant.headers
  {
    hide Lossless, Grounded, LastFull, FieldsOf, Run, Storable, Decoded, MetasPromised;
    RunKeeps(cfg, steps);
    assert Holds(cfg, Run(cfg, steps).store.variants[pk][vk], LastFull(Run(cfg, steps).log, pk, vk), FieldsOf(Run(cfg, steps).log, pk, vk), vk);
  }

  // ---------- Kinds of answers ----------

  ghost predicate UsedWithoutAsking(a: Answer) {
    (a.FromCache? && (a.kind.HIT? || a.kind.UPDATING?)) || (a.NotModified? && a.kind.HIT?)
  }

  lemma ListedKinds(cfg: Config, w: World, req: Request, vk: Key, m: Meta, v: Variant, kind: Kind, e: Env)
    ensures var a := ServeListed(cfg, w, req, vk, m, v, kind, e).answer;
      && !a.NotModified?
      && (a.FromCache? ==> a.kind == kind && a.age == if kind.HIT? && (req.head || v.rawSize == 0) then None else Some(AgeSent(m, e.now)))
  {
    hide SaveIfAllowed, Load, Prepare;
  }

  lemma RevalidateKinds(cfg: Config, w: World, req: Request, vk: Key, m: Meta, v: Variant, e: Env)
    ensures !UsedWithoutAsking(Revalidate(cfg, w, req, vk, m, v, e).answer)
  {
    hide SaveIfAllowed, Refresh, Fetched, RefreshedVariant, RecheckFinds, Prepare, Decoded;
  }

  /** The cache answers on its own only for an entry judged fresh or within its stale window. */
  lemma KindsJudged(cfg: Config, w: World, req: Request, e: Env)
    ensures var a := Serve(cfg, w, req, e).answer;
      UsedWithoutAsking(a) ==>
        && HasMeta(w.store, req.pk, e.now)
        && Judge(w.store.meta[req.pk].meta, w.store.meta[req.pk].soft, e.now)
           == (if a.kind.UPDATING? then Updating else Fresh)
  {
    hide ServeListed, Revalidate, Judge, VariantKey.Key, Prepare, SaveIfAllowed;
    if HasMeta(w.store, req.pk, e.now) {
      var entry := w.store.meta[req.pk];
      var vk := MatchKey(entry.meta, req);
      if ListsVariant(w.store, req.pk, vk, e.now) {
        var v := w.store.variants[req.pk][vk].variant;
        ListedKinds(cfg, w, req, vk, entry.meta, v, HIT, e);
        ListedKinds(cfg, w, req, vk, entry.meta, v, UPDATING, e);
        RevalidateKinds(cfg, w, req, vk, entry.meta, v, e);
      }
    }
  }

  // ---------- Freshness ----------

  /** In every run, an answer given as fresh is fresh by the most recent write to its primary key, and an
      answer given while updating lies in that write's stale window, which must-revalidate forbids. */
  lemma FreshnessServed(cfg: Config, steps: seq<Step>, req: Request, e: Env)
    requires Lossless(cfg) && Grounded(cfg)
    ensures var w := Run(cfg, steps);
      var a := Serve(cfg, w, req, e).answer;
      UsedWithoutAsking(a) ==>
        var ev := LastWrite(w.log, req.pk);
        && ev.Some?
        && var p := cfg.parse(ev.value.headers);
        var at := ev.value.answered + Ttl(p, ev.value.asked, ev.value.answered);
        && (!a.kind.UPDATING? && e.now > ev.value.answered ==> TrulyFresh(p, ev.value.asked, ev.value.answered, e.now))
        && (a.kind.UPDATING? && ev.value.answered >= 0 ==> !ForbidsStale(p) && at < e.now <= at + SwrWindow(p))
  {
    hide Serve, Lossless, Grounded, EntriesHold, LastWrite, Run;
    var w := Run(cfg, steps);
    RunKeeps(cfg, steps);
    KindsJudged(cfg, w, req, e);
    if UsedWithoutAsking(Serve(cfg, w, req, e).answer) {
      var m, ev := w.store.meta[req.pk].meta, LastWrite(w.log, req.pk);
      assert Promised(cfg, m, ev);
      PromiseJudged(m, w.store.meta[req.pk].soft, cfg.parse(ev.value.headers), ev.value.asked, ev.value.answered,
                    ev.value.refresh, e.now);
    }
  }

  lemma PromiseJudged(m: Meta, soft: bool, p: Parsed, asked: Time, answered: Time, refresh: bool, now: Time)
    requires m.expiresAt == answered + Ttl(p, asked, answered)
    requires m.staleUntil == if SwrWindow(p) > 0 || refresh then m.expiresAt + SwrWindow(p) else 0
    ensures Judge(m, soft, now).Fresh? && now > answered ==> TrulyFresh(p, asked, answered, now)
    ensures Judge(m, soft, now).Updating? && answered >= 0 ==>
      !ForbidsStale(p) && m.expiresAt < now <= m.expiresAt + SwrWindow(p)
  {
    hide Lifetime, InitialAge;
  }

  /** The most recent write for one variant, full or refreshing. */
  function LastOf(log: seq<Event>, pk: Key, vk: Key): (r: Option<Event>)
    ensures LastFull(log, pk, vk).Some? ==> r.Some?
    decreases |log|
  {
    if log == [] then None
    else if log[|log| - 1].pk == pk && log[|log| - 1].vk == vk then Some(log[|log| - 1])
    else LastOf(log[..|log| - 1], pk, vk)
  }

  function ExpiresBy(cfg: Config, ev: Event): Time {
    ev.answered + Ttl(cfg.parse(ev.headers), ev.asked, ev.answered)
  }

  /** How long the response of a write may be used, by its own age and lifetime. */
  function UsableBy(cfg: Config, ev: Event): Time {
    var p := cfg.parse(ev.headers);
    ev.answered + Max(0, Lifetime(p, ev.answered) - InitialAge(p, ev.asked, ev.answered))
  }

  ghost predicate FreshBy(cfg: Config, ev: Event, t: Time) {
    TrulyFresh(cfg.parse(ev.headers), ev.asked, ev.answered, t)
  }

  /** Expiry belongs to the primary key: a stored variant is used only while its own last response is fresh if and
      only if the last write to the primary key expires no later than that response, as it does when they are the
      same write. */
  lemma LeaksExactly(cfg: Config, steps: seq<Step>, pk: Key, vk: Key)
    requires Lossless(cfg) && Grounded(cfg)
    requires var s := Run(cfg, steps).store; pk in s.variants && vk in s.variants[pk]
    ensures var w := Run(cfg, steps);
      var own, last := LastOf(w.log, pk, vk), LastWrite(w.log, pk);
      && own.Some? && last.Some? && pk in w.store.meta
      && ((forall t :: t > own.value.answered && Judge(w.store.meta[pk].meta, false, t).Fresh? ==> FreshBy(cfg, own.value, t))
            <==> ExpiresBy(cfg, last.value) <= UsableBy(cfg, own.value))
      && (own == last ==> ExpiresBy(cfg, last.value) <= UsableBy(cfg, own.value))
  {
    hide Lossless, Grounded, LastFull, LastWrite, LastOf, FieldsOf, Run, Decoded, Lifetime, InitialAge, SwrWindow, Storable;
    RunKeeps(cfg, steps);
    var w := Run(cfg, steps);
    assert Holds(cfg, w.store.variants[pk][vk], LastFull(w.log, pk, vk), FieldsOf(w.log, pk, vk), vk);
    assert Promised(cfg, w.store.meta[pk].meta, LastWrite(w.log, pk));
    var own, last := LastOf(w.log, pk, vk).value, LastWrite(w.log, pk).value;
    var m, at := w.store.meta[pk].meta, ExpiresBy(cfg, last);
    if at > UsableBy(cfg, own) {
      assert at > own.answered && Judge(m, false, at).Fresh? && !FreshBy(cfg, own, at);
    }
  }

  /** The leak itself: storing one variant makes every other listed variant fresh again, even one that had expired
      or been soft-purged. */
  lemma LeakAcrossVariants(s: Store, k: Key, vary: seq<Bytes>, tags: seq<Tag>, v: Variant, body: Bytes,
                           p: Parsed, req: Time, resp: Time, other: Key, now: Time)
    requires ListsVariant(s, k, other, now) && other != Named(v.key) && now <= resp + Ttl(p, req, resp)
    ensures var m := MetaFor(vary, tags, p, req, resp);
      var s1 := AfterPurge(s, {k}, true);
      var s2 := AfterSet(s1, k, m, v, body, StorageTtl(p, req, resp), resp);
      && (k in s1.meta ==> s1.meta[k].soft)
      && ListsVariant(s2, k, other, now) && s2.variants[k][other] == s.variants[k][other]
      && Judge(s2.meta[k].meta, s2.meta[k].soft, now).Fresh?
  {
    hide Ttl, SwrWindow, InitialAge, WithTags;
  }
}
