/** What happens when the origin changes the headers it varies on. */
module VaryChange {
  import opened KeyBytes
  import opened StoreState
  import opened Freshness
  import opened Handler
  import opened CacheRuns
  import VariantKey
  import VariantBars
  import CacheVary
  import Sorting

  // ---------- Where responses are filed ----------

  lemma KeyNothing(names: seq<Bytes>, h: VariantKey.Fields)
    ensures VariantKey.Key(names, h) == [] <==> VariantKey.NameList(names) == []
  {
    hide VariantKey.Written, Sorting.Sort, VariantKey.Names, VariantKey.Normal;
    var cs := VariantKey.NameList(names);
    if cs == [] {
      VariantKey.WrittenNone(h);
    } else {
      assert cs == [cs[0]] + cs[1..];
      VariantKey.WrittenStep(cs[0], cs[1..], h);
    }
  }

  /** A key matched against metadata is the one the response's Vary gives exactly when both name the same headers. */
  lemma MatchedByOwnVary(req: Request, m: Meta, h: Headers)
    requires VariantKey.BarFree(req.fields)
    requires VariantBars.Clear(VariantKey.Names(m.vary)) && VariantBars.Clear(VariantKey.Names(VaryNames(h)))
    ensures SaveKey(req, MatchKey(m, req), h) == Named(VariantKey.Key(VaryNames(h), req.fields)) <==>
      VariantKey.NameList(m.vary) == [] || VariantKey.NameList(m.vary) == VariantKey.NameList(VaryNames(h))
  {
    hide VariantKey.Key, VariantKey.NameList, VaryNames, VariantKey.Names, VariantKey.BarFree, VariantBars.Clear, VariantKey.Normal;
    KeyNothing(m.vary, req.fields);
    KeyNothing(VaryNames(h), req.fields);
    VariantKey.KeyNeverDefault(m.vary, req.fields);
    VariantKey.KeyNeverDefault(VaryNames(h), req.fields);
    VariantBars.KeysNameTheSame(m.vary, VaryNames(h), req.fields, req.fields);
  }

  /** A response is filed under the key its own Vary gives exactly when the lookup found no metadata, metadata that lists
      no header, or metadata that lists the same headers. */
  lemma FiledByOwnVary(cfg: Config, w: World, req: Request, e: Env, ev: Event)
    requires Serve(cfg, w, req, e).world.log == w.log + [ev] && !ev.refresh
    requires VariantKey.BarFree(req.fields) && VariantBars.Clear(VariantKey.Names(ev.vary))
    requires HasMeta(w.store, req.pk, e.now) ==> VariantBars.Clear(VariantKey.Names(w.store.meta[req.pk].meta.vary))
    ensures ev.vk == CacheVary.OwnKey(ev) <==>
      !HasMeta(w.store, req.pk, e.now) ||
      var listed := VariantKey.NameList(w.store.meta[req.pk].meta.vary);
      listed == [] || listed == VariantKey.NameList(ev.vary)
  {
    hide Serve, VariantKey.Key, VariantKey.NameList, VaryNames, VariantKey.Names, VariantKey.BarFree, VariantBars.Clear, MatchKey;
    CacheVary.ServeAdds(cfg, w, req, e);
    assert (w.log + [ev])[|w.log|] == ev;
    assert CacheVary.Fitting(ev, req, CacheVary.LookedUp(w, req, e.now));
    if HasMeta(w.store, req.pk, e.now) { MatchedByOwnVary(req, w.store.meta[req.pk].meta, ev.headers); }
  }

  // ---------- Storing without trouble ----------

  /** Everything happens at one instant and nothing fails. */
  ghost predicate Smooth(e: Env, t: Time, h: Headers) {
    && e.now == e.load == e.check == e.asked == e.answered == e.clock == e.wrote == e.served == t
    && !e.lookupFails && !e.loadFails && !e.checkFails && !e.saveFails
    && e.precondition.Proceed? && e.reply == Reply(200, h, [])
  }

  /** A response with these fields is stored and stays fresh for a while. */
  ghost predicate Cacheable(cfg: Config, h: Headers, t: Time) {
    && !HasCookie(h) && !cfg.parse(h).eventStream && !cfg.esi(h) && !cfg.closed
    && Storable(200, false, cfg.parse(h), t) && Ttl(cfg.parse(h), t, t) > 0
  }

  ghost predicate Simple(req: Request, pk: Key) { req.pk == pk && !req.head && !req.authorized && !req.onlyIfCached && !req.conditional }

  /** The store lists exactly these variants of `pk`, fresh, under metadata that varies on `vary`. */
  ghost predicate Shows(s: Store, pk: Key, t: Time, vary: seq<Bytes>, keys: set<Key>) {
    && HasMeta(s, pk, t) && !s.meta[pk].soft && s.meta[pk].meta.vary == vary && s.meta[pk].meta.expiresAt > t
    && pk in s.variants && s.variants[pk].Keys == keys && (forall k :: k in keys ==> ListsVariant(s, pk, k, t))
  }

  lemma SavedShows(cfg: Config, w: World, req: Request, pk: Key, vk: Key, h: Headers, e: Env, t: Time, keys: set<Key>)
    requires Simple(req, pk) && Smooth(e, t, h) && Cacheable(cfg, h, t)
    requires pk !in w.store.variants ==> keys == {}
    requires pk in w.store.variants ==> w.store.variants[pk].Keys == keys && forall k :: k in keys ==> ListsVariant(w.store, pk, k, t)
    ensures var w' := Save(cfg, w, req, vk, Full(200, h, [], []), e);
      && Shows(w'.store, pk, t, VaryNames(h), keys + {SaveKey(req, vk, h)})
      && w'.store.variants[pk][SaveKey(req, vk, h)].variant.rawSize == 0
      && (forall k :: k in keys && k != SaveKey(req, vk, h) ==> w'.store.variants[pk][k] == w.store.variants[pk][k])
      && w'.log == w.log + [FullEvent(cfg, req, SaveKey(req, vk, h), Full(200, h, [], []), e)]
  {
    var p := cfg.parse(h);
    NonNegative(p, t, t);
    hide VariantKey.Key, VaryNames, Storable, Ttl, SwrWindow, SieWindow, InitialAge, StoredHeaders, WithTags, CodecFor;
    SaveKeyNamed(req, vk, h);
  }

  lemma SaveKeyNamed(req: Request, vk: Key, h: Headers)
    ensures SaveKey(req, vk, h) != [] && Named(SaveKey(req, vk, h)) == SaveKey(req, vk, h)
  {
    hide VariantKey.Key;
  }

  lemma MissSaves(cfg: Config, w: World, req: Request, pk: Key, vk: Key, h: Headers, e: Env, t: Time)
    requires Simple(req, pk) && Smooth(e, t, h) && Cacheable(cfg, h, t)
    ensures Miss(cfg, w, req, vk, e).world == Save(cfg, w, req, vk, Full(200, h, [], []), e)
  {
    hide Save, Storable, Ttl;
  }

  /** The first request for a key. */
  lemma FirstStored(cfg: Config, req: Request, pk: Key, h: Headers, e: Env, t: Time)
    requires Simple(req, pk) && Smooth(e, t, h) && Cacheable(cfg, h, t)
    ensures Serve(cfg, START, req, e).world == Save(cfg, START, req, [], Full(200, h, [], []), e)
  {
    hide Save, Storable, Ttl, Miss;
    MissSaves(cfg, START, req, pk, [], h, e, t);
  }

  /** A request for a variant that is not there yet. */
  lemma NextStored(cfg: Config, w: World, req: Request, pk: Key, h: Headers, e: Env, t: Time, vary: seq<Bytes>, keys: set<Key>)
    requires Simple(req, pk) && Smooth(e, t, h) && Cacheable(cfg, h, t) && Shows(w.store, pk, t, vary, keys)
    requires Named(VariantKey.Key(vary, req.fields)) !in keys
    ensures Serve(cfg, w, req, e).world == Save(cfg, w, req, Named(VariantKey.Key(vary, req.fields)), Full(200, h, [], []), e)
  {
    hide Save, Storable, Ttl, Miss, VariantKey.Key;
    MissSaves(cfg, w, req, pk, Named(VariantKey.Key(vary, req.fields)), h, e, t);
  }

  /** A request for a variant that is there, with an empty body. */
  lemma Hit(cfg: Config, w: World, req: Request, pk: Key, h: Headers, e: Env, t: Time, vary: seq<Bytes>, keys: set<Key>)
    requires Simple(req, pk) && Smooth(e, t, h) && Shows(w.store, pk, t, vary, keys)
    requires var k := Named(VariantKey.Key(vary, req.fields)); k in keys && w.store.variants[pk][k].variant.rawSize == 0
    ensures var a := Serve(cfg, w, req, e).answer;
      a.FromCache? && a.kind.HIT? && a.vk == Named(VariantKey.Key(vary, req.fields))
  {
    hide VariantKey.Key, Miss, Load;
  }

  // ---------- The failing run ----------

  /** The origin varies on `one`, then for one response on `both`, then on `one` again: the response in between is filed
      under the key for `one` alone and later answers a request that differs from its own in a header it varied on. */
  lemma ChangedVaryServesAcross(cfg: Config, pk: Key, one: Headers, both: Headers, t: Time,
                                r0: Request, e0: Env, r1: Request, e1: Env, r2: Request, e2: Env, r3: Request, e3: Env)
    requires Simple(r0, pk) && Simple(r1, pk) && Simple(r2, pk) && Simple(r3, pk)
    requires Cacheable(cfg, one, t) && Cacheable(cfg, both, t)
    requires Smooth(e0, t, one) && Smooth(e1, t, both) && Smooth(e2, t, one) && Smooth(e3, t, one)
    requires var a, b := VaryNames(one), VaryNames(both);
      && VariantKey.Key(a, r0.fields) != [] && VariantKey.Key(a, r1.fields) != []
      && VariantKey.Key(a, r1.fields) != VariantKey.Key(a, r0.fields)
      && VariantKey.Key(b, r2.fields) !in {[], VariantKey.Key(a, r0.fields), VariantKey.Key(a, r1.fields)}
      && VariantKey.Key(a, r3.fields) == VariantKey.Key(a, r1.fields)
      && !VariantKey.Agree(VariantKey.Names(b), r3.fields, r1.fields)
    ensures var w := Run(cfg, [Serving(r0, e0), Serving(r1, e1), Serving(r2, e2)]);
      var x := Serve(cfg, w, r3, e3).answer;
      && x.FromCache? && x.kind.HIT?
      && var saved := LastFull(w.log, pk, x.vk);
      && saved.Some? && saved.value.req == r1 && saved.value.vary == VaryNames(both)
      && !VariantKey.Agree(VariantKey.Names(saved.value.vary), r3.fields, saved.value.req.fields)
  {
    hide VariantKey.Key, VaryNames, VariantKey.Agree, VariantKey.Names, Serve, Save, Cacheable, Shows;
    var a, b := VaryNames(one), VaryNames(both);
    var k0, k1, k2 := VariantKey.Key(a, r0.fields), VariantKey.Key(a, r1.fields), VariantKey.Key(b, r2.fields);
    VariantKey.KeyNeverDefault(a, r1.fields);
    VariantKey.KeyNeverDefault(b, r2.fields);
    var f, g := Full(200, one, [], []), Full(200, both, [], []);
    var w1 := Save(cfg, START, r0, [], f, e0);
    FirstStored(cfg, r0, pk, one, e0, t);
    SavedShows(cfg, START, r0, pk, [], one, e0, t, {});
    assert {} + {k0} == {k0};
    var w2 := Save(cfg, w1, r1, k1, g, e1);
    NextStored(cfg, w1, r1, pk, both, e1, t, a, {k0});
    ShownListed(w1.store, pk, t, a, {k0});
    SavedShows(cfg, w1, r1, pk, k1, both, e1, t, {k0});
    var w3 := Save(cfg, w2, r2, k2, f, e2);
    NextStored(cfg, w2, r2, pk, one, e2, t, b, {k0} + {k1});
    ShownListed(w2.store, pk, t, b, {k0} + {k1});
    SavedShows(cfg, w2, r2, pk, k2, one, e2, t, {k0} + {k1});
    ThreeSteps(cfg, Serving(r0, e0), Serving(r1, e1), Serving(r2, e2), w1, w2, w3);
    Hit(cfg, w3, r3, pk, one, e3, t, a, {k0} + {k1} + {k2});
    LogGrows(w2.log, FullEvent(cfg, r2, k2, f, e2), pk, k1);
    LogGrows(w1.log, FullEvent(cfg, r1, k1, g, e1), pk, k1);
  }

  lemma ShownListed(s: Store, pk: Key, t: Time, vary: seq<Bytes>, keys: set<Key>)
    requires Shows(s, pk, t, vary, keys)
    ensures pk in s.variants && s.variants[pk].Keys == keys && forall k :: k in keys ==> ListsVariant(s, pk, k, t)
  {
  }

  lemma ThreeSteps(cfg: Config, s0: Step, s1: Step, s2: Step, w1: World, w2: World, w3: World)
    requires After(cfg, START, s0) == w1 && After(cfg, w1, s1) == w2 && After(cfg, w2, s2) == w3
    ensures Run(cfg, [s0, s1, s2]) == w3
  {
    hide After;
    assert [s0, s1, s2][..2] == [s0, s1] && [s0, s1][..1] == [s0] && [s0][..0] == [];
    assert Run(cfg, [s0]) == w1;
    assert Run(cfg, [s0, s1]) == w2;
  }
}
