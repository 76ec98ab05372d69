/** Runs of the cache: requests, background refreshes and purges, one after the other. */
module CacheRuns {
  import opened KeyBytes
  import opened StoreState
  import opened Freshness
  import opened Handler
  import VariantKey
  import TestStore
  import EsiScan

  datatype Step =
    | Serving(req: Request, e: Env)
    | Finishing(i: nat, e: Env)
    | Purging(op: TestStore.Op)

  function After(cfg: Config, w: World, st: Step): World {
    match st
    case Serving(req, e) => Serve(cfg, w, req, e).world
    case Finishing(i, e) =>
      if i < |w.pending| then Background(cfg, w.(pending := w.pending[..i] + w.pending[i + 1..]), w.pending[i], e) else w
    case Purging(op) => if op.Write? then w else w.(store := TestStore.Apply(w.store, op))
  }

  const START := World(EMPTY, [], [])

  function Run(cfg: Config, steps: seq<Step>): World
    decreases |steps|
  {
    if steps == [] then START else After(cfg, Run(cfg, steps[..|steps| - 1]), steps[|steps| - 1])
  }

  // ---------- The log of writes ----------

  /** The most recent full response saved under a primary and variant key. */
  function LastFull(log: seq<Event>, pk: Key, vk: Key): (r: Option<Event>)
    ensures r.Some? ==> r.value in log && r.value.pk == pk && r.value.vk == vk && !r.value.refresh
    decreases |log|
  {
    if log == [] then None
    else
      var ev := log[|log| - 1];
      if ev.pk == pk && ev.vk == vk && !ev.refresh then Some(ev) else LastFull(log[..|log| - 1], pk, vk)
  }

  /** The most recent write to a primary key, whichever variant it was for. */
  function LastWrite(log: seq<Event>, pk: Key): (r: Option<Event>)
    ensures r.Some? ==> r.value in log && r.value.pk == pk
    decreases |log|
  {
    if log == [] then None
    else if log[|log| - 1].pk == pk then Some(log[|log| - 1]) else LastWrite(log[..|log| - 1], pk)
  }

  /** The fields stored under a key: those of the last full response, each later confirmation laid over them. */
  function FieldsOf(log: seq<Event>, pk: Key, vk: Key): Headers
    decreases |log|
  {
    if log == [] then map[]
    else
      var ev, before := log[|log| - 1], FieldsOf(log[..|log| - 1], pk, vk);
      if ev.pk != pk || ev.vk != vk then before
      else if ev.refresh then MergedHeaders(before, ev.received)
      else StoredHeaders(ev.received)
  }

  lemma LogGrows(log: seq<Event>, ev: Event, pk: Key, vk: Key)
    ensures LastFull(log + [ev], pk, vk) ==
      if ev.pk == pk && ev.vk == vk && !ev.refresh then Some(ev) else LastFull(log, pk, vk)
    ensures LastWrite(log + [ev], pk) == if ev.pk == pk then Some(ev) else LastWrite(log, pk)
    ensures FieldsOf(log + [ev], pk, vk) ==
      if ev.pk != pk || ev.vk != vk then FieldsOf(log, pk, vk)
      else if ev.refresh then MergedHeaders(FieldsOf(log, pk, vk), ev.received)
      else StoredHeaders(ev.received)
  {
    hide MergedHeaders, StoredHeaders;
    assert (log + [ev])[..|log|] == log;
  }

  // ---------- The invariant ----------

  /** The fragments are those of the body, or the response is not for the ESI processor. */
  ghost predicate Compiled(body: Bytes, fragments: seq<EsiScan.Fragment>) {
    fragments == [] || fragments == EsiScan.Frags(body)
  }

  /** A full response fetched with GET that a shared cache may store. */
  ghost predicate Proper(cfg: Config, ev: Event) {
    && ev.viaGet && Storable(ev.status, ev.req.authorized, cfg.parse(ev.headers), ev.clock)
    && Compiled(ev.body, ev.fragments)
  }

  /** A stored entry decodes to the body last saved under its keys and has the fields the writes gave it. */
  ghost predicate Holds(cfg: Config, x: VarEntry, ev: Option<Event>, fields: Headers, vk: Key) {
    && ev.Some? && Proper(cfg, ev.value)
    && x.variant.key == vk && vk != []
    && x.variant.status == ev.value.status
    && x.variant.rawSize == |ev.value.body|
    && Decoded(cfg, x.variant, x.body) == Some(ev.value.body)
    && x.variant.headers == fields && CleanHeaders(fields)
    && x.variant.fragments == ev.value.fragments
    && (x.variant.rawSize == 0 ==> x.body == [] && x.variant.codec == NO_CODEC)
  }

  ghost predicate EntriesHold(cfg: Config, s: Store, log: seq<Event>) {
    forall pk, vk :: pk in s.variants && vk in s.variants[pk] ==>
      Holds(cfg, s.variants[pk][vk], LastFull(log, pk, vk), FieldsOf(log, pk, vk), vk)
  }

  /** Expiry and stale limit are those the write promised. */
  ghost predicate Promised(cfg: Config, m: Meta, ev: Option<Event>) {
    ev.Some? &&
    var p := cfg.parse(ev.value.headers);
    var at := ev.value.answered + Ttl(p, ev.value.asked, ev.value.answered);
    && m.vary == ev.value.vary
    && m.expiresAt == at
    && m.staleUntil == (if SwrWindow(p) > 0 || ev.value.refresh then at + SwrWindow(p) else 0)
    && (!ev.value.refresh ==> m == MetaFor(m.vary, m.tags, p, ev.value.asked, ev.value.answered))
  }

  ghost predicate MetasPromised(cfg: Config, s: Store, log: seq<Event>) {
    forall pk :: pk in s.meta ==> Promised(cfg, s.meta[pk].meta, LastWrite(log, pk))
  }

  /** Writes are recorded under the key of their request, full responses with the fields they came with. */
  ghost predicate Regular(log: seq<Event>) {
    forall ev :: ev in log ==> ev.pk == ev.req.pk && (!ev.refresh ==> ev.received == ev.headers)
  }

  ghost predicate Inv(cfg: Config, w: World) {
    && EntriesHold(cfg, w.store, w.log) && MetasPromised(cfg, w.store, w.log)
    && w.store.meta.Keys == w.store.variants.Keys && Regular(w.log)
  }

  // ---------- Purges and marks derive a smaller store ----------

  ghost predicate Derived(s': Store, s: Store) {
    && s'.meta.Keys == s'.variants.Keys
    && (forall k :: k in s'.variants ==> k in s.variants && s'.variants[k] == s.variants[k])
    && (forall k :: k in s'.meta ==> k in s.meta && s'.meta[k].meta == s.meta[k].meta)
  }

  lemma PurgeDerives(s: Store, ks: set<Key>, soft: bool)
    requires s.meta.Keys == s.variants.Keys
    ensures Derived(AfterPurge(s, ks, soft), s)
  {
    hide Pruned;
  }

  lemma OpDerives(s: Store, op: TestStore.Op)
    requires s.meta.Keys == s.variants.Keys && !op.Write?
    ensures Derived(TestStore.Apply(s, op), s)
  {
    hide AfterPurge, TestStore.Selected;
    match op
    case PurgeKey(k, soft) => PurgeDerives(s, {k}, soft);
    case PurgeTag(t, soft) => PurgeDerives(s, Tagged(s, t), soft);
    case PurgePattern(p, soft) => PurgeDerives(s, TestStore.Selected(s, p), soft);
    case Wipe =>
  }

  lemma DerivedKeeps(cfg: Config, w: World, s': Store)
    requires Inv(cfg, w) && Derived(s', w.store)
    ensures Inv(cfg, w.(store := s'))
  {
    hide Holds, Promised, LastFull, LastWrite, FieldsOf;
  }

  // ---------- Writes ----------

  lemma PackedDecodes(cfg: Config, h: Headers, body: Bytes, v: Variant)
    requires Lossless(cfg) && v.rawSize == |body| && v.codec == Packed(cfg, h, body).0
    ensures Decoded(cfg, v, Packed(cfg, h, body).1) == Some(body)
  {
    hide CodecFor;
  }

  lemma StoredClean(h: Headers)
    ensures CleanHeaders(StoredHeaders(h))
  {
    hide ConnectionTokens, Storeable;
  }

  lemma MergedClean(stored: Headers, h: Headers)
    requires CleanHeaders(stored)
    ensures CleanHeaders(MergedHeaders(stored, h))
  {
    hide Storeable;
  }

  /** Writing an entry that holds, with metadata that keeps its promise, keeps the invariant. */
  lemma WriteKeeps(cfg: Config, w: World, pk: Key, m: Meta, v: Variant, body: Bytes, ttl: int, now: Time, ev: Event)
    requires Inv(cfg, w) && ev.pk == pk && v.key == ev.vk && v.key != []
    requires Holds(cfg, VarEntry(v, body, Expiry(ttl, now)), LastFull(w.log + [ev], pk, v.key), FieldsOf(w.log + [ev], pk, v.key), v.key)
    requires Promised(cfg, m, Some(ev)) && Regular([ev])
    ensures Inv(cfg, w.(store := AfterSet(w.store, pk, m, v, body, ttl, now), log := w.log + [ev]))
  {
    hide Promised, LastFull, LastWrite, FieldsOf, Decoded, CleanHeaders, Proper, WithTags;
    var s, s', log' := w.store, AfterSet(w.store, pk, m, v, body, ttl, now), w.log + [ev];
    forall k, x | k in s'.variants && x in s'.variants[k] ensures Holds(cfg, s'.variants[k][x], LastFull(log', k, x), FieldsOf(log', k, x), x) {
      LogGrows(w.log, ev, k, x);
      if k == pk && x == v.key {
      } else if k == pk {
        assert k in s.variants && x in s.variants[k];
      }
    }
    forall k | k in s'.meta ensures Promised(cfg, s'.meta[k].meta, LastWrite(log', k)) { LogGrows(w.log, ev, k, []); }
  }

  lemma EmptyPacked(cfg: Config, h: Headers, body: Bytes)
    ensures body == [] ==> Packed(cfg, h, body) == (NO_CODEC, [])
  {
    hide CodecFor;
  }

  /** A fresh entry holds the response it was made from. */
  lemma FreshHolds(cfg: Config, req: Request, key: Key, f: Full, e: Env, exp: Option<Time>)
    requires Lossless(cfg) && key != [] && Compiled(f.body, f.fragments) && MayStore(cfg, req, f, e)
    ensures Holds(cfg, VarEntry(VariantFor(cfg, key, f), Packed(cfg, f.headers, f.body).1, exp),
                  Some(FullEvent(cfg, req, key, f, e)), StoredHeaders(f.headers), key)
  {
    hide Packed, StoredHeaders, CleanHeaders, Decoded, Compiled, Storable, VaryNames;
    PackedDecodes(cfg, f.headers, f.body, VariantFor(cfg, key, f));
    StoredClean(f.headers);
    EmptyPacked(cfg, f.headers, f.body);
  }

  lemma SaveKeeps(cfg: Config, w: World, req: Request, vk: Key, f: Full, e: Env)
    requires Lossless(cfg) && Inv(cfg, w) && Compiled(f.body, f.fragments)
    ensures Inv(cfg, SaveIfAllowed(cfg, w, req, vk, f, e))
  {
    hide Inv, Holds, AfterSet, StoredHeaders, Packed, VariantKey.Key, VaryNames, MayStore, Ttl, SwrWindow, LastFull, FieldsOf;
    if MayStore(cfg, req, f, e) && !e.saveFails {
      var h := f.headers;
      var p, key := cfg.parse(h), SaveKey(req, vk, h);
      var m, ttl := MetaFor(VaryNames(h), cfg.tagsOf(h), p, e.asked, e.answered), StorageTtl(p, e.asked, e.answered);
      var v, ev := VariantFor(cfg, key, f), FullEvent(cfg, req, key, f, e);
      FreshHolds(cfg, req, key, f, e, Expiry(ttl, e.wrote));
      LogGrows(w.log, ev, req.pk, key);
      WriteKeeps(cfg, w, req.pk, m, v, Packed(cfg, h, f.body).1, ttl, e.wrote, ev);
    }
  }

  lemma PrepareCompiles(cfg: Config, status: int, h: Headers, body: Bytes)
    ensures var p := Prepare(cfg, status, h, body); p.Ready? ==> p.full.body == body && Compiled(body, p.full.fragments)
  {
    hide EsiScan.Frags;
  }

  /** Preparing a reply and storing it, whatever comes of the preparation. */
  lemma PreparedKeeps(cfg: Config, w: World, req: Request, vk: Key, e: Env)
    requires Lossless(cfg) && Inv(cfg, w) && e.reply.Reply?
    ensures var p := Prepare(cfg, e.reply.status, e.reply.headers, e.reply.body);
      p.Ready? ==> Inv(cfg, SaveIfAllowed(cfg, w, req, vk, p.full, e))
  {
    hide Inv, Prepare, SaveIfAllowed, Compiled;
    PrepareCompiles(cfg, e.reply.status, e.reply.headers, e.reply.body);
    var p := Prepare(cfg, e.reply.status, e.reply.headers, e.reply.body);
    if p.Ready? { SaveKeeps(cfg, w, req, vk, p.full, e); }
  }

  /** A confirmed entry still holds, with the confirmation's fields laid over its own. */
  lemma RefreshedHolds(cfg: Config, x: VarEntry, ev: Option<Event>, fields: Headers, vk: Key, h: Headers, exp: Option<Time>)
    requires Holds(cfg, x, ev, fields, vk)
    ensures Holds(cfg, VarEntry(RefreshedVariant(cfg, x.variant, h), x.body, exp), ev, MergedHeaders(fields, h), vk)
    ensures RefreshedVariant(cfg, x.variant, h).key == vk != []
  {
    hide MergedHeaders, Proper, CleanHeaders, Decoded;
    MergedClean(fields, h);
    RefreshSameBody(cfg, x.variant, h, x.body);
  }

  lemma RefreshKeeps(cfg: Config, w: World, req: Request, vk: Key, m: Meta, x: VarEntry, h: Headers, e: Env)
    requires Inv(cfg, w) && Holds(cfg, x, LastFull(w.log, req.pk, vk), FieldsOf(w.log, req.pk, vk), vk)
    ensures Inv(cfg, Refresh(cfg, w, req, vk, m, x.variant, x.body, h, e))
  {
    hide Inv, Holds, AfterSet, MergedHeaders, RefreshFields, RefreshedVariant, Ttl, SwrWindow, LastFull, FieldsOf;
    var fields := RefreshFields(cfg, x.variant, h);
    var p, v := cfg.parse(fields), RefreshedVariant(cfg, x.variant, h);
    var m', ttl := MetaRefreshed(m, p, e.asked, e.answered), StorageTtl(p, e.asked, e.answered);
    var ev := Event(req.pk, vk, req, x.variant.status, fields, h, [], [], true, m.vary, e.asked, e.answered, e.clock, true);
    RefreshedHolds(cfg, x, LastFull(w.log, req.pk, vk), FieldsOf(w.log, req.pk, vk), vk, h, Expiry(ttl, e.wrote));
    LogGrows(w.log, ev, req.pk, vk);
    WriteKeeps(cfg, w, req.pk, m', v, x.body, ttl, e.wrote, ev);
  }

  // ---------- One request ----------

  lemma PendingIrrelevant(cfg: Config, w: World, p: seq<Task>)
    requires Inv(cfg, w)
    ensures Inv(cfg, w.(pending := p))
  {
    hide Holds, Promised, LastFull, LastWrite, FieldsOf;
  }

  lemma LoadKeeps(cfg: Config, w: World, pk: Key, vk: Key, e: Env)
    requires Inv(cfg, w)
    ensures Inv(cfg, w.(store := Load(cfg, w.store, pk, vk, e).store))
  {
    hide Holds, Promised, LastFull, LastWrite, FieldsOf, Decoded, Marked;
    PurgeDerives(w.store, {pk}, true);
    DerivedKeeps(cfg, w, Marked(w.store, {pk}));
  }

  lemma MissKeeps(cfg: Config, w: World, req: Request, vk: Key, e: Env)
    requires Lossless(cfg) && Inv(cfg, w)
    ensures Inv(cfg, Miss(cfg, w, req, vk, e).world) && !Miss(cfg, w, req, vk, e).answer.FromCache?
  {
    hide Inv, SaveIfAllowed, Prepare;
    if e.reply.Reply? { PreparedKeeps(cfg, w, req, vk, e); }
  }

  /** The answer is what the store holds for the matched key. */
  ghost predicate Answers(cfg: Config, w: World, req: Request, vk: Key, reply: Reply, o: Outcome) {
    o.answer.FromCache? ==>
      var ev, fields := LastFull(w.log, req.pk, vk), FieldsOf(w.log, req.pk, vk);
      && (o.answer.kind.REVALIDATED? ==> reply.Reply?)
      && o.answer.headers == (if o.answer.kind.REVALIDATED? then MergedHeaders(fields, reply.headers) else fields)
      && o.answer.vk == vk
      && ev.Some? && Proper(cfg, ev.value)
      && o.answer.status == ev.value.status
      && o.answer.body == Sent(req, ev.value.body)
      && o.answer.fragments == ev.value.fragments
  }

  lemma ListedKeeps(cfg: Config, w: World, req: Request, vk: Key, m: Meta, kind: Kind, e: Env)
    requires Lossless(cfg) && Inv(cfg, w) && req.pk in w.store.variants && vk in w.store.variants[req.pk]
    requires kind.HIT? || kind.UPDATING?
    ensures var o := ServeListed(cfg, w, req, vk, m, w.store.variants[req.pk][vk].variant, kind, e);
      Inv(cfg, o.world) && Answers(cfg, w, req, vk, e.reply, o)
  {
    hide Miss, LastFull, FieldsOf, MergedHeaders, Proper, CleanHeaders, Decoded, MetasPromised;
    var x := w.store.variants[req.pk][vk];
    assert Holds(cfg, x, LastFull(w.log, req.pk, vk), FieldsOf(w.log, req.pk, vk), vk);
    hide Inv, EntriesHold;
    PendingIrrelevant(cfg, w, w.pending + [Task(req, vk)]);
    LoadKeeps(cfg, w, req.pk, vk, e);
    MissKeeps(cfg, w.(store := Load(cfg, w.store, req.pk, vk, e).store), req, vk, e);
  }

  lemma NothingDecodes(cfg: Config, v: Variant)
    requires Grounded(cfg) && Decoded(cfg, v, []).Some?
    ensures Decoded(cfg, v, []).value == [] && v.rawSize == 0
  {
  }

  lemma LandKeeps(cfg: Config, w: World, req: Request, vk: Key, m: Meta, x: VarEntry, comp: Bytes, e: Env)
    requires Lossless(cfg) && Inv(cfg, w) && Holds(cfg, x, LastFull(w.log, req.pk, vk), FieldsOf(w.log, req.pk, vk), vk)
    requires comp == x.body || comp == []
    ensures Inv(cfg, Land(cfg, w, req, vk, m, x.variant, comp, e).world)
  {
    hide Inv, Holds, Refresh, SaveIfAllowed, LastFull, FieldsOf, Prepare, RefreshedVariant;
    if e.reply.Reply? {
      RefreshKeeps(cfg, w, req, vk, m, x, e.reply.headers, e);
      PreparedKeeps(cfg, w, req, vk, e);
    }
  }

  /** A copy of the entry, as a result, answers with what was saved. */
  lemma CopyAnswers(cfg: Config, w: World, req: Request, vk: Key, m: Meta, x: VarEntry, comp: Bytes, kind: Kind, e: Env)
    requires Grounded(cfg) && Holds(cfg, x, LastFull(w.log, req.pk, vk), FieldsOf(w.log, req.pk, vk), vk)
    requires comp == x.body || comp == []
    requires kind.STALE? || (kind.REVALIDATED? && e.reply.Reply?)
    ensures var v := if kind.STALE? then x.variant else RefreshedVariant(cfg, x.variant, e.reply.headers);
      forall w' :: Answers(cfg, w, req, vk, e.reply, Outcome(w', AnswerOf(cfg, req, vk, Copy(kind, m, v, comp), false, e)))
  {
    hide LastFull, FieldsOf, Proper, CleanHeaders, MergedHeaders, Decoded, RefreshedVariant, AgeSent, Grounded;
    if Decoded(cfg, x.variant, []).Some? { NothingDecodes(cfg, x.variant); }
    if kind.REVALIDATED? { RefreshSameBody(cfg, x.variant, e.reply.headers, comp); }
  }

  lemma ContactKeeps(cfg: Config, w: World, req: Request, vk: Key, m: Meta, x: VarEntry, gone: bool, e: Env)
    requires Lossless(cfg) && Grounded(cfg) && Inv(cfg, w)
    requires Holds(cfg, x, LastFull(w.log, req.pk, vk), FieldsOf(w.log, req.pk, vk), vk)
    ensures var o := Contact(cfg, w, req, vk, m, x.variant, if gone then [] else x.body, e);
      Inv(cfg, o.world) && Answers(cfg, w, req, vk, e.reply, o)
  {
    hide Inv, Holds, Refresh, SaveIfAllowed, LastFull, FieldsOf, Prepare, RefreshedVariant, Decoded, Answers, Lossless, Grounded;
    var comp := if gone then [] else x.body;
    LandKeeps(cfg, w, req, vk, m, x, comp, e);
    CopyAnswers(cfg, w, req, vk, m, x, comp, STALE, e);
    if e.reply.Reply? { CopyAnswers(cfg, w, req, vk, m, x, comp, REVALIDATED, e); }
    NotFromCache(cfg, w, req, vk, e);
  }

  lemma NotFromCache(cfg: Config, w: World, req: Request, vk: Key, e: Env)
    ensures forall o: Outcome :: !o.answer.FromCache? ==> Answers(cfg, w, req, vk, e.reply, o)
  {
  }

  lemma RefreshSameBody(cfg: Config, v: Variant, h: Headers, comp: Bytes)
    ensures Decoded(cfg, RefreshedVariant(cfg, v, h), comp) == Decoded(cfg, v, comp)
    ensures RefreshedVariant(cfg, v, h).status == v.status
    ensures RefreshedVariant(cfg, v, h).headers == MergedHeaders(v.headers, h)
    ensures RefreshedVariant(cfg, v, h).fragments == v.fragments
  {
    hide MergedHeaders;
  }

  lemma RevalidateKeeps(cfg: Config, w: World, req: Request, vk: Key, m: Meta, e: Env)
    requires Lossless(cfg) && Grounded(cfg) && Inv(cfg, w) && req.pk in w.store.variants && vk in w.store.variants[req.pk]
    ensures var o := Revalidate(cfg, w, req, vk, m, w.store.variants[req.pk][vk].variant, e);
      Inv(cfg, o.world) && Answers(cfg, w, req, vk, e.reply, o)
  {
    hide Contact, LastFull, FieldsOf, Decoded, MetasPromised, Lossless, Grounded, AnswerOf, Answers;
    var x := w.store.variants[req.pk][vk];
    assert Holds(cfg, x, LastFull(w.log, req.pk, vk), FieldsOf(w.log, req.pk, vk), vk);
    HeldName(cfg, x, LastFull(w.log, req.pk, vk), FieldsOf(w.log, req.pk, vk), vk);
    hide Inv, EntriesHold, Holds;
    ContactKeeps(cfg, w, req, vk, m, x, Fetched(w.store, req.pk, vk, e.load, e.loadFails).None?, e);
    if RecheckFinds(w.store, req.pk, vk, e) {
      CopyAnswers(cfg, w, req, vk, w.store.meta[req.pk].meta, x, x.body, STALE, e);
    }
  }

  lemma HeldName(cfg: Config, x: VarEntry, ev: Option<Event>, fields: Headers, vk: Key)
    requires Holds(cfg, x, ev, fields, vk)
    ensures Named(vk) == vk
  {
  }

  lemma MatchedKeeps(cfg: Config, w: World, req: Request, vk: Key, entry: MetaEntry, e: Env)
    requires Lossless(cfg) && Grounded(cfg) && Inv(cfg, w) && req.pk in w.store.variants && vk in w.store.variants[req.pk]
    ensures var o := ServeMatched(cfg, w, req, vk, entry, w.store.variants[req.pk][vk].variant, e);
      Inv(cfg, o.world) && Answers(cfg, w, req, vk, e.reply, o)
  {
    hide Inv, ServeListed, Revalidate, Lossless, Grounded, LastFull, FieldsOf, MergedHeaders, Proper;
    ListedKeeps(cfg, w, req, vk, entry.meta, HIT, e);
    ListedKeeps(cfg, w, req, vk, entry.meta, UPDATING, e);
    RevalidateKeeps(cfg, w, req, vk, entry.meta, e);
  }

  lemma ServeKeeps(cfg: Config, w: World, req: Request, e: Env)
    requires Lossless(cfg) && Grounded(cfg) && Inv(cfg, w)
    ensures Inv(cfg, Serve(cfg, w, req, e).world)
    ensures var o := Serve(cfg, w, req, e);
      o.answer.FromCache? ==>
        HasMeta(w.store, req.pk, e.now) && Answers(cfg, w, req, MatchKey(w.store.meta[req.pk].meta, req), e.reply, o)
  {
    hide ServeMatched, Miss, Lossless, Grounded, LastFull, FieldsOf, MergedHeaders, Proper, MatchKey, Holds, Promised;
    MissKeeps(cfg, w, req, [], e);
    if HasMeta(w.store, req.pk, e.now) {
      var entry := w.store.meta[req.pk];
      var vk := MatchKey(entry.meta, req);
      MissKeeps(cfg, w, req, vk, e);
      if ListsVariant(w.store, req.pk, vk, e.now) { MatchedKeeps(cfg, w, req, vk, entry, e); }
    }
  }

  lemma StepKeeps(cfg: Config, w: World, st: Step)
    requires Lossless(cfg) && Grounded(cfg) && Inv(cfg, w)
    ensures Inv(cfg, After(cfg, w, st))
  {
    hide Serve, SaveIfAllowed, Prepare, Lossless, Grounded, EntriesHold, MetasPromised, TestStore.Apply;
    match st
    case Serving(req, e) => ServeKeeps(cfg, w, req, e);
    case Finishing(i, e) =>
      if i < |w.pending| && e.reply.Reply? {
        var rest := w.pending[..i] + w.pending[i + 1..];
        PendingIrrelevant(cfg, w, rest);
        PreparedKeeps(cfg, w.(pending := rest), w.pending[i].req, w.pending[i].vk, e);
      } else if i < |w.pending| {
        PendingIrrelevant(cfg, w, w.pending[..i] + w.pending[i + 1..]);
      }
    case Purging(op) =>
      if !op.Write? {
        OpDerives(w.store, op);
        DerivedKeeps(cfg, w, TestStore.Apply(w.store, op));
      }
  }

  lemma {:induction false} RunKeeps(cfg: Config, steps: seq<Step>)
    requires Lossless(cfg) && Grounded(cfg)
    ensures Inv(cfg, Run(cfg, steps))
    decreases |steps|
  {
    hide After, Holds, Promised, Lossless, Grounded;
    if steps != [] {
      RunKeeps(cfg, steps[..|steps| - 1]);
      StepKeeps(cfg, Run(cfg, steps[..|steps| - 1]), steps[|steps| - 1]);
    }
  }
}
