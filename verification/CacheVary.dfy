/** Which requests a stored variant may answer: section 4.1 of RFC 9111. */
module CacheVary {
  import opened KeyBytes
  import opened StoreState
  import opened Freshness
  import opened Handler
  import opened CacheRuns
  import VariantKey
  import VariantBars
  import Sorting
  import TestStore

  /** The origin names the same headers in every response for a primary key. */
  ghost predicate OneVary(log: seq<Event>) {
    forall i, j :: 0 <= i < |log| && 0 <= j < |log| && log[i].pk == log[j].pk ==> multiset(log[i].vary) == multiset(log[j].vary)
  }

  /** Every saved response lies under the key its own request has by its own Vary. */
  ghost predicate WellKeyed(log: seq<Event>) {
    forall ev :: ev in log && !ev.refresh ==> ev.vk == OwnKey(ev)
  }

  /** Every saved response lies under a key its own request has by the Vary of some write to its primary key. */
  ghost predicate Filed(log: seq<Event>) {
    forall ev :: ev in log && !ev.refresh ==> KeyedBy(log, ev.req, ev.vk)
  }

  ghost function OwnKey(ev: Event): Key { Named(VariantKey.Key(ev.vary, ev.req.fields)) }

  /** The key is the request's key by some write to its primary key. */
  ghost predicate KeyedBy(log: seq<Event>, req: Request, vk: Key) {
    exists i :: 0 <= i < |log| && log[i].pk == req.pk && vk == Named(VariantKey.Key(log[i].vary, req.fields))
  }

  ghost predicate TasksKeyed(w: World) {
    forall i :: 0 <= i < |w.pending| ==> KeyedBy(w.log, w.pending[i].req, w.pending[i].vk)
  }

  ghost predicate VInv(w: World) { Filed(w.log) && TasksKeyed(w) }

  lemma PermutedKey(a: seq<Bytes>, b: seq<Bytes>, h: VariantKey.Fields)
    requires multiset(a) == multiset(b)
    ensures VariantKey.Key(a, h) == VariantKey.Key(b, h)
  {
    hide Sorting.Sort, VariantKey.Written, VariantKey.Names;
    ByteOrderTotal();
    Sorting.SortCanonical(BYTE_ORDER, a, b);
  }

  lemma KeyedByGrows(log: seq<Event>, log': seq<Event>, req: Request, vk: Key)
    requires |log| <= |log'| && log'[..|log|] == log && KeyedBy(log, req, vk)
    ensures KeyedBy(log', req, vk)
  {
    hide VariantKey.Key;
    var i :| 0 <= i < |log| && log[i].pk == req.pk && vk == Named(VariantKey.Key(log[i].vary, req.fields));
    assert log'[i] == log[i];
  }

  // ---------- What one step adds to the log ----------

  /** At most one write: a refresh, or a response saved for `req` under the key `vk` or its own. */
  ghost predicate Adds(w: World, w': World, req: Request, vk: Key) {
    w'.log == w.log ||
    exists ev :: w'.log == w.log + [ev] && Fitting(ev, req, vk)
  }

  ghost predicate Fitting(ev: Event, req: Request, vk: Key) {
    ev.refresh ||
    (ev.pk == req.pk && ev.req == req && ev.vary == VaryNames(ev.headers) && ev.vk == SaveKey(req, vk, ev.headers))
  }

  lemma SaveAdds(cfg: Config, w: World, req: Request, vk: Key, f: Full, e: Env)
    ensures var w' := SaveIfAllowed(cfg, w, req, vk, f, e); Adds(w, w', req, vk) && w'.pending == w.pending
  {
    hide AfterSet, VariantKey.Key, VaryNames, MayStore, VariantFor, Packed, MetaFor, StorageTtl;
    var w' := SaveIfAllowed(cfg, w, req, vk, f, e);
    if w'.log != w.log {
      var ev := w'.log[|w.log|];
      assert w'.log == w.log + [ev] && Fitting(ev, req, vk);
    }
  }

  lemma PreparedAdds(cfg: Config, w: World, req: Request, vk: Key, e: Env)
    requires e.reply.Reply?
    ensures var p := Prepare(cfg, e.reply.status, e.reply.headers, e.reply.body);
      p.Ready? ==> var w' := SaveIfAllowed(cfg, w, req, vk, p.full, e); Adds(w, w', req, vk) && w'.pending == w.pending
  {
    hide Prepare, SaveIfAllowed, Adds;
    var p := Prepare(cfg, e.reply.status, e.reply.headers, e.reply.body);
    if p.Ready? { SaveAdds(cfg, w, req, vk, p.full, e); }
  }

  lemma RefreshAdds(cfg: Config, w: World, req: Request, vk: Key, m: Meta, v: Variant, comp: Bytes, h: Headers, e: Env)
    ensures var w' := Refresh(cfg, w, req, vk, m, v, comp, h, e); Adds(w, w', req, vk) && w'.pending == w.pending
  {
    hide AfterSet, RefreshFields, RefreshedVariant, StorageTtl, Ttl, MetaRefreshed;
    var w' := Refresh(cfg, w, req, vk, m, v, comp, h, e);
    if w'.log != w.log {
      var ev := w'.log[|w.log|];
      assert w'.log == w.log + [ev] && Fitting(ev, req, vk);
    }
  }

  lemma MissAdds(cfg: Config, w: World, req: Request, vk: Key, e: Env)
    ensures var w' := Miss(cfg, w, req, vk, e).world; Adds(w, w', req, vk) && w'.pending == w.pending
  {
    hide SaveIfAllowed, Fitting, Prepare;
    if e.reply.Reply? { PreparedAdds(cfg, w, req, vk, e); }
  }

  lemma ListedAdds(cfg: Config, w: World, req: Request, vk: Key, m: Meta, v: Variant, kind: Kind, e: Env)
    ensures var w' := ServeListed(cfg, w, req, vk, m, v, kind, e).world;
      Adds(w, w', req, vk) && (w'.pending == w.pending || w'.pending == w.pending + [Task(req, vk)])
  {
    hide Miss, Load, Fitting;
    MissAdds(cfg, w.(store := Load(cfg, w.store, req.pk, vk, e).store), req, vk, e);
  }

  lemma RevalidateAdds(cfg: Config, w: World, req: Request, vk: Key, m: Meta, v: Variant, e: Env)
    ensures var w' := Revalidate(cfg, w, req, vk, m, v, e).world; Adds(w, w', req, vk) && w'.pending == w.pending
  {
    hide SaveIfAllowed, Refresh, Fetched, Fitting, RecheckFinds, Prepare, AnswerOf, RefreshedVariant;
    var held := Fetched(w.store, req.pk, vk, e.load, e.loadFails);
    var comp := if held.Some? then held.value.1 else [];
    if e.reply.Reply? {
      PreparedAdds(cfg, w, req, vk, e);
      RefreshAdds(cfg, w, req, vk, m, v, comp, e.reply.headers, e);
    }
  }

  /** The key a lookup leaves: none without metadata, else the one the metadata's Vary gives. */
  ghost function LookedUp(w: World, req: Request, now: Time): Key {
    if HasMeta(w.store, req.pk, now) then MatchKey(w.store.meta[req.pk].meta, req) else []
  }

  /** The write and the background task, if any, are for the key the lookup left. */
  ghost predicate ServedUnder(w: World, w': World, req: Request, vk: Key) {
    && Adds(w, w', req, vk)
    && (w'.pending == w.pending || (vk != [] && w'.pending == w.pending + [Task(req, vk)]))
  }

  lemma ServeAdds(cfg: Config, w: World, req: Request, e: Env)
    ensures ServedUnder(w, Serve(cfg, w, req, e).world, req, LookedUp(w, req, e.now))
  {
    hide ServeListed, Revalidate, Judge, MatchKey, Miss, Fitting;
    AddsNothing(w, req, LookedUp(w, req, e.now));
    MissAdds(cfg, w, req, [], e);
    if HasMeta(w.store, req.pk, e.now) {
      var entry := w.store.meta[req.pk];
      var vk := MatchKey(entry.meta, req);
      MissAdds(cfg, w, req, vk, e);
      if ListsVariant(w.store, req.pk, vk, e.now) {
        var v := w.store.variants[req.pk][vk].variant;
        ListedAdds(cfg, w, req, vk, entry.meta, v, HIT, e);
        ListedAdds(cfg, w, req, vk, entry.meta, v, UPDATING, e);
        RevalidateAdds(cfg, w, req, vk, entry.meta, v, e);
      }
      NamedNonEmpty(entry.meta, req);
    }
  }

  lemma NamedNonEmpty(m: Meta, req: Request)
    ensures MatchKey(m, req) != []
  {
  }

  // ---------- Keys stay right ----------

  lemma AddedFiled(w: World, w': World, req: Request, vk: Key)
    requires VInv(w) && Adds(w, w', req, vk) && (vk == [] || KeyedBy(w.log, req, vk))
    ensures Filed(w'.log) && |w.log| <= |w'.log| && w'.log[..|w.log|] == w.log
  {
    hide VariantKey.Key, VaryNames, KeyedBy;
    if w'.log != w.log {
      var ev :| w'.log == w.log + [ev] && Fitting(ev, req, vk);
      forall x | x in w'.log && !x.refresh ensures KeyedBy(w'.log, x.req, x.vk) {
        if x in w.log {
          KeyedByGrows(w.log, w'.log, x.req, x.vk);
        } else if vk == [] || vk == DEFAULT {
          KeyedByOwn(w'.log, |w.log|);
        } else {
          KeyedByGrows(w.log, w'.log, req, vk);
        }
      }
    }
  }

  lemma KeyedByOwn(log: seq<Event>, i: nat)
    requires i < |log| && log[i].pk == log[i].req.pk && log[i].vk == OwnKey(log[i])
    ensures KeyedBy(log, log[i].req, log[i].vk)
  {
    hide VariantKey.Key;
  }

  lemma StepKeyed(cfg: Config, w: World, st: Step)
    requires Inv(cfg, w) && VInv(w)
    ensures VInv(After(cfg, w, st))
  {
    hide Serve, SaveIfAllowed, Prepare, Filed, KeyedBy, EntriesHold, Adds, TestStore.Apply;
    var w' := After(cfg, w, st);
    match st {
      case Serving(req, e) =>
        ServeAdds(cfg, w, req, e);
        var vk := LookedUp(w, req, e.now);
        if vk != [] { MatchedKeyed(cfg, w, req); }
        AddedFiled(w, w', req, vk);
        forall i | 0 <= i < |w'.pending| ensures KeyedBy(w'.log, w'.pending[i].req, w'.pending[i].vk) {
          KeyedByGrows(w.log, w'.log, w'.pending[i].req, w'.pending[i].vk);
        }
      case Finishing(i, e) =>
        if i < |w.pending| {
          var rest, t := w.(pending := w.pending[..i] + w.pending[i + 1..]), w.pending[i];
          AddsNothing(rest, t.req, t.vk);
          if e.reply.Reply? { PreparedAdds(cfg, rest, t.req, t.vk, e); }
          AddedFiled(rest, w', t.req, t.vk);
          forall j | 0 <= j < |w'.pending| ensures KeyedBy(w'.log, w'.pending[j].req, w'.pending[j].vk) {
            KeyedByGrows(w.log, w'.log, w'.pending[j].req, w'.pending[j].vk);
          }
        }
      case Purging(op) =>
    }
  }

  lemma AddsNothing(w: World, req: Request, vk: Key)
    ensures Adds(w, w, req, vk)
  {
  }

  /** Metadata lists the names of the last write. */
  lemma MetaNames(cfg: Config, w: World, pk: Key)
    requires Inv(cfg, w) && pk in w.store.meta
    ensures var last := LastWrite(w.log, pk); last.Some? && w.store.meta[pk].meta.vary == last.value.vary
  {
    hide EntriesHold, MetaFor, Ttl, SwrWindow;
    assert Promised(cfg, w.store.meta[pk].meta, LastWrite(w.log, pk));
  }

  lemma MatchedKeyed(cfg: Config, w: World, req: Request)
    requires Inv(cfg, w) && req.pk in w.store.meta
    ensures KeyedBy(w.log, req, MatchKey(w.store.meta[req.pk].meta, req))
  {
    hide VariantKey.Key, Inv;
    MetaNames(cfg, w, req.pk);
    var ev := LastWrite(w.log, req.pk).value;
    var i :| 0 <= i < |w.log| && w.log[i] == ev;
  }

  /** In every run, whatever the origin varies on, responses and background refreshes keep to keys their requests have
      by the Vary of some write. */
  lemma {:induction false} RunKeyed(cfg: Config, steps: seq<Step>)
    requires Lossless(cfg) && Grounded(cfg)
    ensures VInv(Run(cfg, steps))
    decreases |steps|
  {
    hide After, Lossless, Grounded, Inv;
    if steps != [] {
      var w, last := Run(cfg, steps[..|steps| - 1]), steps[|steps| - 1];
      RunKeyed(cfg, steps[..|steps| - 1]);
      RunKeeps(cfg, steps[..|steps| - 1]);
      StepKeyed(cfg, w, last);
    }
  }

  // ---------- Who is served what ----------

  /** Requests and responses for a primary key without the variant key's delimiters. */
  ghost predicate Undelimited(log: seq<Event>, req: Request) {
    && VariantKey.BarFree(req.fields)
    && forall ev :: ev in log && ev.pk == req.pk ==>
         VariantKey.BarFree(ev.req.fields) && VariantBars.Clear(VariantKey.Names(ev.vary))
  }

  /** In every run without delimiters, an answer from the cache goes to a request that agrees with the one that fetched
      it on every header the metadata lists at that moment. So it agrees on every header the response itself varied on
      exactly when it agrees on those of them that the metadata does not list. */
  lemma VariantServedByMetadata(cfg: Config, steps: seq<Step>, req: Request, e: Env)
    requires Lossless(cfg) && Grounded(cfg) && Undelimited(Run(cfg, steps).log, req)
    ensures var w := Run(cfg, steps);
      var a := Serve(cfg, w, req, e).answer;
      a.FromCache? ==>
        var saved := LastFull(w.log, req.pk, a.vk);
        && saved.Some? && HasMeta(w.store, req.pk, e.now)
        && var listed, own := VariantKey.Names(w.store.meta[req.pk].meta.vary), VariantKey.Names(saved.value.vary);
        && VariantKey.Agree(listed, req.fields, saved.value.req.fields)
        && (VariantKey.Agree(own, req.fields, saved.value.req.fields) <==>
              forall c :: c in own && c !in listed ==> VariantBars.Text(c, req.fields) == VariantBars.Text(c, saved.value.req.fields))
  {
    hide Serve, Lossless, Grounded, EntriesHold, Run, VariantKey.BarFree, VariantKey.Key, VariantKey.Names, Proper,
      VariantKey.Normal, VariantBars.Clear, FieldsOf, MergedHeaders;
    var w := Run(cfg, steps);
    RunKeeps(cfg, steps);
    RunKeyed(cfg, steps);
    ServeKeeps(cfg, w, req, e);
    var a := Serve(cfg, w, req, e).answer;
    if a.FromCache? { MatchedAgrees(cfg, w, req); }
  }

  /** The response under the key a request matches was fetched by one that agrees on the metadata's names. */
  lemma MatchedAgrees(cfg: Config, w: World, req: Request)
    requires Inv(cfg, w) && VInv(w) && req.pk in w.store.meta && Undelimited(w.log, req)
    ensures var m := w.store.meta[req.pk].meta;
      var saved := LastFull(w.log, req.pk, MatchKey(m, req));
      saved.Some? ==> VariantKey.Agree(VariantKey.Names(m.vary), req.fields, saved.value.req.fields)
  {
    hide EntriesHold, MetasPromised, VariantKey.Agree, VariantKey.BarFree, VariantKey.Key, VariantKey.Names, VariantBars.Clear, VariantKey.NameList;
    var m := w.store.meta[req.pk].meta;
    MetaNames(cfg, w, req.pk);
    var saved := LastFull(w.log, req.pk, MatchKey(m, req));
    if saved.Some? {
      var s := saved.value;
      assert s in w.log && KeyedBy(w.log, s.req, s.vk);
      var i :| 0 <= i < |w.log| && w.log[i].pk == s.req.pk && s.vk == Named(VariantKey.Key(w.log[i].vary, s.req.fields));
      assert w.log[i] in w.log;
      VariantKey.KeyNeverDefault(m.vary, req.fields);
      VariantKey.KeyNeverDefault(w.log[i].vary, s.req.fields);
      VariantBars.KeysNameTheSame(m.vary, w.log[i].vary, req.fields, s.req.fields);
    }
  }

  // ---------- One list of headers per primary key ----------

  lemma OwnKeys(log: seq<Event>)
    requires Filed(log) && Regular(log) && OneVary(log)
    ensures WellKeyed(log)
  {
    hide VariantKey.Key;
    forall ev | ev in log && !ev.refresh ensures ev.vk == OwnKey(ev) {
      var i :| 0 <= i < |log| && log[i].pk == ev.req.pk && ev.vk == Named(VariantKey.Key(log[i].vary, ev.req.fields));
      var j :| 0 <= j < |log| && log[j] == ev;
      PermutedKey(log[i].vary, log[j].vary, ev.req.fields);
    }
  }

  /** In every run where the origin varies on one list of headers per primary key and no value holds a bar,
      a stored variant answers only requests that agree, header by header in normal form, with the request
      that fetched it. */
  lemma VariantServedToMatching(cfg: Config, steps: seq<Step>, req: Request, e: Env)
    requires Lossless(cfg) && Grounded(cfg) && OneVary(Run(cfg, steps).log)
    requires VariantKey.BarFree(req.fields)
    requires forall ev :: ev in Run(cfg, steps).log ==> VariantKey.BarFree(ev.req.fields)
    ensures var w := Run(cfg, steps);
      var a := Serve(cfg, w, req, e).answer;
      a.FromCache? ==>
        var saved := LastFull(w.log, req.pk, a.vk);
        saved.Some? && VariantKey.Agree(VariantKey.Names(saved.value.vary), req.fields, saved.value.req.fields)
  {
    hide Serve, Lossless, Grounded, EntriesHold, MetasPromised, Run, VariantKey.Agree, VariantKey.BarFree, VariantKey.Key, VariantKey.Names, Proper;
    var w := Run(cfg, steps);
    RunKeeps(cfg, steps);
    RunKeyed(cfg, steps);
    OwnKeys(w.log);
    ServeKeeps(cfg, w, req, e);
    var a := Serve(cfg, w, req, e).answer;
    if a.FromCache? {
      var m, saved := w.store.meta[req.pk].meta, LastFull(w.log, req.pk, a.vk).value;
      MetaNames(cfg, w, req.pk);
      var last := LastWrite(w.log, req.pk).value;
      SameVary(w.log, last, saved);
      VariantKey.KeyNeverDefault(m.vary, req.fields);
      VariantKey.KeyNeverDefault(saved.vary, saved.req.fields);
      VariantKey.BarFreeKeysEqual(saved.vary, m.vary, saved.req.fields, req.fields);
      AgreeBack(VariantKey.Names(saved.vary), saved.req.fields, req.fields);
    }
  }

  lemma SameVary(log: seq<Event>, a: Event, b: Event)
    requires OneVary(log) && WellKeyed(log) && a in log && b in log && a.pk == b.pk && !b.refresh
    ensures multiset(a.vary) == multiset(b.vary) && b.vk == OwnKey(b)
  {
    hide VariantKey.Key;
    var i :| 0 <= i < |log| && log[i] == a;
    var j :| 0 <= j < |log| && log[j] == b;
  }

  lemma AgreeBack(cs: seq<Bytes>, h1: VariantKey.Fields, h2: VariantKey.Fields)
    requires VariantKey.Agree(cs, h1, h2)
    ensures VariantKey.Agree(cs, h2, h1)
  {
    hide VariantKey.Normal;
  }
}
