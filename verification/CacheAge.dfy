/** The Age that clients see on answers from the cache. */
module CacheAge {
  import opened KeyBytes
  import opened StoreState
  import opened Freshness
  import opened Handler
  import opened CacheRuns
  import opened CacheLaws

  /** The instant an answer's Age is computed for. */
  function AgedAt(k: Kind, e: Env): Time { if k.HIT? || k.UPDATING? then e.now else e.served }

  lemma RevalidateAge(cfg: Config, w: World, req: Request, vk: Key, v: Variant, e: Env)
    requires req.pk in w.store.meta
    ensures var m := w.store.meta[req.pk].meta;
      var a := Revalidate(cfg, w, req, vk, m, v, e).answer;
      a.FromCache? ==> a.age == Some(AgeSent(m, e.served))
  {
    hide SaveIfAllowed, Refresh, Fetched, RefreshedVariant, AgeSent, Prepare, Decoded;
  }

  /** A hit that loads its body has one. */
  lemma HitBody(cfg: Config, w: World, req: Request, vk: Key, m: Meta, e: Env)
    requires req.pk in w.store.variants && vk in w.store.variants[req.pk] && Named(vk) == vk
    ensures var v := w.store.variants[req.pk][vk].variant;
      var a := ServeListed(cfg, w, req, vk, m, v, HIT, e).answer;
      a.FromCache? ==> ((req.head || v.rawSize == 0) <==> (req.head || a.body == Some([])))
  {
    hide SaveIfAllowed, Prepare, AgeSent;
  }

  lemma MatchNamed(m: Meta, req: Request)
    ensures Named(MatchKey(m, req)) == MatchKey(m, req)
  {
  }

  /** Every answer from the cache is given the age of its metadata, except exactly the hits to HEAD requests and
      those with an empty body. */
  lemma AgeAnswered(cfg: Config, w: World, req: Request, e: Env)
    ensures var a := Serve(cfg, w, req, e).answer;
      a.FromCache? ==>
        && HasMeta(w.store, req.pk, e.now)
        && (a.age.None? <==> a.kind.HIT? && (req.head || a.body == Some([])))
        && (a.age.Some? ==> a.age.value == AgeSent(w.store.meta[req.pk].meta, AgedAt(a.kind, e)))
  {
    hide ServeListed, Revalidate, Judge, MatchKey, AgeSent, Prepare, SaveIfAllowed;
    if HasMeta(w.store, req.pk, e.now) {
      var entry := w.store.meta[req.pk];
      var vk := MatchKey(entry.meta, req);
      MatchNamed(entry.meta, req);
      if ListsVariant(w.store, req.pk, vk, e.now) {
        var v := w.store.variants[req.pk][vk].variant;
        ListedKinds(cfg, w, req, vk, entry.meta, v, HIT, e);
        ListedKinds(cfg, w, req, vk, entry.meta, v, UPDATING, e);
        HitBody(cfg, w, req, vk, entry.meta, e);
        RevalidateKinds(cfg, w, req, vk, entry.meta, v, e);
        RevalidateAge(cfg, w, req, vk, v, e);
      }
    }
  }

  /** In every run, while a full response was the last write to its key, the Age given to an answer is that
      response's true age in whole seconds, or one less. */
  lemma AgeServed(cfg: Config, steps: seq<Step>, req: Request, e: Env)
    requires Lossless(cfg) && Grounded(cfg)
    ensures var w := Run(cfg, steps);
      var a := Serve(cfg, w, req, e).answer;
      a.FromCache? && a.age.Some? ==>
        var ev, t := LastWrite(w.log, req.pk), AgedAt(a.kind, e);
        && ev.Some?
        && (!ev.value.refresh && t >= ev.value.answered ==>
              var age := CurrentAge(cfg.parse(ev.value.headers), ev.value.asked, ev.value.answered, t) / SECOND;
              age - 1 <= a.age.value <= age)
  {
    hide Serve, Lossless, Grounded, EntriesHold, LastWrite, Run, AgeSent, CurrentAge, MetaFor;
    var w := Run(cfg, steps);
    RunKeeps(cfg, steps);
    AgeAnswered(cfg, w, req, e);
    var a := Serve(cfg, w, req, e).answer;
    if a.FromCache? && a.age.Some? {
      var m, ev, t := w.store.meta[req.pk].meta, LastWrite(w.log, req.pk), AgedAt(a.kind, e);
      assert Promised(cfg, m, ev);
      if !ev.value.refresh && t >= ev.value.answered {
        AgeTrue(m.vary, m.tags, cfg.parse(ev.value.headers), ev.value.asked, ev.value.answered, t);
      }
    }
  }

  // ---------- What the client sees ----------

  /** The Age on the wire: the one set on the answer, else the one stored with the response, else none. */
  datatype Seen = Told(seconds: int) | Passed(text: Bytes) | Unsaid

  function AgeSeen(a: Answer): Seen
    requires a.FromCache?
  {
    if a.age.Some? then Told(a.age.value)
    else if AGE in a.headers && a.headers[AGE] != [] then Passed(a.headers[AGE][0])
    else Unsaid
  }

  /** Parsing reads the age from the Age field. */
  ghost predicate ReadsAge(cfg: Config) { forall h :: cfg.parse(h).ageSeconds == cfg.seconds(Get(h, AGE)) }

  /** A whole second has gone by since the origin's Age: in transfer, or between its Date and arrival, or in the
      cache. */
  ghost predicate SecondPassed(p: Parsed, asked: Time, answered: Time, now: Time) {
    Max(ApparentAge(p, answered) - p.ageSeconds * SECOND, Max(0, answered - asked)) + Max(0, now - answered) >= SECOND
  }

  /** The number an upstream cache sent is still the true age in whole seconds until a second has passed. */
  lemma OldAgeTrue(p: Parsed, asked: Time, answered: Time, now: Time)
    ensures var age := CurrentAge(p, asked, answered, now) / SECOND;
      p.ageSeconds <= age && (p.ageSeconds < age <==> SecondPassed(p, asked, answered, now))
  {
    var n, x := p.ageSeconds, CurrentAge(p, asked, answered, now);
    var d := x - n * SECOND;
    assert d == Max(ApparentAge(p, answered) - n * SECOND, Max(0, answered - asked)) + Max(0, now - answered);
    assert d >= 0;
    WholeSeconds(n, d);
  }

  lemma WholeSeconds(n: nat, d: nat)
    ensures (n * SECOND + d) / SECOND == n + d / SECOND
    ensures d / SECOND >= 1 <==> d >= SECOND
  {
  }

  /** A hit to a HEAD request, or with an empty body, shows the Age the origin sent, unchanged: none if it sent
      none. While a full response is the last write to the key, that number is the true age exactly until a whole
      second has passed. */
  lemma SilentHitAge(cfg: Config, steps: seq<Step>, req: Request, e: Env)
    requires Lossless(cfg) && Grounded(cfg) && ReadsAge(cfg)
    ensures var w := Run(cfg, steps);
      var a := Serve(cfg, w, req, e).answer;
      a.FromCache? && a.kind.HIT? && (req.head || a.body == Some([])) ==>
        var fields, ev := FieldsOf(w.log, req.pk, a.vk), LastWrite(w.log, req.pk);
        && AgeSeen(a) == (if AGE in fields && fields[AGE] != [] then Passed(fields[AGE][0]) else Unsaid)
        && ev.Some?
        && (AgeSeen(a).Passed? && ev == LastFull(w.log, req.pk, a.vk) && ev == LastOf(w.log, req.pk, a.vk) ==>
              var p := cfg.parse(ev.value.headers);
              var age := CurrentAge(p, ev.value.asked, ev.value.answered, e.now) / SECOND;
              && cfg.seconds(AgeSeen(a).text) == p.ageSeconds <= age
              && (p.ageSeconds < age <==> SecondPassed(p, ev.value.asked, ev.value.answered, e.now)))
  {
    hide Serve, Lossless, Grounded, EntriesHold, LastWrite, LastFull, LastOf, FieldsOf, Run, AgeSent, CurrentAge, MetaFor, SecondPassed;
    var w := Run(cfg, steps);
    RunKeeps(cfg, steps);
    AgeAnswered(cfg, w, req, e);
    FieldsServed(cfg, steps, req, e);
    var a := Serve(cfg, w, req, e).answer;
    if a.FromCache? && a.kind.HIT? && (req.head || a.body == Some([])) {
      var ev := LastWrite(w.log, req.pk);
      assert Promised(cfg, w.store.meta[req.pk].meta, ev);
      OldAgeTrue(cfg.parse(ev.value.headers), ev.value.asked, ev.value.answered, e.now);
      if ev == LastFull(w.log, req.pk, a.vk) && ev == LastOf(w.log, req.pk, a.vk) {
        OwnFields(w.log, req.pk, a.vk);
        StoredAge(ev.value.received);
      }
    }
  }

  lemma StoredAge(h: Headers)
    ensures var s := StoredHeaders(h); AGE in s && s[AGE] != [] ==> s[AGE][0] == Get(h, AGE)
  {
    hide ConnectionTokens, Storeable;
  }

  lemma OwnFields(log: seq<Event>, pk: Key, vk: Key)
    requires Regular(log) && LastFull(log, pk, vk).Some? && LastOf(log, pk, vk) == LastFull(log, pk, vk)
    ensures var ev := LastOf(log, pk, vk).value;
      FieldsOf(log, pk, vk) == StoredHeaders(ev.received) && ev.received == ev.headers
  {
    assert !LastFull(log, pk, vk).value.refresh && LastFull(log, pk, vk).value in log;
    hide LastOf, LastFull, FieldsOf, StoredHeaders;
    LastFields(log, pk, vk);
  }

  /** While the last write of a variant is a full response, its stored fields are that response's. */
  lemma {:induction false} LastFields(log: seq<Event>, pk: Key, vk: Key)
    requires LastOf(log, pk, vk).Some? && !LastOf(log, pk, vk).value.refresh
    ensures FieldsOf(log, pk, vk) == StoredHeaders(LastOf(log, pk, vk).value.received)
    decreases |log|
  {
    hide StoredHeaders, MergedHeaders;
    if !(log[|log| - 1].pk == pk && log[|log| - 1].vk == vk) { LastFields(log[..|log| - 1], pk, vk); }
  }
}
