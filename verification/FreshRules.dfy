/** What the fields of a response say about its freshness, directive by directive. Times are nanoseconds. */
module FreshRules {
  import opened KeyBytes
  import opened StoreState
  import opened Freshness

  const NANOS := 1_000_000_000
  const YEAR := 31_536_000 * NANOS

  // ---------- How old a response arrives ----------

  /** The response is `age` old when it arrives: by its Age and the time it was under way, or by its Date, whichever says
      more. */
  ghost predicate Arrives(p: Parsed, req: Time, resp: Time, age: int) {
    var told := p.ageSeconds * NANOS + if resp > req then resp - req else 0;
    var dated := if p.date.Some? && p.date.value < resp then resp - p.date.value else 0;
    age >= told && age >= dated && (age == told || age == dated)
  }

  lemma ArrivesExactly(p: Parsed, req: Time, resp: Time, age: int)
    ensures Arrives(p, req, resp, age) <==> age == InitialAge(p, req, resp)
  {
  }

  /** The response counts as fresh at `now`. */
  ghost predicate FreshAt(vary: seq<Bytes>, tags: seq<Tag>, p: Parsed, req: Time, resp: Time, now: Time) {
    Judge(MetaFor(vary, tags, p, req, resp), false, now).Fresh?
  }

  lemma FreshFor(vary: seq<Bytes>, tags: seq<Tag>, p: Parsed, req: Time, resp: Time, now: Time, age: int)
    requires now > resp && Arrives(p, req, resp, age)
    ensures FreshAt(vary, tags, p, req, resp, now) <==> age + (now - resp) <= Lifetime(p, resp) && now - resp <= YEAR
  {
    hide Lifetime, InitialAge, SwrWindow;
    ArrivesExactly(p, req, resp, age);
    FreshExactly(vary, tags, p, req, resp, now);
  }

  // ---------- Which directive decides ----------

  /** With s-maxage it alone decides, whatever max-age and Expires say. */
  lemma SMaxAgeDecides(vary: seq<Bytes>, tags: seq<Tag>, p: Parsed, req: Time, resp: Time, now: Time, age: int, n: nat)
    requires now > resp && Arrives(p, req, resp, age)
    requires p.directives.Some? && p.directives.value.sMaxAge == n && !p.directives.value.noCache
    ensures FreshAt(vary, tags, p, req, resp, now) <==> age + (now - resp) <= n * NANOS && now - resp <= YEAR
  {
    hide Arrives, FreshAt;
    FreshFor(vary, tags, p, req, resp, now, age);
  }

  /** Without s-maxage, max-age decides, whatever Expires says. */
  lemma MaxAgeDecides(vary: seq<Bytes>, tags: seq<Tag>, p: Parsed, req: Time, resp: Time, now: Time, age: int, n: nat)
    requires now > resp && Arrives(p, req, resp, age)
    requires p.directives.Some? && p.directives.value.sMaxAge < 0 && p.directives.value.maxAge == n && !p.directives.value.noCache
    ensures FreshAt(vary, tags, p, req, resp, now) <==> age + (now - resp) <= n * NANOS && now - resp <= YEAR
  {
    hide Arrives, FreshAt;
    FreshFor(vary, tags, p, req, resp, now, age);
  }

  /** No directive gives a lifetime. */
  ghost predicate Undirected(p: Parsed) {
    p.directives.Some? ==> p.directives.value.sMaxAge < 0 && p.directives.value.maxAge < 0 && !p.directives.value.noCache
  }

  /** Then Expires decides: it grants the time from Date to Expires or, without a Date before it, from arrival. */
  lemma ExpiresDecides(vary: seq<Bytes>, tags: seq<Tag>, p: Parsed, req: Time, resp: Time, now: Time, age: int, at: Time)
    requires now > resp && Arrives(p, req, resp, age) && Undirected(p) && p.expires == ExpiresAt(at)
    ensures p.date.Some? && p.date.value < at ==>
      (FreshAt(vary, tags, p, req, resp, now) <==> age + (now - resp) <= at - p.date.value && now - resp <= YEAR)
    ensures p.date.None? || p.date.value >= at ==>
      (FreshAt(vary, tags, p, req, resp, now) <==> at > resp && age + (now - resp) <= at - resp && now - resp <= YEAR)
  {
    hide Arrives, FreshAt;
    FreshFor(vary, tags, p, req, resp, now, age);
    assert age >= 0 by { ArrivesExactly(p, req, resp, age); }
  }

  /** So a response that arrives as old as its Date says is fresh up to the instant Expires names. */
  lemma FreshUntilExpires(vary: seq<Bytes>, tags: seq<Tag>, p: Parsed, req: Time, resp: Time, now: Time, at: Time)
    requires now > resp && Undirected(p) && p.expires == ExpiresAt(at) && p.date.Some? && p.date.value < at
    requires Arrives(p, req, resp, resp - p.date.value)
    ensures FreshAt(vary, tags, p, req, resp, now) <==> now <= at && now - resp <= YEAR
  {
    hide Arrives, FreshAt, Undirected;
    ExpiresDecides(vary, tags, p, req, resp, now, resp - p.date.value, at);
  }

  /** With no-cache, and with nothing that grants a lifetime, a response is never fresh after its arrival. */
  lemma NeverFresh(vary: seq<Bytes>, tags: seq<Tag>, p: Parsed, req: Time, resp: Time, now: Time)
    requires now > resp
    requires (p.directives.Some? && p.directives.value.noCache) || (Undirected(p) && !p.expires.ExpiresAt?)
    ensures !FreshAt(vary, tags, p, req, resp, now)
  {
    hide FreshAt;
    var age := InitialAge(p, req, resp);
    ArrivesExactly(p, req, resp, age);
    FreshFor(vary, tags, p, req, resp, now, age);
  }

  // ---------- Stale use ----------

  /** After its freshness a response may be used while it is refreshed for as long as stale-while-revalidate grants, and
      not at all under must-revalidate or proxy-revalidate. */
  lemma StaleUseDecided(vary: seq<Bytes>, tags: seq<Tag>, p: Parsed, req: Time, resp: Time, now: Time)
    requires resp >= 0
    ensures var m := MetaFor(vary, tags, p, req, resp);
      Judge(m, false, now).Updating? <==>
        && now > m.expiresAt && p.directives.Some?
        && !p.directives.value.mustRevalidate && !p.directives.value.proxyRevalidate
        && now <= m.expiresAt + p.directives.value.staleWhileRevalidate * NANOS
  {
    NonNegative(p, req, resp);
    hide Ttl, InitialAge;
  }

  /** The Age told: whole seconds at arrival and whole seconds since. */
  lemma AgeTold(vary: seq<Bytes>, tags: seq<Tag>, p: Parsed, req: Time, resp: Time, now: Time, age: int)
    requires now >= resp && Arrives(p, req, resp, age)
    ensures AgeSent(MetaFor(vary, tags, p, req, resp), now) == age / NANOS + (now - resp) / NANOS
  {
    ArrivesExactly(p, req, resp, age);
    hide InitialAge, Ttl, SwrWindow;
  }

  // ---------- What may be stored ----------

  /** Something says that the response is not for a shared cache, or nothing says how long it may be used. */
  ghost predicate Unshareable(status: int, authorized: bool, p: Parsed, now: Time) {
    || status < 200
    || status == 205 || status == 206 || status == 303 || status == 304 || status == 401 || status == 407 || status == 421 || status == 426
    || p.setCookie || p.eventStream || p.varyStar
    || (p.directives.Some? && (p.directives.value.noStore || p.directives.value.isPrivate))
    || (authorized && (p.directives.None? || (!p.directives.value.isPublic && p.directives.value.sMaxAge < 0 && !p.directives.value.mustRevalidate)))
    || ((p.directives.None? || (p.directives.value.maxAge < 0 && p.directives.value.sMaxAge < 0 && !p.directives.value.isPublic && !p.directives.value.noCache))
        && !(p.expires.ExpiresAt? && p.expires.at > now))
  }

  lemma StorableExactly(status: int, authorized: bool, p: Parsed, now: Time)
    ensures Storable(status, authorized, p, now) <==> !Unshareable(status, authorized, p, now)
  {
  }

  // ---------- How long the store keeps it ----------

  /** A variant is listed and returned until the time it was stored for has passed, and not after; without a time, always.
      Metadata stays as long as any write of its key asked for. */
  lemma HeldExactly(s: Store, k: Key, m: Meta, v: Variant, body: Bytes, ttl: int, wrote: Time, now: Time)
    ensures var s' := AfterSet(s, k, m, v, body, ttl, wrote);
      && (HasVariant(s', k, Named(v.key), now) <==> ttl <= 0 || now <= wrote + ttl)
      && (ListsVariant(s', k, Named(v.key), now) <==> ttl <= 0 || now < wrote + ttl)
      && (k !in s.meta ==> (HasMeta(s', k, now) <==> ttl <= 0 || now <= wrote + ttl))
      && (k in s.meta && ttl > 0 ==>
            (HasMeta(s', k, now) <==> now <= wrote + ttl || (s.meta[k].expires.Some? && now <= s.meta[k].expires.value)))
  {
    hide WithTags;
  }

  /** Full responses are kept through both stale windows. */
  lemma KeptThroughWindows(p: Parsed, req: Time, resp: Time, vary: seq<Bytes>, tags: seq<Tag>)
    ensures var d, lasts := p.directives, MetaFor(vary, tags, p, req, resp).expiresAt - resp;
      && (d.None? || d.value.mustRevalidate || d.value.proxyRevalidate ==> StorageTtl(p, req, resp) == lasts)
      && (d.Some? && !d.value.mustRevalidate && !d.value.proxyRevalidate ==>
            && StorageTtl(p, req, resp) >= lasts
            && StorageTtl(p, req, resp) >= lasts + d.value.staleWhileRevalidate * NANOS
            && StorageTtl(p, req, resp) >= lasts + d.value.staleIfError * NANOS
            && StorageTtl(p, req, resp) - lasts in {0, d.value.staleWhileRevalidate * NANOS, d.value.staleIfError * NANOS})
  {
    hide Ttl, InitialAge;
  }
}
