/** Age and freshness of stored responses: sections 4.2.1 and 4.2.3 of RFC 9111. Times and durations are nanoseconds. */
module Freshness {
  import opened KeyBytes
  import opened StoreState

  const SECOND := 1_000_000_000
  const MAX_TTL := 365 * 24 * 3600 * SECOND

  /** Parsed Cache-Control of a response; a negative delta is an absent directive. */
  datatype Directives = Directives(sMaxAge: int, maxAge: int, staleWhileRevalidate: int, staleIfError: int,
                                   noCache: bool, noStore: bool, isPrivate: bool, isPublic: bool,
                                   mustRevalidate: bool, proxyRevalidate: bool)

  datatype Expires = NoExpires | BadExpires | ExpiresAt(at: Time)

  /** What the header fields of a response say. */
  datatype Parsed = Parsed(directives: Option<Directives>, date: Option<Time>, ageSeconds: nat, expires: Expires,
                           setCookie: bool, eventStream: bool, varyStar: bool)

  datatype Info = Info(apparentAge: int, initialAge: int, currentAge: int, lifetime: int, ttl: int,
                       swrTtl: int, sieTtl: int, cacheable: bool)

  function Max(a: int, b: int): int { if a >= b then a else b }

  // ---------- What the standard asks ----------

  function ApparentAge(p: Parsed, resp: Time): int { if p.date.Some? then Max(0, resp - p.date.value) else 0 }

  /** The larger of the apparent age and the age reported by upstream caches plus the transfer delay. */
  function InitialAge(p: Parsed, req: Time, resp: Time): int {
    Max(ApparentAge(p, resp), p.ageSeconds * SECOND + Max(0, resp - req))
  }

  function CurrentAge(p: Parsed, req: Time, resp: Time, now: Time): int {
    InitialAge(p, req, resp) + Max(0, now - resp)
  }

  /** An Expires date counts from the response's own Date, or from its arrival. */
  function ExpiresLifetime(p: Parsed, resp: Time): int {
    match p.expires
    case ExpiresAt(at) => if p.date.Some? && at > p.date.value then at - p.date.value else Max(0, at - resp)
    case _ => 0
  }

  /** Section 4.2.1: s-maxage, else max-age, else Expires; nothing for no-cache. */
  function Lifetime(p: Parsed, resp: Time): int {
    match p.directives
    case None => ExpiresLifetime(p, resp)
    case Some(d) =>
      if d.noCache then 0
      else if d.sMaxAge >= 0 then d.sMaxAge * SECOND
      else if d.maxAge >= 0 then d.maxAge * SECOND
      else ExpiresLifetime(p, resp)
  }

  predicate ForbidsStale(p: Parsed) {
    p.directives.Some? && (p.directives.value.mustRevalidate || p.directives.value.proxyRevalidate)
  }

  function Window(p: Parsed, delta: Directives -> int): int {
    if p.directives.None? || ForbidsStale(p) then 0 else Max(0, delta(p.directives.value)) * SECOND
  }

  function SwrWindow(p: Parsed): int { Window(p, (d: Directives) => d.staleWhileRevalidate) }

  function SieWindow(p: Parsed): int { Window(p, (d: Directives) => d.staleIfError) }

  function Ttl(p: Parsed, req: Time, resp: Time): int {
    var left := Lifetime(p, resp) - InitialAge(p, req, resp);
    if left > MAX_TTL then MAX_TTL else Max(0, left)
  }

  // ---------- Which responses may be stored ----------

  predicate NeverStored(status: int) {
    status < 200 || status in {304, 205, 206, 303, 401, 407, 421, 426}
  }

  predicate FutureExpires(p: Parsed, now: Time) { p.expires.ExpiresAt? && p.expires.at > now }

  method IsResponseCacheable(status: int, authorized: bool, p: Parsed, now: Time) returns (r: bool)
    ensures r <==> Storable(status, authorized, p, now)
  {
    if status in {304, 205, 206, 303, 401, 407, 421, 426} { return false; }
    if status < 200 { return false; }
    if p.setCookie { return false; }
    if p.eventStream { return false; }
    if p.varyStar { return false; }
    if p.directives.None? {
      if !FutureExpires(p, now) { return false; }
      return !authorized;
    }
    var d := p.directives.value;
    if d.noStore { return false; }
    if d.isPrivate { return false; }
    if authorized && !d.isPublic && d.sMaxAge < 0 && !d.mustRevalidate { return false; }
    if d.maxAge < 0 && d.sMaxAge < 0 && !d.isPublic && !d.noCache {
      if !FutureExpires(p, now) { return false; }
    }
    return true;
  }

  /** A shared cache may keep it: a final, complete, shareable response whose freshness or reuse is
      stated, and whose request was not personal unless the response allows sharing (section 3 and 3.5). */
  predicate Storable(status: int, authorized: bool, p: Parsed, now: Time) {
    && !NeverStored(status)
    && !p.setCookie && !p.eventStream && !p.varyStar
    && (p.directives.Some? ==> !p.directives.value.noStore && !p.directives.value.isPrivate)
    && (FutureExpires(p, now) || StatesReuse(p))
    && (authorized ==> AllowsSharing(p))
  }

  predicate StatesReuse(p: Parsed) {
    p.directives.Some? &&
    (p.directives.value.maxAge >= 0 || p.directives.value.sMaxAge >= 0 || p.directives.value.isPublic || p.directives.value.noCache)
  }

  predicate AllowsSharing(p: Parsed) {
    p.directives.Some? &&
    (p.directives.value.isPublic || p.directives.value.sMaxAge >= 0 || p.directives.value.mustRevalidate)
  }

  // ---------- The computation ----------

  /** Freshness lifetime and stale windows from the directives, or from Expires without them. */
  method ReadLifetime(p: Parsed, resp: Time) returns (lifetime: int, swr: int, sie: int)
    ensures lifetime == Lifetime(p, resp) && swr == SwrWindow(p) && sie == SieWindow(p)
  {
    hide ExpiresLifetime;
    lifetime, swr, sie := 0, 0, 0;
    if p.expires.NoExpires? { NoExpiresNoLifetime(p, resp); }
    if p.directives.Some? {
      var d := p.directives.value;
      if d.sMaxAge >= 0 {
        lifetime := d.sMaxAge * SECOND;
      } else if d.maxAge >= 0 {
        lifetime := d.maxAge * SECOND;
      } else if !p.expires.NoExpires? {
        lifetime := ExpiresLifetime(p, resp);
      }
      if d.noCache { lifetime := 0; }
      if !d.mustRevalidate && !d.proxyRevalidate {
        if d.staleWhileRevalidate > 0 { swr := d.staleWhileRevalidate * SECOND; }
        if d.staleIfError > 0 { sie := d.staleIfError * SECOND; }
      }
    } else if !p.expires.NoExpires? {
      lifetime := ExpiresLifetime(p, resp);
    }
  }

  lemma NoExpiresNoLifetime(p: Parsed, resp: Time)
    requires p.expires.NoExpires?
    ensures ExpiresLifetime(p, resp) == 0
  {
  }

  method CalculateFreshness(status: int, authorized: bool, p: Parsed, req: Time, resp: Time, now: Time, clock: Time)
    returns (info: Info)
    ensures info.apparentAge == ApparentAge(p, resp) && info.initialAge == InitialAge(p, req, resp)
    ensures info.currentAge == CurrentAge(p, req, resp, now)
    ensures info.lifetime == Lifetime(p, resp) && info.ttl == Ttl(p, req, resp)
    ensures info.swrTtl == SwrWindow(p) && info.sieTtl == SieWindow(p)
    ensures info.cacheable <==> Storable(status, authorized, p, clock)
  {
    hide Lifetime, SwrWindow, SieWindow, Storable;
    var apparent, delay, resident := 0, 0, 0;
    if p.date.Some? && resp > p.date.value { apparent := resp - p.date.value; }
    if resp > req { delay := resp - req; }
    var initial := Max(apparent, p.ageSeconds * SECOND + delay);
    if now > resp { resident := now - resp; }
    var lifetime, swr, sie := ReadLifetime(p, resp);
    var ttl := 0;
    if lifetime > initial { ttl := lifetime - initial; }
    if ttl > MAX_TTL { ttl := MAX_TTL; }
    var ok := IsResponseCacheable(status, authorized, p, clock);
    info := Info(apparent, initial, initial + resident, lifetime, ttl, swr, sie, ok);
  }

  // ---------- What is written ----------

  /** Metadata of a full response. */
  function MetaFor(vary: seq<Bytes>, tags: seq<Tag>, p: Parsed, req: Time, resp: Time): Meta {
    var at := resp + Ttl(p, req, resp);
    Meta(vary, resp, at, if SwrWindow(p) > 0 then at + SwrWindow(p) else 0, InitialAge(p, req, resp) / SECOND, tags)
  }

  /** Metadata after the origin confirmed the stored response: only the expiry moves. */
  function MetaRefreshed(m: Meta, p: Parsed, req: Time, resp: Time): Meta {
    var at := resp + Ttl(p, req, resp);
    m.(expiresAt := at, staleUntil := at + SwrWindow(p))
  }

  function StorageTtl(p: Parsed, req: Time, resp: Time): int {
    Ttl(p, req, resp) + Max(SwrWindow(p), SieWindow(p))
  }

  // ---------- How it is judged ----------

  datatype Verdict = Fresh | Updating | Expired

  /** A soft-purged entry is never used without asking the origin. */
  function Judge(m: Meta, soft: bool, now: Time): Verdict {
    if soft then Expired
    else if now <= m.expiresAt then Fresh
    else if m.staleUntil > m.expiresAt && now <= m.staleUntil then Updating
    else Expired
  }

  function AgeSent(m: Meta, now: Time): int {
    m.initialAgeSeconds + if now >= m.createdAt then (now - m.createdAt) / SECOND else 0
  }

  ghost predicate TrulyFresh(p: Parsed, req: Time, resp: Time, now: Time) {
    CurrentAge(p, req, resp, now) <= Lifetime(p, resp)
  }

  /** A full response is judged fresh exactly while its current age is within its lifetime or less than a
      nanosecond has passed since it arrived, up to the one-year clamp. */
  lemma FreshExactly(vary: seq<Bytes>, tags: seq<Tag>, p: Parsed, req: Time, resp: Time, now: Time)
    requires now >= resp
    ensures var judged := Judge(MetaFor(vary, tags, p, req, resp), false, now).Fresh?;
      && (judged <==> now == resp || (TrulyFresh(p, req, resp, now) && now - resp <= MAX_TTL))
      && ((judged ==> TrulyFresh(p, req, resp, now)) <==> !(now == resp && InitialAge(p, req, resp) > Lifetime(p, resp)))
  {
    hide Lifetime, InitialAge, SwrWindow;
  }

  /** So a response that may not be reused without validation is a hit at the very instant it arrived. */
  lemma NoCacheHitAtArrival(vary: seq<Bytes>, tags: seq<Tag>, p: Parsed, req: Time, resp: Time)
    requires p.directives.Some? && p.directives.value.noCache && p.ageSeconds > 0
    ensures Judge(MetaFor(vary, tags, p, req, resp), false, resp).Fresh? && !TrulyFresh(p, req, resp, resp)
    ensures forall now :: now > resp ==> !Judge(MetaFor(vary, tags, p, req, resp), false, now).Fresh?
  {
    assert Lifetime(p, resp) == 0 && InitialAge(p, req, resp) > 0;
    hide Lifetime, InitialAge, SwrWindow;
  }

  lemma FloorSum(a: int, b: int)
    requires a >= 0 && b >= 0
    ensures (a + b) / SECOND - 1 <= a / SECOND + b / SECOND <= (a + b) / SECOND
  {
    var x, y := a / SECOND, b / SECOND;
    assert a == x * SECOND + a % SECOND && b == y * SECOND + b % SECOND;
    assert a + b == (x + y) * SECOND + (a % SECOND + b % SECOND);
  }

  /** The Age sent is the true age in whole seconds, or one less. */
  lemma AgeTrue(vary: seq<Bytes>, tags: seq<Tag>, p: Parsed, req: Time, resp: Time, now: Time)
    requires now >= resp
    ensures var sent, age := AgeSent(MetaFor(vary, tags, p, req, resp), now), CurrentAge(p, req, resp, now) / SECOND;
      age - 1 <= sent <= age
  {
    FloorSum(InitialAge(p, req, resp), now - resp);
  }

  /** A confirmation by the origin does not make the response any younger. */
  lemma AgeKeptByRefresh(m: Meta, p: Parsed, req: Time, resp: Time, now: Time)
    requires now >= resp >= m.createdAt
    ensures var m' := MetaRefreshed(m, p, req, resp);
      && AgeSent(m', now) == AgeSent(m, now)
      && AgeSent(m', now) >= m.initialAgeSeconds + (now - resp) / SECOND
  {
    FloorSum(now - resp, resp - m.createdAt);
    assert (resp - m.createdAt) / SECOND >= 0;
  }

  function Rank(v: Verdict): nat { match v case Fresh => 0 case Updating => 1 case Expired => 2 }

  /** Between writes the verdict only moves forward: fresh, then stale-while-revalidate, then revalidate. */
  lemma VerdictsInOrder(m: Meta, soft: bool, soft': bool, now: Time, later: Time)
    requires now <= later && (soft ==> soft')
    ensures Rank(Judge(m, soft, now)) <= Rank(Judge(m, soft', later))
  {
  }

  /** After a write the stale window is the promised one, and is empty under must-revalidate or
      proxy-revalidate, both for a full response and for a confirmed one. */
  lemma StaleWindowExactly(vary: seq<Bytes>, tags: seq<Tag>, held: Meta, p: Parsed, req: Time, resp: Time, now: Time)
    requires resp >= 0
    ensures var full, same := MetaFor(vary, tags, p, req, resp), MetaRefreshed(held, p, req, resp);
      && full.expiresAt == same.expiresAt == resp + Ttl(p, req, resp)
      && Judge(full, false, now) == Judge(same, false, now)
      && (Judge(full, false, now).Updating? <==> full.expiresAt < now <= full.expiresAt + SwrWindow(p))
      && (ForbidsStale(p) ==> SwrWindow(p) == SieWindow(p) == 0 && !Judge(full, false, now).Updating?)
  {
    assert Ttl(p, req, resp) >= 0;
    hide Ttl;
  }

  /** Storage outlives the promise: until the last instant the entry may be used stale, the store
      holds its metadata, lists its variant and returns it. */
  lemma HeldUntilStaleLimit(s: Store, k: Key, m: Meta, v: Variant, body: Bytes, p: Parsed, req: Time, resp: Time,
                            wrote: Time, now: Time)
    requires resp <= wrote <= now < resp + Ttl(p, req, resp) + Max(SwrWindow(p), SieWindow(p))
    ensures var s' := AfterSet(s, k, m, v, body, StorageTtl(p, req, resp), wrote);
      HasMeta(s', k, now) && HasVariant(s', k, Named(v.key), now) && ListsVariant(s', k, Named(v.key), now)
  {
    hide Ttl, SwrWindow, SieWindow, WithTags;
  }

  lemma NonNegative(p: Parsed, req: Time, resp: Time)
    ensures SwrWindow(p) >= 0 && SieWindow(p) >= 0 && Ttl(p, req, resp) >= 0
  {
  }

  // ---------- Machine arithmetic ----------

  ghost predicate Fits(x: int) { -0x8000_0000_0000_0000 <= x < 0x8000_0000_0000_0000 }

  ghost predicate Delta(x: int) { x < 0x8000_0000 }

  ghost predicate Clock(t: Time) { 0 <= t < 0x2000_0000_0000_0000 }

  /** Every delta-second is below 2^31 and every date below 2^61 nanoseconds. */
  ghost predicate Modest(p: Parsed) {
    && Delta(p.ageSeconds)
    && (p.date.Some? ==> Clock(p.date.value))
    && (p.expires.ExpiresAt? ==> Clock(p.expires.at))
    && (p.directives.Some? ==>
          && Delta(p.directives.value.sMaxAge) && Delta(p.directives.value.maxAge)
          && Delta(p.directives.value.staleWhileRevalidate) && Delta(p.directives.value.staleIfError))
  }

  /** No sum or product of the computation leaves the 64-bit range, so unbounded integers model it exactly. */
  lemma SumsFit(p: Parsed, req: Time, resp: Time, now: Time)
    requires Modest(p) && Clock(req) && Clock(resp) && Clock(now)
    ensures Fits(ApparentAge(p, resp)) && Fits(p.ageSeconds * SECOND) && Fits(InitialAge(p, req, resp))
    ensures Fits(CurrentAge(p, req, resp, now)) && Fits(Lifetime(p, resp))
    ensures Fits(Lifetime(p, resp) - InitialAge(p, req, resp))
    ensures Fits(resp + Ttl(p, req, resp)) && Fits(resp + Ttl(p, req, resp) + SwrWindow(p))
    ensures Fits(StorageTtl(p, req, resp)) && Fits(now + StorageTtl(p, req, resp))
    ensures forall vary, tags :: Fits(AgeSent(MetaFor(vary, tags, p, req, resp), now))
  {
    LifetimeFits(p, resp);
    WindowsFit(p);
    assert 0 <= InitialAge(p, req, resp) <= 0x8000_0000 * SECOND + 0x2000_0000_0000_0000;
    assert 0 <= Ttl(p, req, resp) <= MAX_TTL;
    hide Lifetime, SwrWindow, SieWindow;
    forall vary, tags ensures Fits(AgeSent(MetaFor(vary, tags, p, req, resp), now)) {
      if now >= resp { AgeTrue(vary, tags, p, req, resp, now); }
    }
  }

  lemma LifetimeFits(p: Parsed, resp: Time)
    requires Modest(p) && Clock(resp)
    ensures 0 <= Lifetime(p, resp) <= 0x8000_0000 * SECOND + 0x2000_0000_0000_0000
  {
  }

  lemma WindowsFit(p: Parsed)
    requires Modest(p)
    ensures 0 <= SwrWindow(p) <= 0x8000_0000 * SECOND && 0 <= SieWindow(p) <= 0x8000_0000 * SECOND
  {
  }
}
