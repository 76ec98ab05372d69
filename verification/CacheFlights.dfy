/** Synchronous revalidations: flights shared by the requests waiting for them, interleaved with each other and with
    every other use of the store. */
module CacheFlights {
  import opened KeyBytes
  import opened StoreState
  import opened Freshness
  import opened Handler
  import opened TestStore

  // ---------- The machine ----------

  /** Flights go by primary and variant key joined with a colon. */
  function FlightKey(pk: Key, vk: Key): Bytes { pk + [':'] + vk }

  /** The read of a recheck that found no copy: how many operations the store had seen, when, and whether it failed. */
  datatype Check = Check(seen: nat, at: Time, failed: bool)

  datatype Phase =
    | Started
    | Looking(meta: Meta)
    | Unanswered
    | Asked
    | Returned(result: FlightResult)
    | Retired(result: FlightResult)

  /** A flight: the request that started it, the stored variant it is about, and what it did: the recheck that found
      no copy, whether it asked the origin, which operation stored the answer, how many requests joined. */
  datatype Flight = Flight(pk: Key, vk: Key, req: Request, meta: Meta, variant: Variant, comp: Bytes,
                           phase: Phase, check: Option<Check>, asked: bool, wrote: Option<nat>, joined: nat)

  datatype Waiter = Waiter(flight: nat, req: Request, vk: Key)

  /** A request that got its answer. */
  datatype Served = Served(flight: nat, req: Request, vk: Key, shared: bool, e: Env, answer: Handler.Answer)

  /** The operations on the store so far, the clock, all flights, those running by key, and the requests that wait
      and that were served. */
  datatype State = State(ops: seq<Op>, now: Time, flights: seq<Flight>, running: map<Bytes, nat>,
                         waiting: map<nat, Waiter>, served: map<nat, Served>)

  const START := State([], 0, [], map[], map[], map[])

  /** What can happen next: any operation on the store by a miss, a background refresh or a purge; a request entering
      revalidation; the reads of a recheck; asking the origin; its reply; the end of a flight; a request leaving. */
  datatype What =
    | Other(op: Op)
    | Enter(l: nat, req: Request, vk: Key, meta: Meta, variant: Variant, comp: Bytes)
    | CheckMeta(f: nat, fails: bool)
    | CheckVariant(f: nat, fails: bool)
    | Ask(f: nat)
    | Arrive(f: nat, e: Env)
    | Retire(f: nat)
    | Leave(l: nat, e: Env)

  datatype Move = Move(at: Time, what: What)

  function StoreOf(s: State): Store { ApplyAll(EMPTY, s.ops) }

  predicate InPhase(s: State, f: nat, p: Phase -> bool) { f < |s.flights| && p(s.flights[f].phase) }

  predicate Enabled(s: State, mv: Move) {
    && mv.at >= s.now
    && match mv.what
       case Other(_) => true
       case Enter(l, _, vk, _, _, _) => l !in s.waiting && l !in s.served && vk != []
       case CheckMeta(f, _) => InPhase(s, f, (p: Phase) => p.Started?)
       case CheckVariant(f, _) => InPhase(s, f, (p: Phase) => p.Looking?)
       case Ask(f) => InPhase(s, f, (p: Phase) => p.Unanswered?)
       case Arrive(f, e) => InPhase(s, f, (p: Phase) => p.Asked?) && e.answered <= e.wrote == mv.at
       case Retire(f) => InPhase(s, f, (p: Phase) => p.Returned?)
       case Leave(l, _) => l in s.waiting && InPhase(s, s.waiting[l].flight, (p: Phase) => p.Retired?)
  }

  /** Metadata that makes a recheck look for the variant. */
  predicate FreshMeta(st: Store, pk: Key, at: Time) {
    HasMeta(st, pk, at) && !st.meta[pk].soft && st.meta[pk].meta.expiresAt > at
  }

  /** A variant that a recheck takes. */
  predicate Usable(st: Store, pk: Key, vk: Key, at: Time) {
    var f := Fetched(st, pk, vk, at, false);
    f.Some? && (f.value.0.rawSize == 0 || f.value.1 != [])
  }

  /** The two reads of a flight are the recheck the handler specifies. */
  lemma RecheckIsLook(st: Store, pk: Key, vk: Key, e: Env)
    ensures RecheckFinds(st, pk, vk, e) <==> !e.checkFails && FreshMeta(st, pk, e.check) && Usable(st, pk, vk, e.check)
  {
  }

  function With(s: State, f: nat, fl: Flight): State
    requires f < |s.flights|
  {
    s.(flights := s.flights[f := fl])
  }

  function AfterEnter(s: State, l: nat, req: Request, vk: Key, m: Meta, v: Variant, comp: Bytes): State {
    var k := FlightKey(req.pk, vk);
    if k in s.running && s.running[k] < |s.flights| then
      var f := s.running[k];
      With(s, f, s.flights[f].(joined := s.flights[f].joined + 1)).(waiting := s.waiting[l := Waiter(f, req, vk)])
    else
      s.(flights := s.flights + [Flight(req.pk, vk, req, m, v, comp, Started, None, false, None, 0)],
         running := s.running[k := |s.flights|], waiting := s.waiting[l := Waiter(|s.flights|, req, vk)])
  }

  function AfterCheckMeta(s: State, f: nat, at: Time, fails: bool): State
    requires f < |s.flights|
  {
    var fl := s.flights[f];
    if !fails && FreshMeta(StoreOf(s), fl.pk, at) then With(s, f, fl.(phase := Looking(StoreOf(s).meta[fl.pk].meta)))
    else With(s, f, fl.(phase := Unanswered, check := Some(Check(|s.ops|, at, fails))))
  }

  function AfterCheckVariant(s: State, f: nat, at: Time, fails: bool): State
    requires InPhase(s, f, (p: Phase) => p.Looking?)
  {
    var fl := s.flights[f];
    if !fails && Usable(StoreOf(s), fl.pk, fl.vk, at) then
      var x := Fetched(StoreOf(s), fl.pk, fl.vk, at, false).value;
      With(s, f, fl.(phase := Returned(Copy(STALE, fl.phase.meta, x.0, x.1))))
    else With(s, f, fl.(phase := Unanswered, check := Some(Check(|s.ops|, at, fails))))
  }

  /** The operation a landing puts to the store, if any. */
  function LandingOp(cfg: Config, fl: Flight, e: Env): Option<Op> {
    match e.reply
    case Panicked => None
    case Reply(status, h, body) =>
      if status == 304 && fl.comp != [] then
        var p := cfg.parse(RefreshFields(cfg, fl.variant, h));
        if Ttl(p, e.asked, e.answered) > 0 && !cfg.closed && !e.saveFails then
          Some(Write(fl.req.pk, MetaRefreshed(fl.meta, p, e.asked, e.answered), RefreshedVariant(cfg, fl.variant, h), fl.comp,
                     StorageTtl(p, e.asked, e.answered), e.wrote))
        else None
      else if status >= 500 && fl.comp != [] then None
      else
        match Prepare(cfg, status, h, body)
        case ScanDied => None
        case Ready(f) =>
          if MayStore(cfg, fl.req, f, e) && !e.saveFails then
            var p := cfg.parse(f.headers);
            Some(Write(fl.req.pk, MetaFor(VaryNames(f.headers), cfg.tagsOf(f.headers), p, e.asked, e.answered),
                       VariantFor(cfg, SaveKey(fl.req, fl.vk, f.headers), f), Packed(cfg, f.headers, f.body).1,
                       StorageTtl(p, e.asked, e.answered), e.wrote))
          else None
  }

  function ResultOf(cfg: Config, fl: Flight, e: Env): FlightResult {
    Land(cfg, World(EMPTY, [], []), fl.req, fl.vk, fl.meta, fl.variant, fl.comp, e).result
  }

  /** The landing of a flight is the landing the handler specifies. */
  lemma LandingIsLand(cfg: Config, w: World, fl: Flight, e: Env)
    ensures var l := Land(cfg, w, fl.req, fl.vk, fl.meta, fl.variant, fl.comp, e);
      && l.result == ResultOf(cfg, fl, e)
      && l.world.store == (match LandingOp(cfg, fl, e) case None => w.store case Some(op) => Apply(w.store, op))
  {
    hide AfterSet, Prepare, MayStore, Ttl, SaveKey, VariantFor, Packed, MetaFor, MetaRefreshed, StorageTtl, RefreshFields, RefreshedVariant, VaryNames;
  }

  function AfterArrive(cfg: Config, s: State, f: nat, e: Env): State
    requires f < |s.flights|
  {
    var fl := s.flights[f];
    var done := fl.(phase := Returned(ResultOf(cfg, fl, e)));
    match LandingOp(cfg, fl, e)
    case None => With(s, f, done)
    case Some(op) => With(s, f, done.(wrote := Some(|s.ops|))).(ops := s.ops + [op])
  }

  function AfterRetire(s: State, f: nat): State
    requires InPhase(s, f, (p: Phase) => p.Returned?)
  {
    var fl := s.flights[f];
    With(s, f, fl.(phase := Retired(fl.phase.result))).(running := s.running - {FlightKey(fl.pk, fl.vk)})
  }

  function AfterLeave(cfg: Config, s: State, l: nat, e: Env): State
    requires l in s.waiting && InPhase(s, s.waiting[l].flight, (p: Phase) => p.Retired?)
  {
    var w := s.waiting[l];
    var fl := s.flights[w.flight];
    var shared := fl.joined > 0;
    s.(waiting := s.waiting - {l},
       served := s.served[l := Served(w.flight, w.req, w.vk, shared, e, AnswerOf(cfg, w.req, w.vk, fl.phase.result, shared, e))])
  }

  /** A move that cannot happen changes nothing. */
  function Next(cfg: Config, s: State, mv: Move): State {
    if !Enabled(s, mv) then s
    else
      var s := s.(now := mv.at);
      match mv.what
      case Other(op) => s.(ops := s.ops + [op])
      case Enter(l, req, vk, m, v, comp) => AfterEnter(s, l, req, vk, m, v, comp)
      case CheckMeta(f, fails) => AfterCheckMeta(s, f, mv.at, fails)
      case CheckVariant(f, fails) => AfterCheckVariant(s, f, mv.at, fails)
      case Ask(f) => With(s, f, s.flights[f].(phase := Asked, asked := true))
      case Arrive(f, e) => AfterArrive(cfg, s, f, e)
      case Retire(f) => AfterRetire(s, f)
      case Leave(l, e) => AfterLeave(cfg, s, l, e)
  }

  function Run(cfg: Config, moves: seq<Move>): State
    decreases |moves|
  {
    if moves == [] then START else Next(cfg, Run(cfg, moves[..|moves| - 1]), moves[|moves| - 1])
  }

  lemma RunOn(cfg: Config, moves: seq<Move>, n: nat)
    requires n < |moves|
    ensures Run(cfg, moves[..n + 1]) == Next(cfg, Run(cfg, moves[..n]), moves[n])
  {
    hide Next;
    assert moves[..n + 1][..n] == moves[..n];
  }
}
