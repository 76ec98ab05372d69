/** In every interleaving: what separates two contacts of the origin, and what waiting requests receive. */
module CacheContacts {
  import opened KeyBytes
  import opened StoreState
  import opened Freshness
  import opened Handler
  import opened TestStore
  import opened StoreHistory
  import opened CacheFlights
  import CacheLaws

  // ---------- The invariant ----------

  function KeyOfFlight(fl: Flight): Bytes { FlightKey(fl.pk, fl.vk) }

  /** A key runs one flight at a time: exactly its unretired one. */
  ghost predicate OneRunning(s: State) {
    && (forall k :: k in s.running ==>
          s.running[k] < |s.flights| && KeyOfFlight(s.flights[s.running[k]]) == k && !s.flights[s.running[k]].phase.Retired?)
    && (forall f :: 0 <= f < |s.flights| && !s.flights[f].phase.Retired? ==>
          KeyOfFlight(s.flights[f]) in s.running && s.running[KeyOfFlight(s.flights[f])] == f)
  }

  /** The recheck read the store as it was then, and found no copy or failed. */
  ghost predicate CheckOk(ops: seq<Op>, now: Time, fl: Flight) {
    fl.check.Some? ==>
      var c := fl.check.value;
      && c.seen <= |ops| && c.at <= now
      && (c.failed || !FreshMeta(At(ops, c.seen), fl.pk, c.at) || !Usable(At(ops, c.seen), fl.pk, fl.vk, c.at))
  }

  /** A write that outlives the expiry it promises. */
  predicate WriteOk(op: Op, pk: Key) { op.Write? && op.k == pk && op.meta.expiresAt <= op.now + Max(0, op.ttl) }

  ghost predicate WroteOk(ops: seq<Op>, now: Time, fl: Flight) {
    fl.wrote.Some? ==>
      && fl.wrote.value < |ops| && WriteOk(ops[fl.wrote.value], fl.pk) && ops[fl.wrote.value].now <= now
      && (fl.phase.Returned? || fl.phase.Retired?)
  }

  ghost predicate FlightOk(ops: seq<Op>, now: Time, fl: Flight) {
    && fl.vk != [] && fl.req.pk == fl.pk
    && CheckOk(ops, now, fl) && WroteOk(ops, now, fl)
    && (fl.asked ==> (fl.phase.Asked? || fl.phase.Returned? || fl.phase.Retired?) && fl.check.Some?)
    && (fl.phase.Unanswered? || fl.phase.Asked? ==> fl.check.Some?)
  }

  /** A later flight of the same key started after the earlier one ended, and rechecked after its write. */
  ghost predicate PairOk(ops: seq<Op>, a: Flight, b: Flight) {
    KeyOfFlight(a) == KeyOfFlight(b) ==>
      && a.phase.Retired?
      && (a.wrote.Some? && b.check.Some? && a.wrote.value < |ops| && ops[a.wrote.value].Write? ==>
            a.wrote.value < b.check.value.seen && ops[a.wrote.value].now <= b.check.value.at)
  }

  ghost predicate WaiterOk(flights: seq<Flight>, w: Waiter) {
    w.flight < |flights| && FlightKey(w.req.pk, w.vk) == KeyOfFlight(flights[w.flight])
  }

  ghost predicate ServedOk(cfg: Config, flights: seq<Flight>, sv: Served) {
    && sv.flight < |flights| && FlightKey(sv.req.pk, sv.vk) == KeyOfFlight(flights[sv.flight])
    && flights[sv.flight].phase.Retired? && sv.shared == (flights[sv.flight].joined > 0)
    && sv.answer == AnswerOf(cfg, sv.req, sv.vk, flights[sv.flight].phase.result, sv.shared, sv.e)
  }

  ghost predicate Inv(cfg: Config, s: State) {
    && OneRunning(s)
    && (forall f :: 0 <= f < |s.flights| ==> FlightOk(s.ops, s.now, s.flights[f]))
    && (forall f, g :: 0 <= f < g < |s.flights| ==> PairOk(s.ops, s.flights[f], s.flights[g]))
    && (forall l :: l in s.waiting ==> WaiterOk(s.flights, s.waiting[l]))
    && (forall l :: l in s.served ==> ServedOk(cfg, s.flights, s.served[l]))
  }

  // ---------- Small changes ----------

  lemma InvFlight(cfg: Config, s: State, f: nat)
    requires Inv(cfg, s) && f < |s.flights|
    ensures FlightOk(s.ops, s.now, s.flights[f])
  {
    hide FlightOk, PairOk, WaiterOk, ServedOk, OneRunning;
  }

  lemma InvRunning(cfg: Config, s: State, k: Bytes)
    requires Inv(cfg, s) && k in s.running
    ensures s.running[k] < |s.flights| && KeyOfFlight(s.flights[s.running[k]]) == k && !s.flights[s.running[k]].phase.Retired?
  {
    hide FlightOk, PairOk, WaiterOk, ServedOk, KeyOfFlight;
  }

  lemma TimePasses(cfg: Config, s: State, now: Time)
    requires Inv(cfg, s) && now >= s.now
    ensures Inv(cfg, s.(now := now))
  {
    hide At, FreshMeta, Usable, AnswerOf, PairOk, WriteOk, KeyOfFlight;
    forall f | 0 <= f < |s.flights| ensures FlightOk(s.ops, now, s.flights[f]) { assert FlightOk(s.ops, s.now, s.flights[f]); }
  }

  lemma AtKept(ops: seq<Op>, op: Op, n: nat)
    requires n <= |ops|
    ensures At(ops + [op], n) == At(ops, n)
  {
    assert (ops + [op])[..n] == ops[..n];
  }

  lemma FlightKept(ops: seq<Op>, op: Op, now: Time, fl: Flight)
    requires FlightOk(ops, now, fl)
    ensures FlightOk(ops + [op], now, fl)
  {
    hide At, FreshMeta, Usable, WriteOk;
    if fl.check.Some? { AtKept(ops, op, fl.check.value.seen); }
    if fl.wrote.Some? { assert (ops + [op])[fl.wrote.value] == ops[fl.wrote.value]; }
  }

  lemma OpsGrow(cfg: Config, s: State, op: Op)
    requires Inv(cfg, s)
    ensures Inv(cfg, s.(ops := s.ops + [op]))
  {
    hide FlightOk, AnswerOf, KeyOfFlight;
    var ops' := s.ops + [op];
    forall f | 0 <= f < |s.flights| ensures FlightOk(ops', s.now, s.flights[f]) { FlightKept(s.ops, op, s.now, s.flights[f]); }
    forall f, g | 0 <= f < g < |s.flights| ensures PairOk(ops', s.flights[f], s.flights[g]) {
      assert PairOk(s.ops, s.flights[f], s.flights[g]);
      WroteInRange(s.ops, s.now, s.flights[f]);
      if s.flights[f].wrote.Some? { assert ops'[s.flights[f].wrote.value] == s.ops[s.flights[f].wrote.value]; }
    }
  }

  lemma WroteInRange(ops: seq<Op>, now: Time, fl: Flight)
    requires FlightOk(ops, now, fl)
    ensures fl.wrote.Some? ==> fl.wrote.value < |ops| && ops[fl.wrote.value].Write? && ops[fl.wrote.value].now <= now
  {
    hide CheckOk;
  }

  /** Nothing after an unretired flight shares its key. */
  lemma LastOfKey(cfg: Config, s: State, f: nat, g: nat)
    requires Inv(cfg, s) && f < g < |s.flights| && !s.flights[f].phase.Retired?
    ensures KeyOfFlight(s.flights[f]) != KeyOfFlight(s.flights[g])
  {
    hide FlightOk, AnswerOf, KeyOfFlight, OneRunning;
    assert PairOk(s.ops, s.flights[f], s.flights[g]);
  }

  /** The flight goes on: same keys, not retired, and a recheck recorded now if it is new. */
  ghost predicate GoesOn(s: State, old1: Flight, fl: Flight) {
    && fl.pk == old1.pk && fl.vk == old1.vk && !old1.phase.Retired? && !fl.phase.Retired?
    && FlightOk(s.ops, s.now, fl)
    && (fl.check != old1.check && fl.check.Some? ==> fl.check.value.seen == |s.ops| && fl.check.value.at == s.now)
  }

  lemma ReplacedPair(cfg: Config, s: State, f: nat, fl: Flight, g: nat)
    requires Inv(cfg, s) && g < f < |s.flights| && GoesOn(s, s.flights[f], fl)
    ensures PairOk(s.ops, s.flights[g], fl)
  {
    assert PairOk(s.ops, s.flights[g], s.flights[f]) && FlightOk(s.ops, s.now, s.flights[g]);
    hide Inv, At, FreshMeta, Usable, CheckOk;
  }

  lemma ReplacedRunning(s: State, f: nat, fl: Flight)
    requires OneRunning(s) && f < |s.flights| && KeyOfFlight(fl) == KeyOfFlight(s.flights[f])
    requires !s.flights[f].phase.Retired? && !fl.phase.Retired?
    ensures OneRunning(With(s, f, fl))
  {
    hide KeyOfFlight;
  }

  lemma ReplacedPairs(cfg: Config, s: State, f: nat, fl: Flight)
    requires Inv(cfg, s) && f < |s.flights| && GoesOn(s, s.flights[f], fl)
    ensures var s' := With(s, f, fl); forall a, b :: 0 <= a < b < |s'.flights| ==> PairOk(s'.ops, s'.flights[a], s'.flights[b])
  {
    hide FlightOk, PairOk, OneRunning, WaiterOk, ServedOk;
    var s' := With(s, f, fl);
    forall a, b | 0 <= a < b < |s'.flights| ensures PairOk(s'.ops, s'.flights[a], s'.flights[b]) {
      if a == f {
        LastOfKey(cfg, s, f, b);
        ApartIsOk(s.ops, fl, s.flights[b]);
      } else if b == f {
        ReplacedPair(cfg, s, f, fl, a);
      }
    }
  }

  lemma ReplacedListeners(cfg: Config, s: State, f: nat, fl: Flight)
    requires Inv(cfg, s) && f < |s.flights| && GoesOn(s, s.flights[f], fl)
    ensures var s' := With(s, f, fl);
      && (forall l :: l in s'.waiting ==> WaiterOk(s'.flights, s'.waiting[l]))
      && (forall l :: l in s'.served ==> ServedOk(cfg, s'.flights, s'.served[l]))
  {
    hide FlightOk, PairOk, OneRunning, AnswerOf;
  }

  lemma Replaced(cfg: Config, s: State, f: nat, fl: Flight)
    requires Inv(cfg, s) && f < |s.flights| && GoesOn(s, s.flights[f], fl)
    ensures Inv(cfg, With(s, f, fl))
  {
    hide FlightOk, PairOk, OneRunning, WaiterOk, ServedOk;
    ReplacedRunning(s, f, fl);
    ReplacedPairs(cfg, s, f, fl);
    ReplacedListeners(cfg, s, f, fl);
  }

  lemma ApartIsOk(ops: seq<Op>, a: Flight, b: Flight)
    requires KeyOfFlight(a) != KeyOfFlight(b)
    ensures PairOk(ops, a, b)
  {
  }

  // ---------- Steps ----------

  /** A read that found nothing is recorded. */
  lemma Recorded(s: State, fl: Flight, fails: bool)
    requires FlightOk(s.ops, s.now, fl) && (fl.phase.Started? || fl.phase.Looking?)
    requires fails || !FreshMeta(StoreOf(s), fl.pk, s.now) || !Usable(StoreOf(s), fl.pk, fl.vk, s.now)
    ensures GoesOn(s, fl, fl.(phase := Unanswered, check := Some(Check(|s.ops|, s.now, fails))))
  {
    hide FreshMeta, Usable, WriteOk, ApplyAll;
    AtEnd(s.ops);
  }

  lemma LooksOn(s: State, fl: Flight, p: Phase)
    requires FlightOk(s.ops, s.now, fl) && (fl.phase.Started? || fl.phase.Looking?) && (p.Looking? || p.Returned?)
    ensures GoesOn(s, fl, fl.(phase := p))
  {
    hide At, FreshMeta, Usable, WriteOk;
  }

  lemma CheckMetaKeeps(cfg: Config, s: State, f: nat, fails: bool)
    requires Inv(cfg, s) && InPhase(s, f, (p: Phase) => p.Started?)
    ensures Inv(cfg, AfterCheckMeta(s, f, s.now, fails))
  {
    hide Inv, FlightOk, FreshMeta, Usable, StoreOf, GoesOn;
    var fl := s.flights[f];
    InvFlight(cfg, s, f);
    if !fails && FreshMeta(StoreOf(s), fl.pk, s.now) {
      MetaThere(StoreOf(s), fl.pk, s.now);
      LooksOn(s, fl, Looking(StoreOf(s).meta[fl.pk].meta));
      Replaced(cfg, s, f, fl.(phase := Looking(StoreOf(s).meta[fl.pk].meta)));
    } else {
      Recorded(s, fl, fails);
      Replaced(cfg, s, f, fl.(phase := Unanswered, check := Some(Check(|s.ops|, s.now, fails))));
    }
  }

  lemma MetaThere(st: Store, pk: Key, at: Time)
    requires FreshMeta(st, pk, at)
    ensures pk in st.meta
  {
  }

  lemma CheckVariantKeeps(cfg: Config, s: State, f: nat, fails: bool)
    requires Inv(cfg, s) && InPhase(s, f, (p: Phase) => p.Looking?)
    ensures Inv(cfg, AfterCheckVariant(s, f, s.now, fails))
  {
    hide Inv, FlightOk, FreshMeta, StoreOf, GoesOn, Fetched;
    var fl := s.flights[f];
    InvFlight(cfg, s, f);
    if !fails && Usable(StoreOf(s), fl.pk, fl.vk, s.now) {
      var x := Fetched(StoreOf(s), fl.pk, fl.vk, s.now, false).value;
      LooksOn(s, fl, Returned(Copy(STALE, fl.phase.meta, x.0, x.1)));
      Replaced(cfg, s, f, fl.(phase := Returned(Copy(STALE, fl.phase.meta, x.0, x.1))));
    } else {
      Recorded(s, fl, fails);
      Replaced(cfg, s, f, fl.(phase := Unanswered, check := Some(Check(|s.ops|, s.now, fails))));
    }
  }

  lemma AsksNow(s: State, fl: Flight)
    requires FlightOk(s.ops, s.now, fl) && fl.phase.Unanswered?
    ensures GoesOn(s, fl, fl.(phase := Asked, asked := true))
  {
    hide At, FreshMeta, Usable, WriteOk;
  }

  lemma AskKeeps(cfg: Config, s: State, f: nat)
    requires Inv(cfg, s) && InPhase(s, f, (p: Phase) => p.Unanswered?)
    ensures Inv(cfg, With(s, f, s.flights[f].(phase := Asked, asked := true)))
  {
    hide Inv, FlightOk, GoesOn;
    InvFlight(cfg, s, f);
    AsksNow(s, s.flights[f]);
    Replaced(cfg, s, f, s.flights[f].(phase := Asked, asked := true));
  }

  /** What a landing writes outlives the expiry it promises. */
  lemma LandingWrites(cfg: Config, fl: Flight, e: Env)
    requires e.answered <= e.wrote && fl.req.pk == fl.pk && LandingOp(cfg, fl, e).Some?
    ensures WriteOk(LandingOp(cfg, fl, e).value, fl.pk) && LandingOp(cfg, fl, e).value.now == e.wrote
  {
    hide Prepare, MayStore, SaveKey, VariantFor, Packed, RefreshFields, RefreshedVariant, VaryNames, Ttl, SwrWindow, SieWindow;
    forall p ensures Ttl(p, e.asked, e.answered) >= 0 && SwrWindow(p) >= 0 && SieWindow(p) >= 0 { NonNegative(p, e.asked, e.answered); }
  }

  lemma Returns(s: State, fl: Flight, r: FlightResult)
    requires FlightOk(s.ops, s.now, fl) && fl.phase.Asked?
    ensures GoesOn(s, fl, fl.(phase := Returned(r)))
  {
    hide At, FreshMeta, Usable, WriteOk;
  }

  lemma ReturnsWritten(s: State, fl: Flight, r: FlightResult, w: nat)
    requires FlightOk(s.ops, s.now, fl) && fl.phase.Asked?
    requires w < |s.ops| && WriteOk(s.ops[w], fl.pk) && s.ops[w].now <= s.now
    ensures GoesOn(s, fl, fl.(phase := Returned(r), wrote := Some(w)))
  {
    hide At, FreshMeta, Usable, WriteOk;
  }

  lemma ArriveKeeps(cfg: Config, s: State, f: nat, e: Env)
    requires Inv(cfg, s) && InPhase(s, f, (p: Phase) => p.Asked?) && e.answered <= e.wrote == s.now
    ensures Inv(cfg, AfterArrive(cfg, s, f, e))
  {
    hide Inv, FlightOk, GoesOn, LandingOp, ResultOf, WriteOk;
    var fl, r := s.flights[f], ResultOf(cfg, s.flights[f], e);
    var op := LandingOp(cfg, fl, e);
    InvFlight(cfg, s, f);
    if op.None? {
      Returns(s, fl, r);
      Replaced(cfg, s, f, fl.(phase := Returned(r)));
    } else {
      OwnRequest(s.ops, s.now, fl);
      LandingWrites(cfg, fl, e);
      var s1, w := s.(ops := s.ops + [op.value]), |s.ops|;
      OpsGrow(cfg, s, op.value);
      InvFlight(cfg, s1, f);
      assert s1.ops[w] == op.value;
      ReturnsWritten(s1, fl, r, w);
      Replaced(cfg, s1, f, fl.(phase := Returned(r), wrote := Some(w)));
      assert With(s1, f, fl.(phase := Returned(r), wrote := Some(w))) == AfterArrive(cfg, s, f, e);
    }
  }

  lemma OwnRequest(ops: seq<Op>, now: Time, fl: Flight)
    requires FlightOk(ops, now, fl)
    ensures fl.req.pk == fl.pk && fl.vk != []
  {
    hide CheckOk, WroteOk;
  }

  lemma RetiredFlight(ops: seq<Op>, now: Time, fl: Flight)
    requires FlightOk(ops, now, fl) && fl.phase.Returned?
    ensures FlightOk(ops, now, fl.(phase := Retired(fl.phase.result)))
  {
    hide At, FreshMeta, Usable, WriteOk;
  }

  lemma RetiredPair(ops: seq<Op>, a: Flight, b: Flight)
    requires PairOk(ops, a, b)
    ensures b.phase.Returned? ==> PairOk(ops, a, b.(phase := Retired(b.phase.result)))
  {
  }

  lemma RetiredPairs(cfg: Config, s: State, f: nat)
    requires Inv(cfg, s) && InPhase(s, f, (p: Phase) => p.Returned?)
    ensures var s' := AfterRetire(s, f); forall a, b :: 0 <= a < b < |s'.flights| ==> PairOk(s'.ops, s'.flights[a], s'.flights[b])
  {
    hide FlightOk, PairOk, OneRunning, WaiterOk, ServedOk;
    var s' := AfterRetire(s, f);
    forall a, b | 0 <= a < b < |s'.flights| ensures PairOk(s'.ops, s'.flights[a], s'.flights[b]) {
      if a == f {
        LastOfKey(cfg, s, f, b);
        ApartIsOk(s.ops, s'.flights[f], s.flights[b]);
      } else if b == f {
        RetiredPair(s.ops, s.flights[a], s.flights[f]);
      }
    }
  }

  lemma RetiredRunning(s: State, f: nat)
    requires OneRunning(s) && InPhase(s, f, (p: Phase) => p.Returned?)
    ensures OneRunning(AfterRetire(s, f))
  {
    assert KeyOfFlight(s.flights[f]) == FlightKey(s.flights[f].pk, s.flights[f].vk);
  }

  lemma RetiredListeners(cfg: Config, s: State, f: nat)
    requires Inv(cfg, s) && InPhase(s, f, (p: Phase) => p.Returned?)
    ensures var s' := AfterRetire(s, f);
      && (forall l :: l in s'.waiting ==> WaiterOk(s'.flights, s'.waiting[l]))
      && (forall l :: l in s'.served ==> ServedOk(cfg, s'.flights, s'.served[l]))
  {
    hide FlightOk, PairOk, OneRunning, AnswerOf;
  }

  lemma RetireKeeps(cfg: Config, s: State, f: nat)
    requires Inv(cfg, s) && InPhase(s, f, (p: Phase) => p.Returned?)
    ensures Inv(cfg, AfterRetire(s, f))
  {
    hide FlightOk, PairOk, OneRunning, WaiterOk, ServedOk;
    InvFlight(cfg, s, f);
    RetiredFlight(s.ops, s.now, s.flights[f]);
    RetiredPairs(cfg, s, f);
    RetiredRunning(s, f);
    RetiredListeners(cfg, s, f);
  }

  lemma JoinedFlight(s: State, fl: Flight)
    requires FlightOk(s.ops, s.now, fl) && !fl.phase.Retired?
    ensures GoesOn(s, fl, fl.(joined := fl.joined + 1))
  {
    hide At, FreshMeta, Usable, WriteOk;
  }

  lemma EnterKeeps(cfg: Config, s: State, l: nat, req: Request, vk: Key, m: Meta, v: Variant, comp: Bytes)
    requires Inv(cfg, s) && l !in s.waiting && vk != []
    ensures Inv(cfg, AfterEnter(s, l, req, vk, m, v, comp))
  {
    hide Inv, FlightOk, GoesOn, FlightKey;
    var k := FlightKey(req.pk, vk);
    if k in s.running {
      InvRunning(cfg, s, k);
      JoinKeeps(cfg, s, l, s.running[k], req, vk);
    } else {
      var fl := Flight(req.pk, vk, req, m, v, comp, Started, None, false, None, 0);
      StartKeeps(cfg, s, fl);
      var s1 := s.(flights := s.flights + [fl], running := s.running[k := |s.flights|]);
      WaitingMore(cfg, s1, l, Waiter(|s.flights|, req, vk));
    }
  }

  lemma JoinKeeps(cfg: Config, s: State, l: nat, f: nat, req: Request, vk: Key)
    requires Inv(cfg, s) && f < |s.flights| && KeyOfFlight(s.flights[f]) == FlightKey(req.pk, vk) && !s.flights[f].phase.Retired?
    ensures Inv(cfg, With(s, f, s.flights[f].(joined := s.flights[f].joined + 1)).(waiting := s.waiting[l := Waiter(f, req, vk)]))
  {
    hide Inv, FlightOk, GoesOn;
    InvFlight(cfg, s, f);
    JoinedFlight(s, s.flights[f]);
    var fl := s.flights[f].(joined := s.flights[f].joined + 1);
    Replaced(cfg, s, f, fl);
    WaitingMore(cfg, With(s, f, fl), l, Waiter(f, req, vk));
  }

  lemma WaitingMore(cfg: Config, s: State, l: nat, w: Waiter)
    requires Inv(cfg, s) && WaiterOk(s.flights, w)
    ensures Inv(cfg, s.(waiting := s.waiting[l := w]))
  {
    hide FlightOk, AnswerOf, PairOk, KeyOfFlight, ServedOk, WaiterOk;
  }

  ghost predicate IsNew(fl: Flight) {
    && fl.vk != [] && fl.req.pk == fl.pk
    && fl.phase.Started? && fl.check.None? && !fl.asked && fl.wrote.None?
  }

  function Begun(s: State, fl: Flight): State {
    s.(flights := s.flights + [fl], running := s.running[KeyOfFlight(fl) := |s.flights|])
  }

  lemma BegunRunning(s: State, fl: Flight)
    requires OneRunning(s) && KeyOfFlight(fl) !in s.running && !fl.phase.Retired?
    ensures OneRunning(Begun(s, fl))
  {
    hide KeyOfFlight;
  }

  lemma BegunPairs(cfg: Config, s: State, fl: Flight)
    requires Inv(cfg, s) && KeyOfFlight(fl) !in s.running && IsNew(fl)
    ensures var s' := Begun(s, fl); forall a, b :: 0 <= a < b < |s'.flights| ==> PairOk(s'.ops, s'.flights[a], s'.flights[b])
  {
    hide FlightOk, WaiterOk, ServedOk, KeyOfFlight;
    var s' := Begun(s, fl);
    forall a, b | 0 <= a < b < |s'.flights| ensures PairOk(s'.ops, s'.flights[a], s'.flights[b]) {
      if b < |s.flights| { assert PairOk(s.ops, s.flights[a], s.flights[b]); }
    }
  }

  lemma NewOk(ops: seq<Op>, now: Time, fl: Flight)
    requires IsNew(fl)
    ensures FlightOk(ops, now, fl)
  {
  }

  lemma BegunListeners(cfg: Config, s: State, fl: Flight)
    requires Inv(cfg, s)
    ensures var s' := Begun(s, fl);
      && (forall l :: l in s'.waiting ==> WaiterOk(s'.flights, s'.waiting[l]))
      && (forall l :: l in s'.served ==> ServedOk(cfg, s'.flights, s'.served[l]))
  {
    hide FlightOk, PairOk, OneRunning, AnswerOf, KeyOfFlight;
  }

  lemma StartKeeps(cfg: Config, s: State, fl: Flight)
    requires Inv(cfg, s) && KeyOfFlight(fl) !in s.running && IsNew(fl)
    ensures Inv(cfg, Begun(s, fl))
  {
    hide FlightOk, PairOk, OneRunning, WaiterOk, ServedOk, KeyOfFlight;
    BegunRunning(s, fl);
    BegunPairs(cfg, s, fl);
    BegunListeners(cfg, s, fl);
    NewOk(s.ops, s.now, fl);
  }

  lemma LeaveKeeps(cfg: Config, s: State, l: nat, e: Env)
    requires Inv(cfg, s) && l in s.waiting && InPhase(s, s.waiting[l].flight, (p: Phase) => p.Retired?)
    ensures Inv(cfg, AfterLeave(cfg, s, l, e))
  {
    hide FlightOk, AnswerOf, PairOk, KeyOfFlight;
    var s' := AfterLeave(cfg, s, l, e);
    assert WaiterOk(s.flights, s.waiting[l]);
    assert ServedOk(cfg, s.flights, s'.served[l]);
    hide ServedOk, WaiterOk;
  }

  lemma MoveKeeps(cfg: Config, s: State, mv: Move)
    requires Inv(cfg, s)
    ensures Inv(cfg, Next(cfg, s, mv))
  {
    hide Inv, AfterEnter, AfterCheckMeta, AfterCheckVariant, AfterArrive, AfterRetire, AfterLeave;
    if Enabled(s, mv) {
      TimePasses(cfg, s, mv.at);
      var s1 := s.(now := mv.at);
      match mv.what {
        case Other(op) => OpsGrow(cfg, s1, op);
        case Enter(l, req, vk, m, v, comp) => EnterKeeps(cfg, s1, l, req, vk, m, v, comp);
        case CheckMeta(f, fails) => CheckMetaKeeps(cfg, s1, f, fails);
        case CheckVariant(f, fails) => CheckVariantKeeps(cfg, s1, f, fails);
        case Ask(f) => AskKeeps(cfg, s1, f);
        case Arrive(f, e) => ArriveKeeps(cfg, s1, f, e);
        case Retire(f) => RetireKeeps(cfg, s1, f);
        case Leave(l, e) => LeaveKeeps(cfg, s1, l, e);
      }
    }
  }

  lemma {:induction false} RunKeeps(cfg: Config, moves: seq<Move>)
    ensures Inv(cfg, Run(cfg, moves))
    decreases |moves|
  {
    hide Next, FlightOk, PairOk, WaiterOk, ServedOk;
    if moves != [] {
      RunKeeps(cfg, moves[..|moves| - 1]);
      MoveKeeps(cfg, Run(cfg, moves[..|moves| - 1]), moves[|moves| - 1]);
    }
  }

  // ---------- Two contacts ----------

  /** The operation writes, marks or removes the entry of `k`. */
  ghost predicate Touches(st: Store, op: Op, k: Key) {
    match op
    case Write(j, _, _, _, _, _) => j == k
    case PurgeKey(j, _) => j == k
    case PurgeTag(t, _) => k in Tagged(st, t)
    case PurgePattern(p, _) => k in Selected(st, p)
    case Wipe => true
  }

  lemma UntouchedStep(st: Store, op: Op, k: Key)
    requires k in st.meta && k in st.variants && !Touches(st, op, k)
    ensures var st' := Apply(st, op);
      k in st'.meta && st'.meta[k] == st.meta[k] && k in st'.variants && st'.variants[k] == st.variants[k]
  {
    hide AfterPurge, Selected, WithTags;
    match op
    case Write(j, m, v, body, ttl, now) =>
    case PurgeKey(j, soft) => PurgeTouches(st, {j}, soft);
    case PurgeTag(t, soft) => PurgeTouches(st, Tagged(st, t), soft);
    case PurgePattern(p, soft) => PurgeTouches(st, Selected(st, p), soft);
    case Wipe =>
  }

  /** Some operation from the a-th to before the b-th touches `k`. */
  ghost predicate TouchedBetween(ops: seq<Op>, a: nat, b: nat, k: Key)
    requires b <= |ops|
  {
    exists i :: a <= i < b && Touches(At(ops, i), ops[i], k)
  }

  lemma {:induction false} UntouchedStays(ops: seq<Op>, a: nat, b: nat, k: Key)
    requires a <= b <= |ops| && !TouchedBetween(ops, a, b, k) && k in At(ops, a).meta && k in At(ops, a).variants
    ensures k in At(ops, b).meta && At(ops, b).meta[k] == At(ops, a).meta[k]
    ensures k in At(ops, b).variants && At(ops, b).variants[k] == At(ops, a).variants[k]
    decreases b
  {
    hide Apply, Touches, At;
    if a < b {
      UntouchedStays(ops, a, b - 1, k);
      AtStep(ops, b - 1);
      UntouchedStep(At(ops, b - 1), ops[b - 1], k);
    }
  }

  /** A stored answer stays usable until its expiry if nothing touches the key. */
  lemma WrittenUsable(ops: seq<Op>, w: nat, n: nat, pk: Key, vk: Key, at: Time)
    requires w < n <= |ops| && WriteOk(ops[w], pk) && Named(ops[w].variant.key) == vk && vk != []
    requires !TouchedBetween(ops, w + 1, n, pk) && ops[w].now <= at < ops[w].meta.expiresAt
    requires ops[w].variant.rawSize == 0 || ops[w].body != []
    ensures FreshMeta(At(ops, n), pk, at) && Usable(At(ops, n), pk, vk, at)
  {
    AtStep(ops, w);
    Written(At(ops, w), ops[w]);
    hide At, Apply, TouchedBetween;
    UntouchedStays(ops, w + 1, n, pk);
  }

  /** What a write leaves in the store. */
  lemma Written(st: Store, op: Op)
    requires op.Write?
    ensures var st' := Apply(st, op);
      && op.k in st'.meta && st'.meta[op.k].meta == op.meta && !st'.meta[op.k].soft
      && (st'.meta[op.k].expires.Some? && op.ttl > 0 ==> st'.meta[op.k].expires.value >= op.now + op.ttl)
      && op.k in st'.variants && Named(op.variant.key) in st'.variants[op.k]
      && var x := st'.variants[op.k][Named(op.variant.key)];
      x.variant.rawSize == op.variant.rawSize && x.body == op.body && x.expires == Expiry(op.ttl, op.now)
  {
    hide WithTags;
  }

  /** In every interleaving of requests, misses, background refreshes and purges: when two flights for one primary and
      variant key asked the origin, the first had ended before the second began, and the first one's answer was not
      stored, or was stored under another variant key or without bytes, or the key was written or purged after it, or
      the second one's recheck came at or after its expiry, or failed to read. */
  lemma ContactsSeparated(cfg: Config, moves: seq<Move>, f: nat, g: nat)
    requires f < g < |Run(cfg, moves).flights|
    requires var s := Run(cfg, moves); var a, b := s.flights[f], s.flights[g];
      a.asked && b.asked && a.pk == b.pk && a.vk == b.vk
    ensures var s := Run(cfg, moves); var a, b := s.flights[f], s.flights[g];
      && a.phase.Retired? && b.check.Some? && b.check.value.seen <= |s.ops|
      && (a.wrote.Some? ==> a.wrote.value < b.check.value.seen && s.ops[a.wrote.value].Write?)
      && (|| a.wrote.None?
          || Named(s.ops[a.wrote.value].variant.key) != a.vk
          || (s.ops[a.wrote.value].variant.rawSize > 0 && s.ops[a.wrote.value].body == [])
          || TouchedBetween(s.ops, a.wrote.value + 1, b.check.value.seen, a.pk)
          || b.check.value.at >= s.ops[a.wrote.value].meta.expiresAt
          || b.check.value.failed)
  {
    hide Run, Inv, At, FreshMeta, Usable, TouchedBetween, WriteOk;
    RunKeeps(cfg, moves);
    var s := Run(cfg, moves);
    PairOf(cfg, s, f, g);
    InvFlight(cfg, s, f);
    InvFlight(cfg, s, g);
    var a, b := s.flights[f], s.flights[g];
    if a.wrote.Some? {
      WroteInRange(s.ops, s.now, a);
      Recheck(s.ops, s.now, a, b);
    }
  }

  /** A recheck after a stored answer finds it, unless something came between. */
  lemma Recheck(ops: seq<Op>, now: Time, a: Flight, b: Flight)
    requires FlightOk(ops, now, a) && FlightOk(ops, now, b) && a.pk == b.pk && a.vk == b.vk
    requires a.wrote.Some? && b.check.Some? && a.wrote.value < b.check.value.seen && ops[a.wrote.value].now <= b.check.value.at
    ensures var op, c := ops[a.wrote.value], b.check.value;
      || Named(op.variant.key) != a.vk
      || (op.variant.rawSize > 0 && op.body == [])
      || TouchedBetween(ops, a.wrote.value + 1, c.seen, a.pk)
      || c.at >= op.meta.expiresAt
      || c.failed
  {
    hide At, FreshMeta, Usable, TouchedBetween;
    var w, c := a.wrote.value, b.check.value;
    if Named(ops[w].variant.key) == a.vk && (ops[w].variant.rawSize == 0 || ops[w].body != [])
       && !TouchedBetween(ops, w + 1, c.seen, a.pk) && c.at < ops[w].meta.expiresAt {
      WrittenUsable(ops, w, c.seen, a.pk, a.vk, c.at);
    }
  }

  lemma PairOf(cfg: Config, s: State, f: nat, g: nat)
    requires Inv(cfg, s) && f < g < |s.flights|
    ensures PairOk(s.ops, s.flights[f], s.flights[g])
  {
    hide FlightOk, PairOk, OneRunning, WaiterOk, ServedOk;
  }

  /** At any time at most one flight of a key is under way. */
  lemma OneFlightAtATime(cfg: Config, moves: seq<Move>, f: nat, g: nat)
    requires var s := Run(cfg, moves);
      && f < |s.flights| && g < |s.flights| && KeyOfFlight(s.flights[f]) == KeyOfFlight(s.flights[g])
      && !s.flights[f].phase.Retired? && !s.flights[g].phase.Retired?
    ensures f == g
  {
    RunKeeps(cfg, moves);
    var s := Run(cfg, moves);
    hide Run, KeyOfFlight;
    if f < g { PairOf(cfg, s, f, g); }
    if g < f { PairOf(cfg, s, g, f); }
  }

  // ---------- What waiting requests receive ----------

  /** In every interleaving, a request that was served got the answer its own headers give to the result of a flight
      with its flight key, and the same result as every other request of that flight. */
  lemma WaitersShareResult(cfg: Config, moves: seq<Move>, l: nat)
    requires l in Run(cfg, moves).served
    ensures var s := Run(cfg, moves); var sv := s.served[l];
      && sv.flight < |s.flights| && s.flights[sv.flight].phase.Retired?
      && FlightKey(sv.req.pk, sv.vk) == KeyOfFlight(s.flights[sv.flight])
      && sv.shared == (s.flights[sv.flight].joined > 0)
      && sv.answer == AnswerOf(cfg, sv.req, sv.vk, s.flights[sv.flight].phase.result, sv.shared, sv.e)
  {
    RunKeeps(cfg, moves);
    hide Run, FlightOk, PairOk, OneRunning, WaiterOk, AnswerOf;
    assert ServedOk(cfg, Run(cfg, moves).flights, Run(cfg, moves).served[l]);
  }

  /** In every interleaving, a request that was handed a full response is told its cookies exactly when the response
      holds ESI tags or nobody else waited for it. */
  lemma SharedCookies(cfg: Config, moves: seq<Move>, l: nat)
    requires l in Run(cfg, moves).served
    ensures var s := Run(cfg, moves); var sv := s.served[l];
      && sv.flight < |s.flights| && s.flights[sv.flight].phase.Retired?
      && var fl := s.flights[sv.flight];
      fl.phase.result.Fetch? ==>
        var full := fl.phase.result.full;
        && sv.answer.FromOrigin?
        && (SET_COOKIE in sv.answer.headers <==> SET_COOKIE in full.headers && (full.fragments != [] || fl.joined == 0))
  {
    hide Run;
    WaitersShareResult(cfg, moves, l);
  }

  // ---------- Soft purge ----------

  /** After a soft purge of a key, and until it is written again, no request is answered from the cache alone, however
      purges and writes of other keys interleave with the lookups. */
  lemma SoftPurgeSticks(cfg: Config, ops: seq<Op>, i: nat, w: World, req: Request, e: Env)
    requires i < |ops| && MarkedSince(ops, i, |ops|, req.pk) && w.store == ApplyAll(EMPTY, ops)
    ensures !CacheLaws.UsedWithoutAsking(Serve(cfg, w, req, e).answer)
  {
    hide Serve, ApplyAll, CacheLaws.UsedWithoutAsking, MarkedSince, At;
    AtEnd(ops);
    if req.pk in w.store.meta { MarkedExactly(ops, |ops|, req.pk); }
    CacheLaws.KindsJudged(cfg, w, req, e);
  }
}
