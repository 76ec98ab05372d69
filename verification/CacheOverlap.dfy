/** Where stored bodies come from when revalidations overlap with other writes. */
module CacheOverlap {
  import opened KeyBytes
  import opened StoreState
  import opened Freshness
  import opened Handler
  import opened TestStore
  import opened CacheFlights
  import CacheContacts

  // ---------- The operation behind a stored body ----------

  ghost predicate WritesBody(op: Op, pk: Key, vk: Key, body: Bytes) {
    op.Write? && op.k == pk && Named(op.variant.key) == vk && op.body == body
  }

  lemma PurgeShrinks(st: Store, ks: set<Key>, soft: bool)
    ensures var st' := AfterPurge(st, ks, soft); forall k :: k in st'.variants ==> k in st.variants && st'.variants[k] == st.variants[k]
  {
    hide Pruned;
  }

  /** An operation adds no entry but the one it writes. */
  lemma StepAddsOwn(st: Store, op: Op, pk: Key, vk: Key)
    requires var st' := Apply(st, op); pk in st'.variants && vk in st'.variants[pk]
    ensures var body := Apply(st, op).variants[pk][vk].body;
      WritesBody(op, pk, vk, body) || (pk in st.variants && vk in st.variants[pk] && st.variants[pk][vk].body == body)
  {
    hide AfterPurge, Selected, WithTags;
    match op
    case Write(j, m, v, body, ttl, now) =>
    case PurgeKey(j, soft) => PurgeShrinks(st, {j}, soft);
    case PurgeTag(t, soft) => PurgeShrinks(st, Tagged(st, t), soft);
    case PurgePattern(p, soft) => PurgeShrinks(st, Selected(st, p), soft);
    case Wipe =>
  }

  lemma {:induction false} BodyWritten(ops: seq<Op>, pk: Key, vk: Key)
    requires var st := ApplyAll(EMPTY, ops); pk in st.variants && vk in st.variants[pk]
    ensures exists op :: op in ops && WritesBody(op, pk, vk, ApplyAll(EMPTY, ops).variants[pk][vk].body)
    decreases |ops|
  {
    hide Apply, WritesBody;
    if ops != [] {
      StepAddsOwn(ApplyAll(EMPTY, ops[..|ops| - 1]), ops[|ops| - 1], pk, vk);
      if !WritesBody(ops[|ops| - 1], pk, vk, ApplyAll(EMPTY, ops).variants[pk][vk].body) { BodyWritten(ops[..|ops| - 1], pk, vk); }
    }
  }

  // ---------- The move behind an operation ----------

  /** The flight a request starts when it enters revalidation. */
  function Started(entry: What): Flight
    requires entry.Enter?
  {
    Flight(entry.req.pk, entry.vk, entry.req, entry.meta, entry.variant, entry.comp, Phase.Started, None, false, None, 0)
  }

  ghost predicate SameFlight(a: Flight, b: Flight) {
    a.pk == b.pk && a.vk == b.vk && a.req == b.req && a.meta == b.meta && a.variant == b.variant && a.comp == b.comp
  }

  ghost predicate Began(moves: seq<Move>, fl: Flight) {
    exists m :: m in moves && m.what.Enter? && SameFlight(fl, Started(m.what))
  }

  /** Another use of the store, or the landing of a flight that some request started. */
  ghost predicate Sourced(cfg: Config, moves: seq<Move>, op: Op) {
    || (exists m :: m in moves && m.what == Other(op))
    || (exists m, a :: m in moves && a in moves && m.what.Enter? && a.what.Arrive? && LandingOp(cfg, Started(m.what), a.what.e) == Some(op))
  }

  ghost predicate AllSourced(cfg: Config, moves: seq<Move>, s: State) {
    (forall op :: op in s.ops ==> Sourced(cfg, moves, op)) && (forall i :: 0 <= i < |s.flights| ==> Began(moves, s.flights[i]))
  }

  lemma LandingSame(cfg: Config, a: Flight, b: Flight, e: Env)
    requires SameFlight(a, b)
    ensures LandingOp(cfg, a, e) == LandingOp(cfg, b, e)
  {
    hide Prepare, MayStore, SaveKey, VariantFor, Packed, RefreshFields, RefreshedVariant, VaryNames, Ttl, MetaFor, MetaRefreshed, StorageTtl;
  }

  lemma LaterSourced(cfg: Config, moves: seq<Move>, mv: Move, s: State)
    requires AllSourced(cfg, moves, s)
    ensures AllSourced(cfg, moves + [mv], s)
  {
    hide SameFlight, LandingOp;
    forall op | op in s.ops ensures Sourced(cfg, moves + [mv], op) {
      assert Sourced(cfg, moves, op);
    }
    forall i | 0 <= i < |s.flights| ensures Began(moves + [mv], s.flights[i]) {
      assert Began(moves, s.flights[i]);
    }
  }

  /** The same flights, whatever phase they are in. */
  ghost predicate Continues(s: State, s': State) {
    |s'.flights| == |s.flights| && forall i :: 0 <= i < |s.flights| ==> SameFlight(s'.flights[i], s.flights[i])
  }

  ghost predicate AddsOp(cfg: Config, s: State, what: What, s': State) {
    || s'.ops == s.ops
    || (what.Other? && s'.ops == s.ops + [what.op])
    || (what.Arrive? && what.f < |s.flights|
        && var op := LandingOp(cfg, s.flights[what.f], what.e); op.Some? && s'.ops == s.ops + [op.value])
  }

  ghost predicate AddsFlight(s: State, what: What, s': State) {
    || Continues(s, s')
    || (what.Enter? && |s'.flights| == |s.flights| + 1 && s'.flights[..|s.flights|] == s.flights
        && s'.flights[|s.flights|] == Started(what))
  }

  lemma WithContinues(s: State, f: nat, fl: Flight)
    requires f < |s.flights| && SameFlight(fl, s.flights[f])
    ensures Continues(s, With(s, f, fl)) && With(s, f, fl).ops == s.ops
  {
  }

  lemma ChecksContinue(s: State, f: nat, at: Time, fails: bool)
    requires f < |s.flights|
    ensures var s' := AfterCheckMeta(s, f, at, fails); Continues(s, s') && s'.ops == s.ops
    ensures s.flights[f].phase.Looking? ==> var s' := AfterCheckVariant(s, f, at, fails); Continues(s, s') && s'.ops == s.ops
  {
    hide StoreOf, FreshMeta, Fetched;
  }

  lemma ArriveContinues(cfg: Config, s: State, f: nat, e: Env)
    requires f < |s.flights|
    ensures var s' := AfterArrive(cfg, s, f, e); Continues(s, s') && AddsOp(cfg, s, Arrive(f, e), s')
  {
    hide LandingOp, ResultOf;
  }

  lemma EnterContinues(s: State, l: nat, req: Request, vk: Key, m: Meta, v: Variant, comp: Bytes)
    ensures var s' := AfterEnter(s, l, req, vk, m, v, comp); s'.ops == s.ops && AddsFlight(s, Enter(l, req, vk, m, v, comp), s')
  {
    hide FlightKey;
  }

  lemma RetireContinues(s: State, f: nat)
    requires InPhase(s, f, (p: Phase) => p.Returned?)
    ensures var s' := AfterRetire(s, f); Continues(s, s') && s'.ops == s.ops
  {
    hide FlightKey;
  }

  lemma LeaveContinues(cfg: Config, s: State, l: nat, e: Env)
    requires l in s.waiting && InPhase(s, s.waiting[l].flight, (p: Phase) => p.Retired?)
    ensures var s' := AfterLeave(cfg, s, l, e); Continues(s, s') && s'.ops == s.ops
  {
    hide AnswerOf;
  }

  /** A move adds at most one operation, and at most the flight its own request starts. */
  lemma NextAdds(cfg: Config, s: State, mv: Move)
    ensures var s' := Next(cfg, s, mv); AddsOp(cfg, s, mv.what, s') && AddsFlight(s, mv.what, s')
  {
    hide LandingOp, AfterEnter, AfterCheckMeta, AfterCheckVariant, AfterArrive, AfterRetire, AfterLeave, With, SameFlight;
    WithItself(s);
    if Enabled(s, mv) {
      var s1 := s.(now := mv.at);
      match mv.what {
        case Other(op) =>
        case Enter(l, req, vk, m, v, comp) => EnterContinues(s1, l, req, vk, m, v, comp);
        case CheckMeta(f, fails) => ChecksContinue(s1, f, mv.at, fails);
        case CheckVariant(f, fails) => ChecksContinue(s1, f, mv.at, fails);
        case Ask(f) =>
          var fl := s.flights[f].(phase := Asked, asked := true);
          assert SameFlight(fl, s.flights[f]) by { Rephased(s.flights[f]); }
          WithContinues(s1, f, fl);
        case Arrive(f, e) => ArriveContinues(cfg, s1, f, e);
        case Retire(f) => RetireContinues(s1, f);
        case Leave(l, e) => LeaveContinues(cfg, s1, l, e);
      }
    }
  }

  lemma Rephased(fl: Flight)
    ensures SameFlight(fl.(phase := Asked, asked := true), fl)
  {
  }

  lemma WithItself(s: State)
    ensures Continues(s, s)
  {
  }

  lemma NextSourced(cfg: Config, moves: seq<Move>, mv: Move, s: State)
    requires AllSourced(cfg, moves, s)
    ensures AllSourced(cfg, moves + [mv], Next(cfg, s, mv))
  {
    hide Next, LandingOp;
    var s' := Next(cfg, s, mv);
    NextAdds(cfg, s, mv);
    LaterSourced(cfg, moves, mv, s);
    assert mv in moves + [mv];
    forall op | op in s'.ops ensures Sourced(cfg, moves + [mv], op) {
      if op !in s.ops && mv.what.Arrive? {
        var fl := s.flights[mv.what.f];
        assert Began(moves, fl);
        var m :| m in moves && m.what.Enter? && SameFlight(fl, Started(m.what));
        LandingSame(cfg, fl, Started(m.what), mv.what.e);
        assert m in moves + [mv];
      }
    }
    forall i | 0 <= i < |s'.flights| ensures Began(moves + [mv], s'.flights[i]) {
      if i < |s.flights| {
        assert Began(moves + [mv], s.flights[i]) && SameFlight(s'.flights[i], s.flights[i]);
      } else {
        assert SameFlight(s'.flights[i], Started(mv.what));
      }
    }
  }

  lemma {:induction false} RunSourced(cfg: Config, moves: seq<Move>)
    ensures AllSourced(cfg, moves, Run(cfg, moves))
    decreases |moves|
  {
    hide Next, Sourced, Began;
    if moves != [] {
      var init, last := moves[..|moves| - 1], moves[|moves| - 1];
      RunSourced(cfg, init);
      NextSourced(cfg, init, last, Run(cfg, init));
      assert moves == init + [last];
    }
  }

  // ---------- Where stored bodies come from ----------

  /** A confirmation wrote back the copy a request had entered with. */
  ghost predicate CopyBack(entry: What, e: Env, pk: Key, vk: Key, body: Bytes) {
    && entry.Enter? && entry.req.pk == pk && Named(entry.variant.key) == vk && entry.comp == body != []
    && e.reply.Reply? && e.reply.status == 304
  }

  /** A full response to the request that started the flight was stored. */
  ghost predicate FullSaved(cfg: Config, entry: What, e: Env, pk: Key, vk: Key, body: Bytes) {
    && entry.Enter? && entry.req.pk == pk && e.reply.Reply?
    && var p := Prepare(cfg, e.reply.status, e.reply.headers, e.reply.body);
    && p.Ready? && MayStore(cfg, entry.req, p.full, e)
    && vk == SaveKey(entry.req, entry.vk, p.full.headers) && body == Packed(cfg, p.full.headers, e.reply.body).1
  }

  lemma LandingBody(cfg: Config, entry: What, e: Env, op: Op, pk: Key, vk: Key, body: Bytes)
    requires entry.Enter? && LandingOp(cfg, Started(entry), e) == Some(op) && WritesBody(op, pk, vk, body)
    ensures CopyBack(entry, e, pk, vk, body) || FullSaved(cfg, entry, e, pk, vk, body)
  {
    hide MayStore, Packed, RefreshFields, VaryNames, Ttl, MetaFor, MetaRefreshed, StorageTtl, MergedHeaders, StoredHeaders;
    SavedNamed(entry.req, entry.vk);
  }

  lemma SavedNamed(req: Request, vk: Key)
    ensures forall h :: Named(SaveKey(req, vk, h)) == SaveKey(req, vk, h)
  {
    hide VaryNames;
  }

  /** In every interleaving, a stored body was written by another use of the store, or is the packed body of a full
      response to a revalidation of the same primary key, or is the copy that a request for it had entered revalidation
      with. */
  lemma StoredBodySource(cfg: Config, moves: seq<Move>, pk: Key, vk: Key)
    requires var st := StoreOf(Run(cfg, moves)); pk in st.variants && vk in st.variants[pk]
    ensures var body := StoreOf(Run(cfg, moves)).variants[pk][vk].body;
      || (exists m :: m in moves && m.what.Other? && WritesBody(m.what.op, pk, vk, body))
      || (exists m, a :: m in moves && a in moves && a.what.Arrive?
            && (CopyBack(m.what, a.what.e, pk, vk, body) || FullSaved(cfg, m.what, a.what.e, pk, vk, body)))
  {
    hide Run, LandingOp, FullSaved, CopyBack, WritesBody, ApplyAll, AllSourced;
    var s := Run(cfg, moves);
    var body := StoreOf(s).variants[pk][vk].body;
    BodyWritten(s.ops, pk, vk);
    var op :| op in s.ops && WritesBody(op, pk, vk, body);
    RunSourced(cfg, moves);
    OpSourced(cfg, moves, s, op);
    if !exists m :: m in moves && m.what == Other(op) {
      var m, a :| m in moves && a in moves && m.what.Enter? && a.what.Arrive? && LandingOp(cfg, Started(m.what), a.what.e) == Some(op);
      LandingBody(cfg, m.what, a.what.e, op, pk, vk, body);
    }
  }

  lemma OpSourced(cfg: Config, moves: seq<Move>, s: State, op: Op)
    requires AllSourced(cfg, moves, s) && op in s.ops
    ensures Sourced(cfg, moves, op)
  {
    hide Sourced, Began;
  }

  // ---------- An older body written back ----------

  /** A stored response expires, a request enters revalidation with a copy of it and asks the origin; before the reply, a
      newer response is stored; the reply confirms the copy. */
  function Overtaken(earlier: Op, newer: Op, t: Time, req: Request, e: Env): seq<Move>
    requires earlier.Write?
  {
    [Move(0, Other(earlier)), Move(t, Enter(0, req, Named(earlier.variant.key), earlier.meta, earlier.variant, earlier.body)),
     Move(t, CheckMeta(0, false)), Move(t, Ask(0)), Move(t, Other(newer)), Move(t, Arrive(0, e))]
  }

  /** Up to the request's entering. */
  lemma OvertakenEntered(cfg: Config, earlier: Op, newer: Op, t: Time, req: Request, e: Env)
    requires earlier.Write? && t >= 0
    ensures var s := Run(cfg, Overtaken(earlier, newer, t, req, e)[..2]);
      && s.ops == [earlier] && s.now == t
      && s.flights == [Started(Enter(0, req, Named(earlier.variant.key), earlier.meta, earlier.variant, earlier.body))]
  {
    hide Run, FlightKey, AfterCheckMeta, AfterCheckVariant, AfterArrive, AfterRetire, AfterLeave;
    var moves := Overtaken(earlier, newer, t, req, e);
    EmptyRun(cfg);
    assert moves[..0] == [];
    RunOn(cfg, moves, 0);
    RunOn(cfg, moves, 1);
  }

  /** Up to the newer write. */
  lemma OvertakenSoFar(cfg: Config, earlier: Op, newer: Op, t: Time, req: Request, e: Env)
    requires earlier.Write? && earlier.k == req.pk && t >= 0 && earlier.meta.expiresAt <= t
    ensures var s := Run(cfg, Overtaken(earlier, newer, t, req, e)[..5]);
      && s.ops == [earlier, newer] && s.now == t && |s.flights| == 1 && s.flights[0].phase.Asked?
      && SameFlight(s.flights[0], Started(Enter(0, req, Named(earlier.variant.key), earlier.meta, earlier.variant, earlier.body)))
  {
    hide Run, Apply, FlightKey, AfterEnter, AfterCheckVariant, AfterArrive, AfterRetire, AfterLeave, EMPTY;
    var moves := Overtaken(earlier, newer, t, req, e);
    OvertakenEntered(cfg, earlier, newer, t, req, e);
    OneOp(earlier);
    CacheContacts.Written(EMPTY, earlier);
    RunOn(cfg, moves, 2);
    RunOn(cfg, moves, 3);
    RunOn(cfg, moves, 4);
  }

  lemma EmptyRun(cfg: Config)
    ensures Run(cfg, []) == START
  {
  }

  lemma OneOp(op: Op)
    ensures ApplyAll(EMPTY, [op]) == Apply(EMPTY, op)
  {
    hide Apply;
    assert [op][..0] == [];
  }

  lemma LastOp(ops: seq<Op>, op: Op)
    ensures ApplyAll(EMPTY, ops + [op]) == Apply(ApplyAll(EMPTY, ops), op)
  {
    hide Apply;
    assert (ops + [op])[..|ops|] == ops;
  }

  /** The older body replaces the newer one, and the entry counts as fresh again. */
  lemma OlderBodyWrittenBack(cfg: Config, earlier: Op, newer: Op, t: Time, req: Request, h: Headers, e: Env)
    requires earlier.Write? && newer.Write? && earlier.k == newer.k == req.pk && Named(earlier.variant.key) == Named(newer.variant.key)
    requires t >= 0 && earlier.meta.expiresAt <= t && earlier.body != []
    requires e.answered <= e.wrote == t && e.reply == Reply(304, h, []) && !cfg.closed && !e.saveFails
    requires Ttl(cfg.parse(RefreshFields(cfg, earlier.variant, h)), e.asked, e.answered) > 0
    ensures var moves, vk := Overtaken(earlier, newer, t, req, e), Named(earlier.variant.key);
      var before, after := StoreOf(Run(cfg, moves[..5])), StoreOf(Run(cfg, moves));
      && req.pk in before.variants && vk in before.variants[req.pk] && before.variants[req.pk][vk].body == newer.body
      && req.pk in after.variants && vk in after.variants[req.pk] && after.variants[req.pk][vk].body == earlier.body
      && req.pk in after.meta && !after.meta[req.pk].soft
      && after.meta[req.pk].meta.expiresAt == e.answered + Ttl(cfg.parse(RefreshFields(cfg, earlier.variant, h)), e.asked, e.answered)
  {
    hide Run, Apply, ApplyAll, ResultOf, Ttl, RefreshFields, MergedHeaders, SwrWindow, SieWindow, Prepare;
    var moves := Overtaken(earlier, newer, t, req, e);
    OvertakenSoFar(cfg, earlier, newer, t, req, e);
    assert [earlier] + [newer] == [earlier, newer];
    LastOp([earlier], newer);
    CacheContacts.Written(ApplyAll(EMPTY, [earlier]), newer);
    var s := Run(cfg, moves[..5]);
    RunOn(cfg, moves, 5);
    assert moves[..6] == moves;
    var op := LandingOp(cfg, s.flights[0], e).value;
    LastOp(s.ops, op);
    CacheContacts.Written(ApplyAll(EMPTY, s.ops), op);
  }
}
