/** When flights tell keys apart: a flight goes by its primary and variant key, joined with a colon. */
module FlightKeys {
  import opened KeyBytes
  import opened StoreState
  import opened Handler
  import opened CacheFlights
  import CacheContacts
  import PrimaryKey
  import QueryString
  import UrlEscape
  import VariantKey
  import VariantBars

  // ---------- Exactly when ----------

  /** The second primary key goes on where the first ends, and the first variant key spells out how. */
  ghost predicate RunsOver(pk: Key, vk: Key, pk': Key, vk': Key) {
    exists x: Bytes :: pk' == pk + [':'] + x && vk == x + [':'] + vk'
  }

  lemma LongerRunsOver(pk: Key, vk: Key, pk': Key, vk': Key)
    requires FlightKey(pk, vk) == FlightKey(pk', vk') && |pk| < |pk'|
    ensures RunsOver(pk, vk, pk', vk')
  {
    var k, x := FlightKey(pk, vk), pk'[|pk| + 1..];
    assert k[..|pk'|] == pk' && k[..|pk| + 1] == pk + [':'];
    assert pk' == pk + [':'] + x;
    assert vk == k[|pk| + 1..] && k[|pk| + 1..] == x + [':'] + vk';
  }

  lemma RunningOver(pk: Key, vk: Key, pk': Key, vk': Key)
    requires RunsOver(pk, vk, pk', vk')
    ensures FlightKey(pk, vk) == FlightKey(pk', vk')
  {
    var x: Bytes :| pk' == pk + [':'] + x && vk == x + [':'] + vk';
    assert pk + [':'] + (x + [':'] + vk') == (pk + [':'] + x) + [':'] + vk';
  }

  /** Two pairs of keys share a flight exactly when they are equal or one runs over the other. */
  lemma FlightKeysEqualExactly(pk: Key, vk: Key, pk': Key, vk': Key)
    ensures FlightKey(pk, vk) == FlightKey(pk', vk') <==>
      (pk == pk' && vk == vk') || RunsOver(pk, vk, pk', vk') || RunsOver(pk', vk', pk, vk)
  {
    hide RunsOver;
    if FlightKey(pk, vk) == FlightKey(pk', vk') {
      if |pk| < |pk'| {
        LongerRunsOver(pk, vk, pk', vk');
      } else if |pk'| < |pk| {
        LongerRunsOver(pk', vk', pk, vk);
      } else {
        var k := FlightKey(pk, vk);
        assert pk == k[..|pk|] && pk' == k[..|pk'|] && vk == k[|pk| + 1..] && vk' == k[|pk'| + 1..];
      }
    }
    if RunsOver(pk, vk, pk', vk') { RunningOver(pk, vk, pk', vk'); }
    if RunsOver(pk', vk', pk, vk) { RunningOver(pk', vk', pk, vk); }
  }

  // ---------- Keys that are told apart ----------

  /** The key ends in a colon and holds no two in a row. */
  ghost predicate SingleColons(k: Bytes) {
    k != [] && k[|k| - 1] == ':' && forall i :: 0 <= i < |k| - 1 ==> k[i] != ':' || k[i + 1] != ':'
  }

  lemma NotOver(pk: Key, vk: Key, pk': Key, vk': Key)
    requires SingleColons(pk) && SingleColons(pk')
    ensures !RunsOver(pk, vk, pk', vk')
  {
    forall x: Bytes ensures pk' != pk + [':'] + x {
      var k := pk + [':'] + x;
      assert k[|pk| - 1] == ':' && k[|pk| - 1 + 1] == ':';
    }
  }

  /** Flight keys tell such primary keys apart. */
  lemma FlightKeyDecodes(pk: Key, vk: Key, pk': Key, vk': Key)
    requires SingleColons(pk) && SingleColons(pk') && FlightKey(pk, vk) == FlightKey(pk', vk')
    ensures pk == pk' && vk == vk'
  {
    hide SingleColons, RunsOver;
    FlightKeysEqualExactly(pk, vk, pk', vk');
    NotOver(pk, vk, pk', vk');
    NotOver(pk', vk', pk, vk);
  }

  lemma {:induction false} ClosedSingle(segs: seq<Bytes>)
    requires segs != [] && forall i :: 0 <= i < |segs| ==> segs[i] != [] && Free(segs[i], ':')
    ensures SingleColons(PrimaryKey.Closed(segs)) && PrimaryKey.Closed(segs)[0] != ':'
  {
    var c, rest := segs[0], segs[1..];
    assert segs == [c] + rest;
    PrimaryKey.ClosedCons(c, rest);
    if rest == [] {
      PrimaryKey.ClosedNothing();
    } else {
      ClosedSingle(rest);
      hide PrimaryKey.Closed;
      var k, t := PrimaryKey.Closed(segs), PrimaryKey.Closed(rest);
      forall i | 0 <= i < |k| - 1 ensures k[i] != ':' || k[i + 1] != ':' {
        if i < |c| {
          assert k[i] == c[i];
        } else if i == |c| {
          assert k[i + 1] == t[0];
        } else {
          assert k[i] == t[i - |c| - 1] && k[i + 1] == t[i - |c|];
        }
      }
    }
  }

  /** Primary keys of colon-free paths and hosts are of that kind. */
  lemma KeySingleColons(r: PrimaryKey.Request, cfg: QueryString.CacheKey)
    requires PrimaryKey.PlainNames(cfg) && PrimaryKey.KeyMethod(r) == "GET"
    requires Free(PrimaryKey.KeyPath(r.path, cfg), ':') && Free(PrimaryKey.KeyHost(r, cfg), ':')
    ensures SingleColons(PrimaryKey.KeyOf(r, cfg))
  {
    hide PrimaryKey.KeyPath, PrimaryKey.KeyHost, PrimaryKey.TailSegments, PrimaryKey.Closed, PrimaryKey.StartsHost, PrimaryKey.PlainNames, SingleColons;
    var segs := PrimaryKey.KeySegments(r, cfg);
    PathSegmentFree(r, cfg);
    TailSegmentsFree(r, cfg);
    forall i | 0 <= i < |segs| ensures segs[i] != [] && Free(segs[i], ':') {
      var t := PrimaryKey.TailSegments(r, cfg);
      var host := PrimaryKey.KeyHost(r, cfg);
      if host == [] {
        assert segs == [PrimaryKey.PathSegment(r, cfg)] + t;
      } else {
        assert segs == [PrimaryKey.PathSegment(r, cfg)] + ([PrimaryKey.HostSegment(r, cfg)] + t);
      }
    }
    ClosedSingle(segs);
  }

  lemma PathSegmentFree(r: PrimaryKey.Request, cfg: QueryString.CacheKey)
    requires Free(PrimaryKey.KeyPath(r.path, cfg), ':')
    ensures PrimaryKey.PathSegment(r, cfg) != [] && Free(PrimaryKey.PathSegment(r, cfg), ':')
  {
    hide PrimaryKey.KeyPath;
    UrlEscape.EscFreeOf(UrlEscape.Path, PrimaryKey.KeyPath(r.path, cfg), ':');
  }

  lemma TailSegmentsFree(r: PrimaryKey.Request, cfg: QueryString.CacheKey)
    requires PrimaryKey.PlainNames(cfg) && PrimaryKey.KeyMethod(r) == "GET"
    ensures var t := PrimaryKey.TailSegments(r, cfg); forall i :: 0 <= i < |t| ==> t[i] != [] && Free(t[i], ':')
  {
    hide PrimaryKey.TailSegments, PrimaryKey.IsHeaderSegment, PrimaryKey.IsCookieSegment, PrimaryKey.StartsHost, PrimaryKey.PlainNames,
      PrimaryKey.QuerySegment, PrimaryKey.MethodSegment, PrimaryKey.SchemeSegment;
    PrimaryKey.TailAllOk(r, cfg);
    var t := PrimaryKey.TailSegments(r, cfg);
    forall i | 0 <= i < |t| ensures t[i] != [] {
      PrimaryKey.TailMembers(r, cfg, t[i]);
      PrimaryKey.KindsDiffer(r, cfg, t[i]);
    }
  }

  /** So a request whose primary key, like the flight's, holds no two colons in a row gets a result for its own keys. */
  lemma WaitersOwnKeys(cfg: Config, moves: seq<Move>, l: nat)
    requires l in Run(cfg, moves).served
    requires var s := Run(cfg, moves);
      SingleColons(s.served[l].req.pk) && (forall f :: 0 <= f < |s.flights| ==> SingleColons(s.flights[f].pk))
    ensures var s := Run(cfg, moves); var sv := s.served[l];
      sv.flight < |s.flights| && s.flights[sv.flight].pk == sv.req.pk && s.flights[sv.flight].vk == sv.vk
  {
    CacheContacts.WaitersShareResult(cfg, moves, l);
    var s := Run(cfg, moves);
    hide Run, AnswerOf, SingleColons;
    var fl := s.flights[s.served[l].flight];
    FlightKeyDecodes(s.served[l].req.pk, s.served[l].vk, fl.pk, fl.vk);
  }

  // ---------- Keys that are not ----------

  /** A primary key after its path. */
  function Rest(r: PrimaryKey.Request, cfg: QueryString.CacheKey): Bytes {
    PrimaryKey.Closed(PrimaryKey.Optional(PrimaryKey.KeyHost(r, cfg) != [], PrimaryKey.HostSegment(r, cfg)) + PrimaryKey.TailSegments(r, cfg))
  }

  ghost predicate Kept(s: Bytes) { forall i :: 0 <= i < |s| ==> UrlEscape.Keeps(UrlEscape.Path, s[i]) }

  lemma KeyFromPath(r: PrimaryKey.Request, cfg: QueryString.CacheKey)
    ensures PrimaryKey.KeyOf(r, cfg) == PrimaryKey.PathSegment(r, cfg) + [':'] + Rest(r, cfg)
  {
    hide PrimaryKey.Closed, PrimaryKey.PathSegment, PrimaryKey.HostSegment, PrimaryKey.TailSegments, PrimaryKey.KeyHost;
    PrimaryKey.ClosedCons(PrimaryKey.PathSegment(r, cfg),
      PrimaryKey.Optional(PrimaryKey.KeyHost(r, cfg) != [], PrimaryKey.HostSegment(r, cfg)) + PrimaryKey.TailSegments(r, cfg));
  }

  /** A path that spells out how another key goes on. */
  ghost predicate Spells(r1: PrimaryKey.Request, r2: PrimaryKey.Request, cfg: QueryString.CacheKey) {
    && PrimaryKey.Rooted(PrimaryKey.KeyPath(r1.path, cfg)) && Kept(Rest(r1, cfg))
    && PrimaryKey.KeyPath(r2.path, cfg) == PrimaryKey.KeyPath(r1.path, cfg) + [':'] + Rest(r1, cfg)
  }

  /** Its key starts with the other one and a colon. */
  lemma SpelledKey(r1: PrimaryKey.Request, r2: PrimaryKey.Request, cfg: QueryString.CacheKey)
    requires Spells(r1, r2, cfg)
    ensures PrimaryKey.KeyOf(r2, cfg) == PrimaryKey.KeyOf(r1, cfg) + [':'] + Rest(r2, cfg)
  {
    hide Rest, PrimaryKey.KeyOf, PrimaryKey.KeyPath, UrlEscape.Esc;
    KeyFromPath(r1, cfg);
    KeyFromPath(r2, cfg);
    var p, t := PrimaryKey.KeyPath(r1.path, cfg), [':'] + Rest(r1, cfg);
    assert p + t == p + [':'] + Rest(r1, cfg);
    UrlEscape.EscConcat(UrlEscape.Path, p, t);
    PrimaryKey.KeptEscapes(t);
    Regrouped(PrimaryKey.PATH_LABEL, UrlEscape.Esc(UrlEscape.Path, p), Rest(r1, cfg), Rest(r2, cfg));
  }

  lemma Regrouped(l: Bytes, e: Bytes, a: Bytes, b: Bytes)
    ensures (l + (e + ([':'] + a))) + [':'] + b == (l + e + [':'] + a) + [':'] + b
  {
    assert l + (e + ([':'] + a)) == l + e + [':'] + a;
  }

  const LOWER_H: Bytes := "h"
  const NAME_H: Bytes := "H"

  lemma KeyOfH(f: VariantKey.Fields, v: Bytes)
    requires LOWER_H in f && f[LOWER_H] == [v] && TrimSpace(v) == v
    ensures VariantKey.Key([NAME_H], f) == PrimaryKey.HOST_LABEL + v
  {
    hide TrimSpace, VariantKey.Normal, VariantKey.Key;
    NameH();
    VariantBars.OneName(NAME_H, f);
    VariantKey.SingleNormal(LOWER_H, [v]);
  }

  lemma NameH()
    ensures VariantKey.Canon(NAME_H) == LOWER_H && !VariantKey.Sortable(LOWER_H)
  {
    assert NAME_H[1..] == [] && LOWER_H[1..] == [];
  }

  /** The collision: the path of `r2` spells out how the key of `r1` goes on after its path, and the header `H` of the
      request for `r1`, on which its stored response varies, spells out how the flight key of `r2` goes on from there.
      The two requests are for different primary keys and share a flight. */
  lemma FlightKeysCollide(r1: PrimaryKey.Request, r2: PrimaryKey.Request, cfg: QueryString.CacheKey,
                          q1: Request, m1: Meta, q2: Request, m2: Meta)
    requires Spells(r1, r2, cfg)
    requires q1.pk == PrimaryKey.KeyOf(r1, cfg) && q2.pk == PrimaryKey.KeyOf(r2, cfg)
    requires m1.vary == [NAME_H] && LOWER_H in q1.fields && |q1.fields[LOWER_H]| == 1
    requires var v := q1.fields[LOWER_H][0]; TrimSpace(v) == v && PrimaryKey.HOST_LABEL + v == Rest(r2, cfg) + [':'] + MatchKey(m2, q2)
    ensures FlightKey(q1.pk, MatchKey(m1, q1)) == FlightKey(q2.pk, MatchKey(m2, q2)) && q1.pk != q2.pk
  {
    hide Rest, PrimaryKey.KeyOf, TrimSpace, VariantKey.Key, Spells;
    SpelledKey(r1, r2, cfg);
    KeyOfH(q1.fields, q1.fields[LOWER_H][0]);
    var x := Rest(r2, cfg);
    hide MatchKey;
    MatchOfH(m1, q1);
    assert RunsOver(q1.pk, MatchKey(m1, q1), q2.pk, MatchKey(m2, q2));
    RunningOver(q1.pk, MatchKey(m1, q1), q2.pk, MatchKey(m2, q2));
  }

  lemma MatchOfH(m: Meta, q: Request)
    requires VariantKey.Key(m.vary, q.fields) != []
    ensures MatchKey(m, q) == VariantKey.Key(m.vary, q.fields)
  {
    hide VariantKey.Key;
  }

  // ---------- An instance ----------

  const SITE := QueryString.CacheKey(false, false, false, false, [], [], false, map[], [], [], false)

  const HOST_X: Bytes := "x"
  const HOST_Y: Bytes := "y"
  const PATH_A: Bytes := "/a"
  const PATH_SPELLED: Bytes := "/a:h=x:m=GET:"
  const FORGED: Bytes := "y:m=GET::default"

  function Page(host: Bytes, path: Bytes): PrimaryKey.Request {
    PrimaryKey.Request("GET", path, host, [], false, [], [], [], map[], map[])
  }

  lemma SegmentPath(x: Bytes)
    requires x != [] && Free(x, '/') && x != "." && x != ".."
    ensures PrimaryKey.KeyPath(['/'] + x, SITE) == ['/'] + x
  {
    hide Split;
    PrimaryKey.SplitSlash(x);
    SplitFree(x, '/');
    assert [[]] + [x] == [[], x] && [[], x][1..] == [x] && [x][1..] == [];
    assert PrimaryKey.CleanSegments([x], true, []) == PrimaryKey.CleanSegments([], true, [] + [x]);
    assert PrimaryKey.CleanSegments([[], x], true, []) == PrimaryKey.CleanSegments([x], true, []);
    assert PrimaryKey.Clean(['/'] + x) == ['/'] + x;
  }

  lemma PageTail(host: Bytes, path: Bytes)
    ensures PrimaryKey.TailSegments(Page(host, path), SITE) == ["m=GET"]
  {
    VariantKey.SortNone();
    assert PrimaryKey.METHOD_LABEL + "GET" == "m=GET";
  }

  lemma PageHost(host: Bytes, path: Bytes)
    requires |host| == 1 && 'a' <= host[0] <= 'z'
    ensures PrimaryKey.KeyHost(Page(host, path), SITE) == host
  {
    assert QueryString.ToLower(host) == host;
  }

  lemma PageRest(host: Bytes, path: Bytes)
    requires |host| == 1 && 'a' <= host[0] <= 'z'
    ensures Rest(Page(host, path), SITE) == "h=" + host + ":m=GET:"
  {
    hide PrimaryKey.TailSegments, PrimaryKey.KeyHost, PrimaryKey.Closed;
    PageTail(host, path);
    PageHost(host, path);
    var h: Bytes := PrimaryKey.HOST_LABEL + host;
    PrimaryKey.ClosedCons(h, ["m=GET"]);
    PrimaryKey.ClosedCons("m=GET", []);
    PrimaryKey.ClosedNothing();
    assert ["m=GET"] + [] == ["m=GET"];
  }

  /** Host `x` and path `/a`, stored with `Vary: H` and asked for with `H: y:m=GET::default`, shares its flight with host
      `y` and path `/a:h=x:m=GET:`, stored without Vary. */
  lemma FlightKeysCollideInstance(q1: Request, m1: Meta, q2: Request, m2: Meta)
    requires q1.pk == PrimaryKey.KeyOf(Page(HOST_X, PATH_A), SITE) && q2.pk == PrimaryKey.KeyOf(Page(HOST_Y, PATH_SPELLED), SITE)
    requires m1.vary == [NAME_H] && q1.fields == map[LOWER_H := [FORGED]] && m2.vary == []
    ensures FlightKey(q1.pk, MatchKey(m1, q1)) == FlightKey(q2.pk, MatchKey(m2, q2)) && q1.pk != q2.pk
  {
    hide PrimaryKey.KeyPath, PrimaryKey.KeyHost, Rest, PrimaryKey.KeyOf, MatchKey;
    var r1, r2 := Page(HOST_X, PATH_A), Page(HOST_Y, PATH_SPELLED);
    InstanceSpells();
    PageRest(HOST_Y, PATH_SPELLED);
    NoVary(m2, q2);
    ForgedText();
    FlightKeysCollide(r1, r2, SITE, q1, m1, q2, m2);
  }

  lemma ForgedText()
    ensures TrimSpace(FORGED) == FORGED && PrimaryKey.HOST_LABEL + FORGED == ("h=" + HOST_Y + ":m=GET:") + [':'] + DEFAULT
  {
  }

  lemma NoVary(m: Meta, q: Request)
    requires m.vary == []
    ensures MatchKey(m, q) == DEFAULT
  {
    VariantKey.SortNone();
  }

  lemma InstanceSpells()
    ensures Spells(Page(HOST_X, PATH_A), Page(HOST_Y, PATH_SPELLED), SITE)
  {
    hide PrimaryKey.KeyPath, Rest;
    PageRest(HOST_X, PATH_A);
    var x: Bytes, y: Bytes := "a", "a:h=x:m=GET:";
    SegmentPath(x);
    SegmentPath(y);
    assert ['/'] + x == PATH_A && ['/'] + y == PATH_SPELLED;
    assert PATH_A + [':'] + ("h=" + HOST_X + ":m=GET:") == PATH_SPELLED;
  }

  // ---------- A request served another one's result ----------

  /** A request starts a flight, another joins it, the origin answers the first one, and the second leaves. */
  function Crossing(t: Time, q1: Request, vk1: Key, m1: Meta, v1: Variant, comp1: Bytes,
                    q2: Request, vk2: Key, m2: Meta, v2: Variant, comp2: Bytes, e: Env, e2: Env): seq<Move> {
    [Move(t, Enter(0, q1, vk1, m1, v1, comp1)), Move(t, Enter(1, q2, vk2, m2, v2, comp2)), Move(t, CheckMeta(0, false)),
     Move(t, Ask(0)), Move(t, Arrive(0, e)), Move(t, Retire(0)), Move(t, Leave(1, e2))]
  }

  lemma BothIn(cfg: Config, moves: seq<Move>, t: Time, q1: Request, vk1: Key, m1: Meta, v1: Variant, comp1: Bytes,
               q2: Request, vk2: Key, m2: Meta, v2: Variant, comp2: Bytes)
    requires |moves| >= 2 && moves[0] == Move(t, Enter(0, q1, vk1, m1, v1, comp1)) && moves[1] == Move(t, Enter(1, q2, vk2, m2, v2, comp2))
    requires t >= 0 && vk1 != [] && vk2 != [] && FlightKey(q1.pk, vk1) == FlightKey(q2.pk, vk2)
    ensures var s := Run(cfg, moves[..2]);
      && s.ops == [] && s.now == t && s.flights == [Flight(q1.pk, vk1, q1, m1, v1, comp1, Started, None, false, None, 1)]
      && s.waiting == map[0 := Waiter(0, q1, vk1), 1 := Waiter(0, q2, vk2)] && s.served == map[]
  {
    hide FlightKey;
    assert moves[..0] == [];
    RunOn(cfg, moves, 0);
    RunOn(cfg, moves, 1);
  }

  lemma NothingStored(s: State, pk: Key, at: Time)
    requires s.ops == []
    ensures !FreshMeta(StoreOf(s), pk, at)
  {
  }

  /** The recheck finds nothing, the flight asks the origin and its reply comes in. */
  lemma ReplyIn(cfg: Config, moves: seq<Move>, t: Time, fl: Flight, ws: map<nat, Waiter>, e: Env)
    requires |moves| >= 5 && moves[2] == Move(t, CheckMeta(0, false)) && moves[3] == Move(t, Ask(0)) && moves[4] == Move(t, Arrive(0, e))
    requires e.answered <= e.wrote == t && fl.phase.Started?
    requires var s := Run(cfg, moves[..2]); s.ops == [] && s.now == t && s.flights == [fl] && s.waiting == ws && s.served == map[]
    ensures var s := Run(cfg, moves[..5]);
      && s.now == t && |s.flights| == 1 && s.waiting == ws && s.served == map[]
      && var done := s.flights[0];
      && done.req == fl.req && done.joined == fl.joined
      && done.phase == Returned(Land(cfg, World(EMPTY, [], []), fl.req, fl.vk, fl.meta, fl.variant, fl.comp, e).result)
  {
    hide Run, FlightKey, LandingOp, Land, FreshMeta, StoreOf, AfterEnter, AfterRetire, AfterLeave, AfterCheckVariant;
    NothingStored(Run(cfg, moves[..2]).(now := t), fl.pk, t);
    RunOn(cfg, moves, 2);
    RunOn(cfg, moves, 3);
    RunOn(cfg, moves, 4);
  }

  /** Any two requests that share a flight key: the second, of another primary key or not, is handed what the origin
      answered to the first. */
  lemma StrangerServed(cfg: Config, t: Time, q1: Request, vk1: Key, m1: Meta, v1: Variant, comp1: Bytes,
                       q2: Request, vk2: Key, m2: Meta, v2: Variant, comp2: Bytes, e: Env, e2: Env)
    requires t >= 0 && vk1 != [] && vk2 != [] && FlightKey(q1.pk, vk1) == FlightKey(q2.pk, vk2)
    requires e.answered <= e.wrote == t
    ensures var s := Run(cfg, Crossing(t, q1, vk1, m1, v1, comp1, q2, vk2, m2, v2, comp2, e, e2));
      && 1 in s.served && s.served[1].req == q2 && s.served[1].flight == 0 && |s.flights| == 1 && s.flights[0].req == q1
      && s.served[1].answer == AnswerOf(cfg, q2, vk2, Land(cfg, World(EMPTY, [], []), q1, vk1, m1, v1, comp1, e).result, true, e2)
  {
    hide Run, FlightKey, Land, AnswerOf, AfterEnter, AfterCheckMeta, AfterCheckVariant, AfterArrive;
    var moves := Crossing(t, q1, vk1, m1, v1, comp1, q2, vk2, m2, v2, comp2, e, e2);
    BothIn(cfg, moves, t, q1, vk1, m1, v1, comp1, q2, vk2, m2, v2, comp2);
    var fl := Flight(q1.pk, vk1, q1, m1, v1, comp1, Started, None, false, None, 1);
    ReplyIn(cfg, moves, t, fl, map[0 := Waiter(0, q1, vk1), 1 := Waiter(0, q2, vk2)], e);
    RunOn(cfg, moves, 5);
    RunOn(cfg, moves, 6);
    assert moves[..7] == moves;
  }

  /** In the instance, the request for host `y` is answered with the response of host `x`. */
  lemma StrangerServedInstance(cfg: Config, t: Time, q1: Request, m1: Meta, v1: Variant, comp1: Bytes,
                               q2: Request, m2: Meta, v2: Variant, comp2: Bytes, h: Headers, body: Bytes, e: Env, e2: Env)
    requires q1.pk == PrimaryKey.KeyOf(Page(HOST_X, PATH_A), SITE) && q2.pk == PrimaryKey.KeyOf(Page(HOST_Y, PATH_SPELLED), SITE)
    requires m1.vary == [NAME_H] && q1.fields == map[LOWER_H := [FORGED]] && m2.vary == []
    requires t >= 0 && e.answered <= e.wrote == t && e.reply == Reply(200, h, body) && !cfg.esi(h)
    ensures var s := Run(cfg, Crossing(t, q1, MatchKey(m1, q1), m1, v1, comp1, q2, MatchKey(m2, q2), m2, v2, comp2, e, e2));
      && q1.pk != q2.pk && 1 in s.served && s.served[1].req == q2
      && s.served[1].answer == FromOrigin(200, h - {SET_COOKIE}, Sent(q2, body), [])
  {
    hide PrimaryKey.KeyOf, Run, MatchKey, SaveIfAllowed, FlightKey;
    FlightKeysCollideInstance(q1, m1, q2, m2);
    KeyedBoth(m1, q1, m2, q2);
    StrangerServed(cfg, t, q1, MatchKey(m1, q1), m1, v1, comp1, q2, MatchKey(m2, q2), m2, v2, comp2, e, e2);
  }

  lemma KeyedBoth(m1: Meta, q1: Request, m2: Meta, q2: Request)
    ensures MatchKey(m1, q1) != [] && MatchKey(m2, q2) != []
  {
    hide VariantKey.Key;
  }
}
