/** How many fetches a document can cause, and what stripping really leaves behind. */
module EsiLimits {
  import opened EsiParse
  import opened EsiScan
  import opened EsiSplice
  import opened EsiExec

  function Pow(k: nat, d: nat): nat { if d == 0 then 1 else k * Pow(k, d - 1) }

  /** k + k^2 + ... + k^d. */
  function Geometric(k: nat, d: nat): nat { if d == 0 then 0 else Geometric(k, d - 1) + Pow(k, d) }

  /** Fetches of a document with `d` levels left and at most `k` fragments per document. */
  function Cap(k: nat, d: nat): nat { if d == 0 then 0 else k * (2 + Cap(k, d - 1)) }

  lemma {:induction false} GeometricStep(k: nat, d: nat)
    ensures k * (1 + Geometric(k, d)) == Geometric(k, d + 1)
  {
    if d > 0 {
      GeometricStep(k, d - 1);
      assert k * (1 + Geometric(k, d)) == k * (1 + Geometric(k, d - 1)) + k * Pow(k, d);
    } else {
      assert Pow(k, 1) == k * Pow(k, 0);
    }
  }

  lemma {:induction false} CapClosedForm(k: nat, d: nat)
    ensures Cap(k, d) == 2 * Geometric(k, d)
  {
    if d > 0 {
      CapClosedForm(k, d - 1);
      GeometricStep(k, d - 1);
      CapUnfolds(k, d);
      Double(k, Geometric(k, d - 1));
    }
  }

  lemma Double(k: nat, g: nat)
    ensures k * (2 + 2 * g) == 2 * (k * (1 + g))
  {
  }

  lemma {:induction false} CapMonotone(k: nat, d: nat, e: nat)
    requires d <= e
    ensures Cap(k, d) <= Cap(k, e)
  {
    hide Cap;
    if d == 0 {
      CapNothing(k);
    } else {
      CapMonotone(k, d - 1, e - 1);
      CapStep(k, Cap(k, d - 1), Cap(k, e - 1), d, e);
    }
  }

  lemma CapNothing(k: nat)
    ensures Cap(k, 0) == 0
  {
  }

  lemma CapStep(k: nat, x: nat, y: nat, d: nat, e: nat)
    requires 0 < d && 0 < e && x <= y && x == Cap(k, d - 1) && y == Cap(k, e - 1)
    ensures Cap(k, d) <= Cap(k, e)
  {
    CapUnfolds(k, d);
    CapUnfolds(k, e);
    hide Cap;
    Times(k, 2 + x, 2 + y);
  }

  /** Every document the origin serves has at most `k` fragments. */
  ghost predicate Slim(o: Origin, k: nat) {
    forall p, u :: o(p, u).Got? ==> |Frags(o(p, u).body)| <= k
  }

  lemma {:induction false} ResolveBound(cfg: Config, o: Origin, parent: string, f: Fragment, lv: Level, at: seq<nat>, k: nat)
    requires Slim(o, k)
    ensures |Resolve(cfg, o, parent, f, lv, at).log| <= if Left(lv) == 0 then 0 else 2 + Cap(k, Left(lv) - 1)
    decreases Left(lv), 0, 1
  {
    hide Frags;
    if f.attrs.src != "" && Allowed(f, lv) {
      match o(at + [0], f.attrs.src)
      case Got(body, cookies) => ChildBound(cfg, o, body, cookies, f, f.attrs.src, lv, at + [0], k);
      case Failed =>
        match o(at + [1], f.attrs.alt)
        case Got(body, cookies) => ChildBound(cfg, o, body, cookies, f, f.attrs.alt, lv, at + [1], k);
        case Failed =>
    }
  }

  lemma {:induction false} ChildBound(cfg: Config, o: Origin, body: string, cookies: seq<string>, f: Fragment,
                                      url: string, lv: Level, at: seq<nat>, k: nat)
    requires Slim(o, k) && lv.depth < Effective(f, lv) && |Frags(body)| <= k
    ensures var e := Expand(cfg, o, body, cookies, Child(f, url, lv), at);
      e.Expanded? ==> |e.log| <= Cap(k, Left(lv) - 1)
    decreases Left(lv), 0, 0
  {
    hide Expand, Frags, Cap;
    var c := Child(f, url, lv);
    ExpandBound(cfg, o, body, cookies, c, at, k);
    CapMonotone(k, Left(c), Left(lv) - 1);
  }

  /** With at most K fragments per document and D levels, at most 2(K + K^2 + ... + K^D) fetches,
      whatever the origin answers. */
  lemma {:induction false} ExpandBound(cfg: Config, o: Origin, body: string, cookies: seq<string>, lv: Level,
                                       at: seq<nat>, k: nat)
    requires Slim(o, k) && |Frags(body)| <= k
    ensures var e := Expand(cfg, o, body, cookies, lv, at); e.Expanded? ==> |e.log| <= Cap(k, Left(lv))
    ensures Cap(k, Left(lv)) == 2 * Geometric(k, Left(lv))
    decreases Left(lv), 2, 0
  {
    hide RunsOff, Frags, Spliced, Resolve, Cap, Geometric;
    CapClosedForm(k, Left(lv));
    if !RunsOff(body) {
      var fs := Frags(body);
      var rs := ResolveAll(cfg, o, body, fs, 0, lv, at);
      var each := if Left(lv) == 0 then 0 else 2 + Cap(k, Left(lv) - 1);
      forall i | 0 <= i < |rs| ensures |rs[i].log| <= each { ResolveBound(cfg, o, body, fs[i], lv, at + [i], k); }
      hide ResolveAll, Slim;
      LogBound(rs, each);
      CapUnfolds(k, Left(lv));
      Scale(|rs|, k, each);
    }
  }

  lemma Times(k: nat, a: nat, b: nat)
    requires a <= b
    ensures k * a <= k * b
  {
  }

  lemma Scale(n: nat, k: nat, each: nat)
    requires n <= k
    ensures n * each <= k * each
  {
  }

  lemma CapUnfolds(k: nat, d: nat)
    ensures Cap(k, d) == k * (if d == 0 then 0 else 2 + Cap(k, d - 1))
  {
  }

  lemma {:induction false} LogBound(rs: seq<Resolved>, each: nat)
    requires forall i :: 0 <= i < |rs| ==> |rs[i].log| <= each
    ensures |LogOf(rs)| <= |rs| * each
  {
    if rs != [] {
      LogBound(rs[1..], each);
      assert |rs| * each == each + (|rs| - 1) * each;
    }
  }

  // ---------- Stripping and the error marker ----------

  /** Text of a document outside its tags. */
  function TextOf(d: Doc): string {
    match d
    case End => ""
    case Text(c, rest) => [c] + TextOf(rest)
    case Tag(_, _, _, _, rest) => TextOf(rest)
  }

  /** No tag of the document includes anything: all are to be stripped. */
  predicate OnlyStrips(d: Doc) {
    match d
    case End => true
    case Text(_, rest) => OnlyStrips(rest)
    case Tag(_, a, i, j, rest) => a == NO_ATTRS && i == 0 && OnlyStrips(rest)
  }

  lemma {:induction false} StripsPlaced(d: Doc, off: nat)
    requires OnlyStrips(d)
    ensures forall i :: 0 <= i < |Layout(d, off)| ==> Layout(d, off)[i].attrs == NO_ATTRS && Layout(d, off)[i].innerStartPos == 0
  {
    match d
    case End =>
    case Text(_, rest) => StripsPlaced(rest, off + 1);
    case Tag(raw, _, _, _, rest) => StripsPlaced(rest, off + |raw|);
  }

  /** `<!--esi`, `-->`, remove and comment tags resolve to the error marker, not to nothing. */
  lemma StripLeavesMarker(cfg: Config, o: Origin, parent: string, f: Fragment, lv: Level, at: seq<nat>)
    requires f.attrs == NO_ATTRS && f.innerStartPos == 0
    ensures Resolve(cfg, o, parent, f, lv, at) == Resolved(cfg.marker, [], [])
  {
    assert |"continue"| == 8;
  }

  lemma {:induction false} RenderBlank(d: Doc, bodies: seq<string>)
    requires |bodies| == TagCount(d) && forall i :: 0 <= i < |bodies| ==> bodies[i] == ""
    ensures Render(d, bodies) == TextOf(d)
  {
    match d
    case End =>
    case Text(c, rest) => RenderBlank(rest, bodies);
    case Tag(_, _, _, _, rest) => RenderBlank(rest, bodies[1..]);
  }

  lemma {:induction false} RenderLonger(d: Doc, bodies: seq<string>)
    requires |bodies| == TagCount(d)
    ensures |Render(d, bodies)| >= |TextOf(d)|
    ensures TagCount(d) > 0 && bodies[0] != "" ==> |Render(d, bodies)| > |TextOf(d)|
  {
    match d
    case End =>
    case Text(c, rest) => RenderLonger(rest, bodies);
    case Tag(_, _, _, _, rest) => RenderLonger(rest, bodies[1..]);
  }

  /** A document whose tags are all to be stripped comes out as its plain text exactly when no
      error marker is configured or it has no tags at all. */
  lemma StrippedExactly(cfg: Config, o: Origin, body: string, lv: Level, at: seq<nat>)
    requires !RunsOff(body) && OnlyStrips(Parse(body))
    ensures var e := Expand(cfg, o, body, [], lv, at);
      e.Expanded? && (e.body == TextOf(Parse(body)) <==> cfg.marker == "" || TagCount(Parse(body)) == 0)
  {
    hide Parse, RunsOff, Spliced, Resolve;
    var d, fs := Parse(body), Frags(body);
    LayoutCount(d, 0);
    StripsPlaced(d, 0);
    var rs := ResolveAll(cfg, o, body, fs, 0, lv, at);
    forall i | 0 <= i < |rs| ensures rs[i] == Resolved(cfg.marker, [], []) {
      StripLeavesMarker(cfg, o, body, fs[i], lv, at + [i]);
    }
    hide ResolveAll, Layout;
    SpliceAgreesWithReading(body, BodiesOf(rs));
    if cfg.marker == "" { RenderBlank(d, BodiesOf(rs)); } else { RenderLonger(d, BodiesOf(rs)); }
    if fs == [] { NoTagsIsText(d); ParseLossless(body); }
  }

  lemma NoTagsIsText(d: Doc)
    ensures TagCount(d) == 0 ==> Raw(d) == TextOf(d)
  {
  }
}
