/** Resolving the fragments of a document: depth limits, cycle checks, fallbacks and nested
    documents, one fragment after another. The origin is any function of where a fetch is made
    and its URL, so it may answer every fetch differently. */
module EsiExec {
  import opened EsiParse
  import opened EsiScan
  import opened EsiSplice
  import opened EsiFlight

  datatype Config = Config(marker: string)

  /** Recursion state: depth reached, depth limit in force, URLs on the way here (innermost
      first), and the max-depth attributes of the enclosing tags. */
  datatype Level = Level(depth: nat, maxDepth: nat, visited: seq<string>, limits: seq<nat>)

  /** A fetch that was asked for. */
  datatype Fetch = Fetch(url: string, alt: bool, depth: nat, ancestors: seq<string>, limits: seq<nat>)

  datatype Resolved = Resolved(body: string, cookies: seq<string>, log: seq<Fetch>)

  /** A nested document expands, or its scan dies. */
  datatype Expansion = Expanded(body: string, cookies: seq<string>, log: seq<Fetch>) | Died

  type Origin = (seq<nat>, string) -> Answer

  // ---------- Fallbacks ----------

  /** Guarded slice: offset 0 and empty or overlong ranges mean "none". */
  function SafeSlice(body: string, start: nat, end: nat): string {
    if start == 0 || end <= start || end > |body| then "" else body[start..end]
  }

  function Lower(c: char): char { if 'A' <= c <= 'Z' then c - 'A' + 'a' else c }

  predicate EqualFold(s: string, t: string) {
    |s| == |t| && forall i :: 0 <= i < |s| ==> Lower(s[i]) == Lower(t[i])
  }

  function ResolveFallback(cfg: Config, inner: string, onError: string): string {
    if inner != "" then inner else if EqualFold(onError, "continue") then "" else cfg.marker
  }

  function Fallback(cfg: Config, parent: string, f: Fragment): string {
    ResolveFallback(cfg, SafeSlice(parent, f.innerStartPos, f.innerEndPos), f.attrs.onError)
  }

  // ---------- Resolution ----------

  function Effective(f: Fragment, lv: Level): (d: nat)
    ensures d <= lv.maxDepth && (f.attrs.maxDepth > 0 ==> d <= f.attrs.maxDepth)
  {
    if f.attrs.maxDepth > 0 && f.attrs.maxDepth < lv.maxDepth then f.attrs.maxDepth else lv.maxDepth
  }

  function Child(f: Fragment, url: string, lv: Level): Level {
    Level(lv.depth + 1, Effective(f, lv), [url] + lv.visited, lv.limits + [f.attrs.maxDepth])
  }

  function Left(lv: Level): nat { if lv.depth < lv.maxDepth then lv.maxDepth - lv.depth else 0 }

  function Asked(f: Fragment, url: string, alt: bool, lv: Level): Fetch {
    Fetch(url, alt, lv.depth, lv.visited, lv.limits + [f.attrs.maxDepth])
  }

  /** The include may be fetched: below its depth limit and not on the way here already. */
  predicate Allowed(f: Fragment, lv: Level) {
    lv.depth < Effective(f, lv) && f.attrs.src !in lv.visited
  }

  /** One fragment: `src`, then `alt`, then the fallback. */
  function Resolve(cfg: Config, o: Origin, parent: string, f: Fragment, lv: Level, at: seq<nat>): Resolved
    decreases Left(lv), 0, 1
  {
    var fallback := Fallback(cfg, parent, f);
    if f.attrs.src == "" || !Allowed(f, lv) then Resolved(fallback, [], [])
    else
      var asked := [Asked(f, f.attrs.src, false, lv)];
      match o(at + [0], f.attrs.src)
      case Got(body, cookies) => Finish(cfg, o, body, cookies, Child(f, f.attrs.src, lv), at + [0], fallback, asked)
      case Failed =>
        if f.attrs.alt == "" then Resolved(fallback, [], asked)
        else
          var asked2 := asked + [Asked(f, f.attrs.alt, true, lv)];
          match o(at + [1], f.attrs.alt)
          case Got(body, cookies) => Finish(cfg, o, body, cookies, Child(f, f.attrs.alt, lv), at + [1], fallback, asked2)
          case Failed => Resolved(fallback, [], asked2)
  }

  /** A fetched body is expanded in turn; a scan that dies leaves the fallback. */
  function Finish(cfg: Config, o: Origin, body: string, cookies: seq<string>, lv: Level, at: seq<nat>,
                  fallback: string, asked: seq<Fetch>): Resolved
    decreases Left(lv), 2, 1
  {
    Settle(Expand(cfg, o, body, cookies, lv, at), fallback, asked)
  }

  function Settle(e: Expansion, fallback: string, asked: seq<Fetch>): Resolved {
    match e
    case Died => Resolved(fallback, [], asked)
    case Expanded(b, c, log) => Resolved(b, c, asked + log)
  }

  function Expand(cfg: Config, o: Origin, body: string, cookies: seq<string>, lv: Level, at: seq<nat>): Expansion
    decreases Left(lv), 2, 0
  {
    if RunsOff(body) then Died
    else
      var fs := Frags(body);
      if fs == [] then Expanded(body, cookies, [])
      else Assemble(body, fs, cookies, ResolveAll(cfg, o, body, fs, 0, lv, at))
  }

  function Assemble(body: string, fs: seq<Fragment>, cookies: seq<string>, rs: seq<Resolved>): Expansion
    requires |rs| == |fs|
  {
    Expanded(Spliced(body, fs, BodiesOf(rs), 0), cookies + CookiesOf(rs), LogOf(rs))
  }

  /** Fragments from the i-th on, in document order. */
  function ResolveAll(cfg: Config, o: Origin, parent: string, fs: seq<Fragment>, i: nat, lv: Level, at: seq<nat>)
    : (rs: seq<Resolved>)
    requires i <= |fs|
    ensures |rs| == |fs| - i
    ensures forall j :: 0 <= j < |rs| ==> rs[j] == Resolve(cfg, o, parent, fs[i + j], lv, at + [i + j])
    decreases Left(lv), 1, |fs| - i
  {
    if i == |fs| then []
    else [Resolve(cfg, o, parent, fs[i], lv, at + [i])] + ResolveAll(cfg, o, parent, fs, i + 1, lv, at)
  }

  function BodiesOf(rs: seq<Resolved>): (bs: seq<string>)
    ensures |bs| == |rs| && forall i :: 0 <= i < |rs| ==> bs[i] == rs[i].body
  {
    if rs == [] then [] else [rs[0].body] + BodiesOf(rs[1..])
  }

  /** Cookies in document order. */
  function CookiesOf(rs: seq<Resolved>): seq<string> {
    if rs == [] then [] else rs[0].cookies + CookiesOf(rs[1..])
  }

  function LogOf(rs: seq<Resolved>): seq<Fetch> {
    if rs == [] then [] else rs[0].log + LogOf(rs[1..])
  }

  // ---------- Limits hold for every fetch ----------

  /** A fetch respects its limits, and a `src` fetch is new on its path. */
  ghost predicate Lawful(e: Fetch, lv: Level) {
    && lv.depth <= e.depth < lv.maxDepth
    && (forall i :: 0 <= i < |e.limits| && e.limits[i] > 0 ==> e.depth < e.limits[i])
    && (!e.alt ==> e.url !in e.ancestors)
    && e.depth - lv.depth == |e.ancestors| - |lv.visited|
    && |lv.visited| <= |e.ancestors| && e.ancestors[|e.ancestors| - |lv.visited|..] == lv.visited
    && lv.limits <= e.limits && |e.limits| == |lv.limits| + 1 + e.depth - lv.depth
  }

  ghost predicate AllLawful(log: seq<Fetch>, lv: Level) {
    forall i :: 0 <= i < |log| ==> Lawful(log[i], lv)
  }

  /** The limit in force is no laxer than any enclosing tag's. */
  ghost predicate LevelOk(lv: Level) {
    forall i :: 0 <= i < |lv.limits| && lv.limits[i] > 0 ==> lv.maxDepth <= lv.limits[i]
  }

  lemma ChildOk(f: Fragment, url: string, lv: Level)
    requires LevelOk(lv)
    ensures LevelOk(Child(f, url, lv))
  {
  }

  lemma AskedLawful(f: Fragment, url: string, alt: bool, lv: Level)
    requires LevelOk(lv) && Allowed(f, lv) && (!alt ==> url == f.attrs.src)
    ensures Lawful(Asked(f, url, alt, lv), lv)
  {
    assert lv.visited[0..] == lv.visited;
  }

  lemma LawfulAbove(e: Fetch, f: Fragment, url: string, lv: Level)
    requires Lawful(e, Child(f, url, lv))
    ensures Lawful(e, lv)
  {
    var c := Child(f, url, lv);
    var n := |e.ancestors| - |c.visited|;
    assert e.ancestors[n + 1..] == e.ancestors[n..][1..] == c.visited[1..] == lv.visited;
  }

  lemma {:induction false} ResolveLawful(cfg: Config, o: Origin, parent: string, f: Fragment, lv: Level, at: seq<nat>)
    requires LevelOk(lv)
    ensures AllLawful(Resolve(cfg, o, parent, f, lv, at).log, lv)
    decreases Left(lv), 0, 2
  {
    hide Finish, Fallback, Lawful, LevelOk, Asked;
    if f.attrs.src != "" && Allowed(f, lv) {
      var asked := [Asked(f, f.attrs.src, false, lv)];
      AskedLawful(f, f.attrs.src, false, lv);
      match o(at + [0], f.attrs.src)
      case Got(body, cookies) => FinishLawful(cfg, o, body, cookies, f, f.attrs.src, lv, at + [0], Fallback(cfg, parent, f), asked);
      case Failed =>
        var asked2 := asked + [Asked(f, f.attrs.alt, true, lv)];
        AskedLawful(f, f.attrs.alt, true, lv);
        match o(at + [1], f.attrs.alt)
        case Got(body, cookies) => FinishLawful(cfg, o, body, cookies, f, f.attrs.alt, lv, at + [1], Fallback(cfg, parent, f), asked2);
        case Failed =>
    }
  }

  lemma {:induction false} FinishLawful(cfg: Config, o: Origin, body: string, cookies: seq<string>, f: Fragment,
                                        url: string, lv: Level, at: seq<nat>, fallback: string, asked: seq<Fetch>)
    requires LevelOk(lv) && lv.depth < Effective(f, lv) && AllLawful(asked, lv)
    ensures AllLawful(Finish(cfg, o, body, cookies, Child(f, url, lv), at, fallback, asked).log, lv)
    decreases Left(lv), 0, 1
  {
    hide Expand, Lawful, LevelOk, Child;
    ExpandLawfulAbove(cfg, o, body, cookies, f, url, lv, at);
  }

  lemma {:induction false} ExpandLawfulAbove(cfg: Config, o: Origin, body: string, cookies: seq<string>, f: Fragment,
                                             url: string, lv: Level, at: seq<nat>)
    requires LevelOk(lv) && lv.depth < Effective(f, lv)
    ensures var e := Expand(cfg, o, body, cookies, Child(f, url, lv), at); e.Expanded? ==> AllLawful(e.log, lv)
    decreases Left(lv), 0, 0
  {
    hide Expand, Lawful, LevelOk;
    ChildOk(f, url, lv);
    var c := Child(f, url, lv);
    ExpandLawful(cfg, o, body, cookies, c, at);
    var e := Expand(cfg, o, body, cookies, c, at);
    if e.Expanded? {
      forall i | 0 <= i < |e.log| ensures Lawful(e.log[i], lv) { LawfulAbove(e.log[i], f, url, lv); }
    }
  }

  /** For every origin: no fetch at or beyond the configured depth or any enclosing max-depth, and
      no `src` fetch of a URL on its own path. */
  lemma {:induction false} ExpandLawful(cfg: Config, o: Origin, body: string, cookies: seq<string>, lv: Level, at: seq<nat>)
    requires LevelOk(lv)
    ensures var e := Expand(cfg, o, body, cookies, lv, at); e.Expanded? ==> AllLawful(e.log, lv)
    decreases Left(lv), 2, 0
  {
    hide Lawful, RunsOff, Frags, Spliced, Resolve, LevelOk;
    if !RunsOff(body) {
      var fs := Frags(body);
      var rs := ResolveAll(cfg, o, body, fs, 0, lv, at);
      forall i | 0 <= i < |rs| ensures AllLawful(rs[i].log, lv) {
        ResolveLawful(cfg, o, body, fs[i], lv, at + [i]);
      }
      hide ResolveAll;
      LogLawful(rs, lv);
    }
  }

  lemma {:induction false} LogLawful(rs: seq<Resolved>, lv: Level)
    requires forall i :: 0 <= i < |rs| ==> AllLawful(rs[i].log, lv)
    ensures AllLawful(LogOf(rs), lv)
  {
    hide Lawful;
    if rs != [] { LogLawful(rs[1..], lv); }
  }
}
