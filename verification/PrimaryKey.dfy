/** The primary cache key: labelled segments, each closed by a colon. */
module PrimaryKey {
  import opened Sorting
  import opened KeyBytes
  import opened UrlEscape
  import opened QueryString

  /** The parts of a request a key can depend on. Headers are keyed by lower-case name; a cookie
      map holds the first cookie of each name. */
  datatype Request = Request(
    verb: Bytes, path: Bytes, host: Bytes, urlHost: Bytes,
    tls: bool, forwardedProto: Bytes, urlScheme: Bytes, rawQuery: Bytes,
    headers: map<Bytes, seq<Bytes>>, cookies: map<Bytes, Bytes>)

  const PATH_LABEL: Bytes := "p="
  const HOST_LABEL: Bytes := "h="
  const SCHEME_LABEL: Bytes := "s="
  const QUERY_LABEL: Bytes := "qs="
  const METHOD_LABEL: Bytes := "m="
  const HEADER_LABEL: Bytes := "he="
  const COOKIE_LABEL: Bytes := "ck="

  // ---------- Paths ----------

  /** `path.Clean` on path segments. */
  function CleanSegments(segs: seq<Bytes>, rooted: bool, stack: seq<Bytes>): seq<Bytes>
    decreases |segs|
  {
    if segs == [] then stack
    else if segs[0] == [] || segs[0] == "." then CleanSegments(segs[1..], rooted, stack)
    else if segs[0] == ".." then
      if stack != [] && stack[|stack| - 1] != ".." then CleanSegments(segs[1..], rooted, stack[..|stack| - 1])
      else if rooted then CleanSegments(segs[1..], rooted, stack)
      else CleanSegments(segs[1..], rooted, stack + [segs[0]])
    else CleanSegments(segs[1..], rooted, stack + [segs[0]])
  }

  predicate Rooted(p: Bytes) { p != [] && p[0] == '/' }

  function Clean(p: Bytes): (r: Bytes)
    ensures Rooted(p) ==> Rooted(r)
  {
    var stack := CleanSegments(Split(p, '/'), Rooted(p), []);
    var body := if stack == [] then [] else Join(stack, '/');
    if Rooted(p) then ['/'] + body else if body == [] then ['.'] else body
  }

  /** The path a key is made from: cleaned, trailing slash kept, lower-cased on request. */
  function KeyPath(raw: Bytes, cfg: CacheKey): (r: Bytes)
    ensures raw == [] || Rooted(raw) ==> Rooted(r)
  {
    var p := if raw == [] then ['/'] else raw;
    var cleaned := Clean(p);
    var kept :=
      if cleaned == "." then ['/']
      else if p[|p| - 1] == '/' && (cleaned == [] || cleaned[|cleaned| - 1] != '/') then cleaned + ['/']
      else cleaned;
    if cfg.caseInsensitivePath then ToLower(kept) else kept
  }

  /** What the path writer produces: every byte escaped for its segment, one leading slash. */
  function EscapedPath(p: Bytes): Bytes {
    if Rooted(p) then Esc(Path, p) else ['/'] + Esc(Path, p)
  }

  lemma {:induction false} SegmentIsPath(s: Bytes)
    requires Free(s, '/')
    ensures Esc(Segment, s) == Esc(Path, s)
  {
    if s != [] { SegmentIsPath(s[1..]); }
  }

  /** Write a path segment by segment, keeping the slashes. */
  method WriteEscapedPath(p: Bytes) returns (buf: Bytes)
    ensures buf == EscapedPath(p)
  {
    hide Esc, Split, Join;
    var trimmed := if Rooted(p) then p[1..] else p;
    buf := [];
    if trimmed == [] {
      SlashEscapes(p);
      return ['/'];
    }
    var parts := Split(trimmed, '/');
    for i := 0 to |parts|
      invariant i == 0 ==> buf == []
      invariant i > 0 ==> buf == ['/'] + Esc(Path, Join(parts[..i], '/'))
    {
      PartsJoin(trimmed, i);
      buf := buf + ['/'];
      if parts[i] != [] {
        buf := buf + Esc(Segment, parts[i]);
      }
    }
    JoinSplit(trimmed, '/');
    assert parts[..|parts|] == parts;
    SlashEscapes(p);
  }

  lemma SlashEscapes(p: Bytes)
    ensures Esc(Path, []) == []
    ensures Rooted(p) ==> Esc(Path, p) == ['/'] + Esc(Path, p[1..])
  {
  }

  lemma SlashEscaped(a: Bytes, b: Bytes)
    ensures Esc(Path, a + ['/'] + b) == Esc(Path, a) + ['/'] + Esc(Path, b)
  {
    EscConcat(Path, a + ['/'], b);
    EscConcat(Path, a, ['/']);
    assert Esc(Path, ['/']) == ['/'];
  }

  lemma PartsJoin(t: Bytes, i: nat)
    requires i < |Split(t, '/')|
    ensures var parts := Split(t, '/'); var seg := Esc(Segment, parts[i]);
      && (parts[i] == [] ==> seg == [])
      && Esc(Path, Join(parts[..i + 1], '/')) == if i == 0 then seg else Esc(Path, Join(parts[..i], '/')) + ['/'] + seg
  {
    hide Split, Join;
    var parts := Split(t, '/');
    SplitApart(t, '/');
    SegmentIsPath(parts[i]);
    assert parts[..i + 1] == parts[..i] + [parts[i]];
    if i > 0 {
      JoinSnoc(parts[..i], parts[i], '/');
      SlashEscaped(Join(parts[..i], '/'), parts[i]);
    } else {
      assert parts[..1] == [parts[0]];
      JoinSingle(parts[0], '/');
    }
  }

  lemma JoinSingle(x: Bytes, sep: Byte)
    ensures Join([x], sep) == x
  {
  }

  // ---------- Other parts ----------

  function ResolveScheme(r: Request): Bytes {
    if r.tls || r.forwardedProto == "https" || r.urlScheme == "https" then "https" else "http"
  }

  function TrimSuffix(s: Bytes, suf: Bytes): Bytes {
    if |suf| <= |s| && s[|s| - |suf|..] == suf then s[..|s| - |suf|] else s
  }

  /** Lower-case host without the scheme's default port. */
  function NormalizeHost(host: Bytes, scheme: Bytes): Bytes {
    var h := ToLower(host);
    if scheme == "http" then TrimSuffix(h, ":80")
    else if scheme == "https" then TrimSuffix(h, ":443")
    else h
  }

  /** The host a key is made from; empty when excluded or unknown. */
  function KeyHost(r: Request, cfg: CacheKey): Bytes {
    var host := if r.host == [] then r.urlHost else r.host;
    if cfg.excludeHost || host == [] then [] else NormalizeHost(host, ResolveScheme(r))
  }

  function KeyMethod(r: Request): Bytes {
    if r.verb == "HEAD" || r.verb == [] then "GET" else r.verb
  }

  /** Trimmed values of a request header. */
  function HeaderValues(r: Request, name: Bytes): seq<Bytes> {
    if ToLower(name) in r.headers then TrimAll(r.headers[ToLower(name)]) else []
  }

  function CookieValue(r: Request, name: Bytes): Bytes {
    if name in r.cookies then r.cookies[name] else []
  }

  function EscEach(vs: seq<Bytes>): (r: seq<Bytes>)
    ensures |r| == |vs| && forall i :: 0 <= i < |vs| ==> r[i] == Esc(Query, vs[i])
  {
    if vs == [] then [] else [Esc(Query, vs[0])] + EscEach(vs[1..])
  }

  function HeaderSegment(name: Bytes, vs: seq<Bytes>): Bytes
    requires vs != []
  {
    HEADER_LABEL + ToLower(name) + ['~'] + Join(EscEach(vs), ',')
  }

  function CookieSegment(name: Bytes, v: Bytes): Bytes { COOKIE_LABEL + name + ['~'] + Esc(Query, v) }

  function HeaderSegments(r: Request, names: seq<Bytes>): seq<Bytes> {
    if names == [] then []
    else
      var vs := HeaderValues(r, names[0]);
      (if vs == [] then [] else [HeaderSegment(names[0], vs)]) + HeaderSegments(r, names[1..])
  }

  function CookieSegments(r: Request, names: seq<Bytes>): seq<Bytes> {
    if names == [] then []
    else
      var v := CookieValue(r, names[0]);
      (if v == [] then [] else [CookieSegment(names[0], v)]) + CookieSegments(r, names[1..])
  }

  // ---------- The key ----------

  function Optional(cond: bool, seg: Bytes): seq<Bytes> { if cond then [seg] else [] }

  function SchemeSegment(r: Request): Bytes { SCHEME_LABEL + ResolveScheme(r) }

  function QuerySegment(r: Request, cfg: CacheKey): Bytes { QUERY_LABEL + QueryPart(r.rawQuery, cfg) }

  function MethodSegment(r: Request): Bytes { METHOD_LABEL + KeyMethod(r) }

  function HostSegment(r: Request, cfg: CacheKey): Bytes { HOST_LABEL + KeyHost(r, cfg) }

  /** Segments after the host. */
  function TailSegments(r: Request, cfg: CacheKey): seq<Bytes> {
    Optional(cfg.includeProtocol, SchemeSegment(r)) +
    (Optional(QueryPart(r.rawQuery, cfg) != [], QuerySegment(r, cfg)) +
     ([MethodSegment(r)] +
      (HeaderSegments(r, Sort(BYTE_ORDER, cfg.headerNames)) + CookieSegments(r, Sort(BYTE_ORDER, cfg.cookieNames)))))
  }

  function PathSegment(r: Request, cfg: CacheKey): Bytes { PATH_LABEL + EscapedPath(KeyPath(r.path, cfg)) }

  function KeySegments(r: Request, cfg: CacheKey): seq<Bytes> {
    [PathSegment(r, cfg)] + (Optional(KeyHost(r, cfg) != [], HostSegment(r, cfg)) + TailSegments(r, cfg))
  }

  /** Each segment followed by a colon. */
  function Closed(segs: seq<Bytes>): Bytes {
    if segs == [] then [] else segs[0] + [':'] + Closed(segs[1..])
  }

  function KeyOf(r: Request, cfg: CacheKey): Bytes { Closed(KeySegments(r, cfg)) }

  // ---------- Reading a key back ----------

  lemma {:induction false} SplitClosed(segs: seq<Bytes>)
    requires forall i :: 0 <= i < |segs| ==> Free(segs[i], ':')
    ensures Split(Closed(segs), ':') == segs + [[]]
  {
    hide Split;
    if segs == [] {
      SplitNone(':');
    } else {
      SplitClosed(segs[1..]);
      SplitConcat(segs[0], ':', Closed(segs[1..]));
      SplitFree(segs[0], ':');
      assert segs == [segs[0]] + segs[1..];
    }
  }

  predicate StartsHost(t: Bytes) { HOST_LABEL <= t }

  /** Pieces of a key fall apart uniquely into path, host and the rest: the last piece that starts
      with `h=` opens the host, and the next piece with a `=` ends it. */
  lemma PiecesDetermined(p: seq<Bytes>, h: seq<Bytes>, t: seq<Bytes>, p': seq<Bytes>, h': seq<Bytes>, t': seq<Bytes>)
    requires p + h + t == p' + h' + t'
    requires HostPieces(h) && HostPieces(h') && TailPieces(t) && TailPieces(t')
    ensures p == p' && h == h' && t == t'
  {
    var l := p + h + t;
    assert l[|p|] == h[0] && l[|p'|] == h'[0];
    HostNotLater(p, h, t, |p'|);
    HostNotLater(p', h', t', |p|);
    assert p == l[..|p|] && h + t == l[|p|..] && h' + t' == l[|p'|..];
    TailNotInHost(h, t, |h'|, h', t');
    TailNotInHost(h', t', |h|, h, t);
    assert h == (h + t)[..|h|] && t == (h + t)[|h|..] && h' == (h' + t')[..|h'|] && t' == (h' + t')[|h'|..];
  }

  ghost predicate HostPieces(h: seq<Bytes>) {
    h != [] && StartsHost(h[0]) && forall i :: 1 <= i < |h| ==> Free(h[i], '=')
  }

  ghost predicate TailPieces(t: seq<Bytes>) {
    t != [] && '=' in t[0] && forall i :: 0 <= i < |t| ==> !StartsHost(t[i])
  }

  lemma HostNotLater(p: seq<Bytes>, h: seq<Bytes>, t: seq<Bytes>, k: nat)
    requires HostPieces(h) && TailPieces(t) && k < |p + h + t| && StartsHost((p + h + t)[k])
    ensures k <= |p|
  {
    assert forall x: Bytes :: StartsHost(x) ==> x[1] == '=';
  }

  lemma TailNotInHost(h: seq<Bytes>, t: seq<Bytes>, n: nat, h': seq<Bytes>, t': seq<Bytes>)
    requires HostPieces(h) && TailPieces(t) && HostPieces(h') && TailPieces(t') && n == |h'| && h + t == h' + t'
    ensures |h| <= n
  {
    assert (h' + t')[n] == t'[0];
  }

  /** What two requests must share to share a key. */
  ghost predicate SameParts(r1: Request, r2: Request, cfg: CacheKey) {
    && KeyPath(r1.path, cfg) == KeyPath(r2.path, cfg)
    && KeyHost(r1, cfg) == KeyHost(r2, cfg)
    && (cfg.includeProtocol ==> ResolveScheme(r1) == ResolveScheme(r2))
    && QueryPart(r1.rawQuery, cfg) == QueryPart(r2.rawQuery, cfg)
    && (forall h :: h in cfg.headerNames ==> HeaderValues(r1, h) == HeaderValues(r2, h))
    && (forall c :: c in cfg.cookieNames ==> CookieValue(r1, c) == CookieValue(r2, c))
  }

  /** The header name `n2` is `n1`, a tilde, and something that header values are written as. */
  ghost predicate HeaderRunsInto(n1: Bytes, n2: Bytes) {
    exists ws: seq<Bytes> :: ws != [] && n2 == n1 + ['~'] + Join(EscEach(ws), ',')
  }

  ghost predicate CookieRunsInto(n1: Bytes, n2: Bytes) { exists w: Bytes :: n2 == n1 + ['~'] + Esc(Query, w) }

  /** Configured header and cookie names are free of colons, and none runs into another across the tilde that ends
      names in keys. */
  ghost predicate PlainNames(cfg: CacheKey) {
    && (forall h :: h in cfg.headerNames ==> Free(h, ':'))
    && (forall c :: c in cfg.cookieNames ==> Free(c, ':'))
    && (forall h, h' :: h in cfg.headerNames && h' in cfg.headerNames ==> !HeaderRunsInto(ToLower(h), ToLower(h')))
    && (forall c, c' :: c in cfg.cookieNames && c' in cfg.cookieNames ==> !CookieRunsInto(c, c'))
  }

  /** A GET or HEAD request for a rooted path with a host free of `=`. */
  ghost predicate Plain(r: Request, cfg: CacheKey) {
    && KeyMethod(r) == "GET"
    && (r.path == [] || Rooted(r.path))
    && KeyHost(r, cfg) != [] && Free(KeyHost(r, cfg), '=')
  }

  lemma {:induction false} HeaderSegmentsOf(r: Request, names: seq<Bytes>)
    ensures forall s :: s in HeaderSegments(r, names) <==>
      exists h :: h in names && HeaderValues(r, h) != [] && s == HeaderSegment(h, HeaderValues(r, h))
  {
    hide HeaderValues, HeaderSegment;
    if names != [] {
      HeaderSegmentsOf(r, names[1..]);
      assert names == [names[0]] + names[1..];
      if HeaderValues(r, names[0]) != [] { assert HeaderSegment(names[0], HeaderValues(r, names[0])) in HeaderSegments(r, names); }
    }
  }

  lemma {:induction false} CookieSegmentsOf(r: Request, names: seq<Bytes>)
    ensures forall s :: s in CookieSegments(r, names) <==>
      exists c :: c in names && CookieValue(r, c) != [] && s == CookieSegment(c, CookieValue(r, c))
  {
    hide CookieValue, CookieSegment;
    if names != [] {
      CookieSegmentsOf(r, names[1..]);
      assert names == [names[0]] + names[1..];
      if CookieValue(r, names[0]) != [] { assert CookieSegment(names[0], CookieValue(r, names[0])) in CookieSegments(r, names); }
    }
  }

  lemma LowerFree(s: Bytes, c: Byte)
    requires Free(s, c) && !('a' <= c <= 'z')
    ensures Free(ToLower(s), c)
  {
  }

  lemma EscEachFree(vs: seq<Bytes>, c: Byte)
    requires c == ':' || c == ','
    ensures forall i :: 0 <= i < |vs| ==> Free(EscEach(vs)[i], c)
  {
    forall i | 0 <= i < |vs| ensures Free(EscEach(vs)[i], c) { EscFree(Query, vs[i], c); }
  }

  /** Names of different length before a tilde: the longer one is the shorter, a tilde, and the start of a value. */
  lemma NamesShift(n: Bytes, v: Bytes, n': Bytes, v': Bytes) returns (rest: Bytes)
    requires n + ['~'] + v == n' + ['~'] + v' && |n| < |n'|
    ensures n' == n + ['~'] + rest && v == rest + ['~'] + v'
  {
    var x := n + ['~'] + v;
    rest := n'[|n| + 1..];
    assert n' == x[..|n'|] && x[..|n| + 1] == n + ['~'];
    assert v == x[|n| + 1..];
  }

  lemma SameLengthNames(n: Bytes, v: Bytes, n': Bytes, v': Bytes)
    requires n + ['~'] + v == n' + ['~'] + v' && |n| == |n'|
    ensures n == n' && v == v'
  {
    var x := n + ['~'] + v;
    assert n == x[..|n|] && n' == x[..|n'|] && v == x[|n| + 1..] && v' == x[|n'| + 1..];
  }

  lemma DropTag(tag: Bytes, n: Bytes, v: Bytes, n': Bytes, v': Bytes)
    requires tag + n + ['~'] + v == tag + n' + ['~'] + v'
    ensures n + ['~'] + v == n' + ['~'] + v'
  {
    var x, y := n + ['~'] + v, n' + ['~'] + v';
    assert tag + n + ['~'] + v == tag + x && tag + n' + ['~'] + v' == tag + y;
    assert x == (tag + x)[|tag|..] && y == (tag + y)[|tag|..];
  }

  /** Escaped text up to a tilde is escaped text. */
  lemma {:induction false} EscCut(v: Bytes, rest: Bytes, more: Bytes) returns (w: Bytes)
    requires Esc(Query, v) == rest + ['~'] + more
    ensures rest == Esc(Query, w)
    decreases |v|
  {
    hide HexValue;
    assert v != [];
    var e, t := EscByte(Query, v[0]), Esc(Query, v[1..]);
    assert Esc(Query, v) == e + t;
    if |rest| < |e| {
      assert e[|rest|] == (rest + ['~'] + more)[|rest|] == '~';
      TildeAlone(v[0], |rest|);
      w := [];
    } else {
      assert rest[..|e|] == (rest + ['~'] + more)[..|e|] == (e + t)[..|e|] == e;
      var w' := EscCut(v[1..], rest[|e|..], more) by { assert t == (e + t)[|e|..]; }
      w := [v[0]] + w';
      assert w[1..] == w';
    }
  }

  lemma TildeAlone(c: Byte, i: nat)
    requires i < |EscByte(Query, c)| && EscByte(Query, c)[i] == '~'
    ensures i == 0
  {
  }

  /** Written values up to a tilde are written values. */
  lemma {:induction false} ValuesCut(vs: seq<Bytes>, rest: Bytes, more: Bytes) returns (ws: seq<Bytes>)
    requires vs != [] && Join(EscEach(vs), ',') == rest + ['~'] + more
    ensures ws != [] && rest == Join(EscEach(ws), ',')
    decreases |vs|
  {
    hide Esc;
    var e := Esc(Query, vs[0]);
    EscEachCons(vs);
    if |vs| == 1 {
      var w := EscCut(vs[0], rest, more);
      ws := [w];
    } else {
      var t := Join(EscEach(vs[1..]), ',');
      assert Join(EscEach(vs), ',') == e + [','] + t;
      if |rest| < |e| {
        var tail := e[|rest| + 1..];
        assert e == rest + ['~'] + tail by { FrontOf(e, [','] + t, rest, more); }
        var w := EscCut(vs[0], rest, tail);
        ws := [w];
      } else {
        CommaFirst(e, t, rest, more);
        var ws' := ValuesCut(vs[1..], rest[|e| + 1..], more);
        ws := [vs[0]] + ws';
        EscEachCons(ws);
        assert ws[1..] == ws';
      }
    }
  }

  lemma EscEachCons(vs: seq<Bytes>)
    requires vs != []
    ensures EscEach(vs) == [Esc(Query, vs[0])] + EscEach(vs[1..]) && EscEach(vs)[1..] == EscEach(vs[1..])
    ensures |vs| == 1 ==> Join(EscEach(vs), ',') == Esc(Query, vs[0])
    ensures |vs| > 1 ==> Join(EscEach(vs), ',') == Esc(Query, vs[0]) + [','] + Join(EscEach(vs[1..]), ',')
  {
  }

  lemma FrontOf(e: Bytes, t: Bytes, rest: Bytes, more: Bytes)
    requires e + t == rest + ['~'] + more && |rest| < |e|
    ensures e == rest + ['~'] + e[|rest| + 1..]
  {
    assert e[..|rest| + 1] == (e + t)[..|rest| + 1] == rest + ['~'];
  }

  lemma CommaFirst(e: Bytes, t: Bytes, rest: Bytes, more: Bytes)
    requires e + [','] + t == rest + ['~'] + more && |rest| >= |e|
    ensures |rest| > |e| && rest == e + [','] + rest[|e| + 1..] && t == rest[|e| + 1..] + ['~'] + more
  {
    var k := e + [','] + t;
    assert k[|e|] == ',' && k[|rest|] == '~';
    assert rest[..|e| + 1] == k[..|e| + 1] == e + [','];
    assert t == k[|e| + 1..];
  }

  lemma HeaderSegmentDetermined(n: Bytes, vs: seq<Bytes>, n': Bytes, vs': seq<Bytes>)
    requires vs != [] && vs' != [] && HeaderSegment(n, vs) == HeaderSegment(n', vs')
    requires !HeaderRunsInto(ToLower(n), ToLower(n')) && !HeaderRunsInto(ToLower(n'), ToLower(n))
    ensures ToLower(n) == ToLower(n') && vs == vs'
  {
    hide ToLower, Join, EscEach;
    var m, m', t, t' := ToLower(n), ToLower(n'), Join(EscEach(vs), ','), Join(EscEach(vs'), ',');
    DropTag(HEADER_LABEL, m, t, m', t');
    if |m| < |m'| {
      var rest := NamesShift(m, t, m', t');
      var ws := ValuesCut(vs, rest, t');
    }
    if |m'| < |m| {
      var rest := NamesShift(m', t', m, t);
      var ws := ValuesCut(vs', rest, t);
    }
    SameLengthNames(m, t, m', t');
    ValuesDetermined(vs, vs');
  }

  lemma ValuesDetermined(vs: seq<Bytes>, vs': seq<Bytes>)
    requires vs != [] && vs' != [] && Join(EscEach(vs), ',') == Join(EscEach(vs'), ',')
    ensures vs == vs'
  {
    EscEachFree(vs, ',');
    EscEachFree(vs', ',');
    hide Join;
    JoinInjective(EscEach(vs), EscEach(vs'), ',');
    forall i | 0 <= i < |vs| ensures vs[i] == vs'[i] {
      assert EscEach(vs)[i] == EscEach(vs')[i];
      EscInjective(Query, vs[i], vs'[i]);
    }
  }

  lemma CookieSegmentDetermined(n: Bytes, v: Bytes, n': Bytes, v': Bytes)
    requires !CookieRunsInto(n, n') && !CookieRunsInto(n', n) && CookieSegment(n, v) == CookieSegment(n', v')
    ensures n == n' && v == v'
  {
    hide Esc;
    DropTag(COOKIE_LABEL, n, Esc(Query, v), n', Esc(Query, v'));
    if |n| < |n'| {
      var rest := NamesShift(n, Esc(Query, v), n', Esc(Query, v'));
      var w := EscCut(v, rest, Esc(Query, v'));
    }
    if |n'| < |n| {
      var rest := NamesShift(n', Esc(Query, v'), n, Esc(Query, v));
      var w := EscCut(v', rest, Esc(Query, v));
    }
    SameLengthNames(n, Esc(Query, v), n', Esc(Query, v'));
    EscInjective(Query, v, v');
  }

  // ---------- Segments after the host ----------

  function SortedHeaders(cfg: CacheKey): seq<Bytes> { Sort(BYTE_ORDER, cfg.headerNames) }
  function SortedCookies(cfg: CacheKey): seq<Bytes> { Sort(BYTE_ORDER, cfg.cookieNames) }

  ghost predicate IsHeaderSegment(r: Request, cfg: CacheKey, s: Bytes) {
    exists h :: h in cfg.headerNames && HeaderValues(r, h) != [] && s == HeaderSegment(h, HeaderValues(r, h))
  }

  ghost predicate IsCookieSegment(r: Request, cfg: CacheKey, s: Bytes) {
    exists c :: c in cfg.cookieNames && CookieValue(r, c) != [] && s == CookieSegment(c, CookieValue(r, c))
  }

  lemma HeaderMembers(r: Request, cfg: CacheKey, s: Bytes)
    ensures s in HeaderSegments(r, SortedHeaders(cfg)) <==> IsHeaderSegment(r, cfg, s)
  {
    HeaderSegmentsOf(r, SortedHeaders(cfg));
    hide HeaderSegments, HeaderSegment, HeaderValues, SortedHeaders;
    forall h ensures h in SortedHeaders(cfg) <==> h in cfg.headerNames { SortedHeaderMembers(cfg, h); }
  }

  lemma CookieMembers(r: Request, cfg: CacheKey, s: Bytes)
    ensures s in CookieSegments(r, SortedCookies(cfg)) <==> IsCookieSegment(r, cfg, s)
  {
    CookieSegmentsOf(r, SortedCookies(cfg));
    hide CookieSegments, CookieSegment, CookieValue, SortedCookies;
    forall c ensures c in SortedCookies(cfg) <==> c in cfg.cookieNames { SortedCookieMembers(cfg, c); }
  }

  lemma SortedHeaderMembers(cfg: CacheKey, h: Bytes)
    ensures h in SortedHeaders(cfg) <==> h in cfg.headerNames
  {
    SortedMembers(cfg.headerNames, h);
  }

  lemma SortedCookieMembers(cfg: CacheKey, c: Bytes)
    ensures c in SortedCookies(cfg) <==> c in cfg.cookieNames
  {
    SortedMembers(cfg.cookieNames, c);
  }

  /** Every tail segment is one of five kinds. */
  ghost predicate IsTail(r: Request, cfg: CacheKey, s: Bytes) {
    || (cfg.includeProtocol && s == SchemeSegment(r))
    || (QueryPart(r.rawQuery, cfg) != [] && s == QuerySegment(r, cfg))
    || s == MethodSegment(r)
    || IsHeaderSegment(r, cfg, s)
    || IsCookieSegment(r, cfg, s)
  }

  lemma InParts(a: seq<Bytes>, b: seq<Bytes>, m: Bytes, h: seq<Bytes>, c: seq<Bytes>, s: Bytes)
    ensures s in a + (b + ([m] + (h + c))) <==> s in a || s in b || s == m || s in h || s in c
  {
  }

  lemma TailMembers(r: Request, cfg: CacheKey, s: Bytes)
    ensures s in TailSegments(r, cfg) <==> IsTail(r, cfg, s)
  {
    hide IsHeaderSegment, IsCookieSegment, HeaderSegments, CookieSegments, QueryPart, QuerySegment, MethodSegment, SchemeSegment;
    HeaderMembers(r, cfg, s);
    CookieMembers(r, cfg, s);
    InParts(Optional(cfg.includeProtocol, SchemeSegment(r)), Optional(QueryPart(r.rawQuery, cfg) != [], QuerySegment(r, cfg)),
            MethodSegment(r), HeaderSegments(r, SortedHeaders(cfg)), CookieSegments(r, SortedCookies(cfg)), s);
  }

  /** How the kinds look from the front. */
  lemma KindsDiffer(r: Request, cfg: CacheKey, s: Bytes)
    ensures s == SchemeSegment(r) ==> |s| > 1 && s[0] == 's'
    ensures s == QuerySegment(r, cfg) ==> |s| > 1 && s[0] == 'q'
    ensures s == MethodSegment(r) ==> |s| > 1 && s[0] == 'm'
    ensures IsHeaderSegment(r, cfg, s) ==> |s| > 1 && s[0] == 'h' && s[1] == 'e'
    ensures IsCookieSegment(r, cfg, s) ==> |s| > 1 && s[0] == 'c'
  {
    hide QueryPart, ResolveScheme, KeyMethod, HeaderValues, CookieValue, Join, Esc;
  }

  lemma TailOk(r: Request, cfg: CacheKey, s: Bytes)
    requires PlainNames(cfg) && KeyMethod(r) == "GET" && IsTail(r, cfg, s)
    ensures Free(s, ':') && !StartsHost(s)
  {
    hide QueryPart, ResolveScheme, KeyMethod, HeaderValues, CookieValue, HeaderSegment, CookieSegment, Esc;
    KindsDiffer(r, cfg, s);
    if s == QuerySegment(r, cfg) {
      QueryPartFree(r.rawQuery, cfg);
    } else if IsHeaderSegment(r, cfg, s) {
      var h :| h in cfg.headerNames && HeaderValues(r, h) != [] && s == HeaderSegment(h, HeaderValues(r, h));
      HeaderSegmentFree(h, HeaderValues(r, h));
    } else if IsCookieSegment(r, cfg, s) {
      var c :| c in cfg.cookieNames && CookieValue(r, c) != [] && s == CookieSegment(c, CookieValue(r, c));
      CookieSegmentFree(c, CookieValue(r, c));
    } else if s == MethodSegment(r) {
      assert s == METHOD_LABEL + "GET";
    } else {
      SchemeSegmentFree(r);
    }
  }

  lemma SchemeSegmentFree(r: Request)
    ensures Free(SchemeSegment(r), ':')
  {
  }

  lemma CookieSegmentFree(c: Bytes, v: Bytes)
    requires Free(c, ':')
    ensures Free(CookieSegment(c, v), ':')
  {
    EscFree(Query, v, ':');
  }

  lemma HeaderSegmentFree(h: Bytes, vs: seq<Bytes>)
    requires vs != [] && Free(h, ':')
    ensures Free(HeaderSegment(h, vs), ':')
  {
    LowerFree(h, ':');
    EscEachFree(vs, ':');
    JoinFree(EscEach(vs), ',', ':');
  }

  lemma TailStarts(r: Request, cfg: CacheKey)
    ensures TailSegments(r, cfg) != [] && '=' in TailSegments(r, cfg)[0]
  {
    hide HeaderSegments, CookieSegments, QueryPart, ResolveScheme, KeyMethod;
    assert SchemeSegment(r)[1] == '=' && MethodSegment(r)[1] == '=' && QuerySegment(r, cfg)[2] == '=';
  }

  /** Included headers and cookies agree. */
  ghost predicate SameExtras(r1: Request, r2: Request, cfg: CacheKey) {
    && (forall h :: h in cfg.headerNames ==> HeaderValues(r1, h) == HeaderValues(r2, h))
    && (forall c :: c in cfg.cookieNames ==> CookieValue(r1, c) == CookieValue(r2, c))
  }

  /** The same texts are header segments, and the same are cookie segments. */
  ghost predicate SameKinds(r1: Request, r2: Request, cfg: CacheKey) {
    && (forall s :: IsHeaderSegment(r1, cfg, s) <==> IsHeaderSegment(r2, cfg, s))
    && (forall s :: IsCookieSegment(r1, cfg, s) <==> IsCookieSegment(r2, cfg, s))
  }

  /** Equal header and cookie segments come from equal headers and cookies. */
  lemma ExtrasDetermine(r1: Request, r2: Request, cfg: CacheKey)
    requires PlainNames(cfg) && SameKinds(r1, r2, cfg)
    ensures SameExtras(r1, r2, cfg)
  {
    hide HeaderValues, CookieValue, IsHeaderSegment, IsCookieSegment, PlainNames;
    forall h | h in cfg.headerNames ensures HeaderValues(r1, h) == HeaderValues(r2, h) {
      HeaderCarried(r1, r2, cfg, h);
      HeaderCarried(r2, r1, cfg, h);
    }
    forall c | c in cfg.cookieNames ensures CookieValue(r1, c) == CookieValue(r2, c) {
      CookieCarried(r1, r2, cfg, c);
      CookieCarried(r2, r1, cfg, c);
    }
  }

  lemma TailKinds(r1: Request, r2: Request, cfg: CacheKey, s: Bytes)
    requires IsTail(r1, cfg, s) <==> IsTail(r2, cfg, s)
    ensures IsHeaderSegment(r1, cfg, s) <==> IsHeaderSegment(r2, cfg, s)
    ensures IsCookieSegment(r1, cfg, s) <==> IsCookieSegment(r2, cfg, s)
  {
    hide IsHeaderSegment, IsCookieSegment, QuerySegment, MethodSegment, SchemeSegment, QueryPart;
    KindsDiffer(r1, cfg, s);
    KindsDiffer(r2, cfg, s);
  }

  /** Equal tails come from equal parts. */
  lemma TailDetermines(r1: Request, r2: Request, cfg: CacheKey)
    requires PlainNames(cfg) && TailSegments(r1, cfg) == TailSegments(r2, cfg)
    ensures cfg.includeProtocol ==> ResolveScheme(r1) == ResolveScheme(r2)
    ensures QueryPart(r1.rawQuery, cfg) == QueryPart(r2.rawQuery, cfg)
    ensures SameExtras(r1, r2, cfg)
  {
    hide TailSegments, IsTail, QueryPart, ResolveScheme, PlainNames, SameExtras, IsHeaderSegment, IsCookieSegment;
    forall s ensures IsTail(r1, cfg, s) <==> IsTail(r2, cfg, s) { TailMembers(r1, cfg, s); TailMembers(r2, cfg, s); }
    if cfg.includeProtocol { SchemeCarried(r1, r2, cfg); }
    QueryCarried(r1, r2, cfg);
    QueryCarried(r2, r1, cfg);
    forall s ensures IsHeaderSegment(r1, cfg, s) <==> IsHeaderSegment(r2, cfg, s) { TailKinds(r1, r2, cfg, s); }
    forall s ensures IsCookieSegment(r1, cfg, s) <==> IsCookieSegment(r2, cfg, s) { TailKinds(r1, r2, cfg, s); }
    ExtrasDetermine(r1, r2, cfg);
  }

  lemma SchemeCarried(r1: Request, r2: Request, cfg: CacheKey)
    requires cfg.includeProtocol && (IsTail(r1, cfg, SchemeSegment(r1)) ==> IsTail(r2, cfg, SchemeSegment(r1)))
    ensures ResolveScheme(r1) == ResolveScheme(r2)
  {
    hide ResolveScheme, QueryPart;
    KindsDiffer(r2, cfg, SchemeSegment(r1));
    KindsDiffer(r1, cfg, SchemeSegment(r1));
    hide IsHeaderSegment, IsCookieSegment, QuerySegment, MethodSegment;
    assert SchemeSegment(r1) == SchemeSegment(r2);
    assert ResolveScheme(r1) == SchemeSegment(r1)[2..] && ResolveScheme(r2) == SchemeSegment(r2)[2..];
  }

  lemma QueryCarried(r1: Request, r2: Request, cfg: CacheKey)
    requires IsTail(r1, cfg, QuerySegment(r1, cfg)) ==> IsTail(r2, cfg, QuerySegment(r1, cfg))
    ensures QueryPart(r1.rawQuery, cfg) != [] ==> QueryPart(r1.rawQuery, cfg) == QueryPart(r2.rawQuery, cfg)
  {
    hide QueryPart;
    KindsDiffer(r2, cfg, QuerySegment(r1, cfg));
    KindsDiffer(r1, cfg, QuerySegment(r1, cfg));
    hide IsHeaderSegment, IsCookieSegment, SchemeSegment, MethodSegment;
    var q1, q2 := QueryPart(r1.rawQuery, cfg), QueryPart(r2.rawQuery, cfg);
    if q1 != [] {
      assert QuerySegment(r1, cfg) == QuerySegment(r2, cfg);
      assert q1 == QuerySegment(r1, cfg)[3..] && q2 == QuerySegment(r2, cfg)[3..];
    }
  }

  lemma HeaderCarried(r1: Request, r2: Request, cfg: CacheKey, h: Bytes)
    requires PlainNames(cfg) && h in cfg.headerNames && forall s :: IsHeaderSegment(r1, cfg, s) ==> IsHeaderSegment(r2, cfg, s)
    ensures HeaderValues(r1, h) != [] ==> HeaderValues(r1, h) == HeaderValues(r2, h)
  {
    hide HeaderSegment, HeaderValues, ToLower, HeaderRunsInto;
    var vs := HeaderValues(r1, h);
    if vs != [] {
      var s := HeaderSegment(h, vs);
      assert IsHeaderSegment(r1, cfg, s);
      var h' :| h' in cfg.headerNames && HeaderValues(r2, h') != [] && s == HeaderSegment(h', HeaderValues(r2, h'));
      HeaderSegmentDetermined(h, vs, h', HeaderValues(r2, h'));
      SameLower(r2, h, h');
    }
  }

  lemma SameLower(r: Request, h: Bytes, h': Bytes)
    requires ToLower(h) == ToLower(h')
    ensures HeaderValues(r, h) == HeaderValues(r, h')
  {
  }

  lemma CookieCarried(r1: Request, r2: Request, cfg: CacheKey, c: Bytes)
    requires PlainNames(cfg) && c in cfg.cookieNames && forall s :: IsCookieSegment(r1, cfg, s) ==> IsCookieSegment(r2, cfg, s)
    ensures CookieValue(r1, c) != [] ==> CookieValue(r1, c) == CookieValue(r2, c)
  {
    hide CookieSegment, CookieValue, CookieRunsInto;
    var v := CookieValue(r1, c);
    if v != [] {
      var s := CookieSegment(c, v);
      assert IsCookieSegment(r1, cfg, s);
      var c' :| c' in cfg.cookieNames && CookieValue(r2, c') != [] && s == CookieSegment(c', CookieValue(r2, c'));
      CookieSegmentDetermined(c, v, c', CookieValue(r2, c'));
    }
  }

  // ---------- Keys and requests ----------

  lemma HostSplits(host: Bytes)
    requires Free(host, '=')
    ensures HostPieces(Split(HOST_LABEL + host, ':'))
  {
    var t: Bytes := ['='] + host;
    assert HOST_LABEL + host == ['h'] + t;
    SplitCons('=', host, ':');
    SplitCons('h', t, ':');
    FreePieces(host, ':', '=');
    hide Split;
    var r := Split(host, ':');
    assert Split(t, ':') == [['='] + r[0]] + r[1..];
    assert Split(HOST_LABEL + host, ':') == [['h'] + (['='] + r[0])] + r[1..];
  }

  /** The pieces of a key between colons. */
  lemma KeyPieces(r: Request, cfg: CacheKey)
    requires PlainNames(cfg) && Plain(r, cfg)
    ensures Split(KeyOf(r, cfg), ':')
         == Split(PathSegment(r, cfg), ':') + Split(HostSegment(r, cfg), ':') + (TailSegments(r, cfg) + [[]])
    ensures HostPieces(Split(HostSegment(r, cfg), ':')) && TailPieces(TailSegments(r, cfg) + [[]])
  {
    hide PathSegment, HostSegment, TailSegments, Split, Free, KeyHost, StartsHost, HostPieces;
    var p, h, t := PathSegment(r, cfg), HostSegment(r, cfg), TailSegments(r, cfg);
    HostSegmentSplits(r, cfg);
    TailStarts(r, cfg);
    TailAllOk(r, cfg);
    EmptyIsTail();
    SplitClosed(t);
    KeyIsClosed(r, cfg);
    SplitConcat(h, ':', Closed(t));
    SplitConcat(p, ':', h + [':'] + Closed(t));
    Reassociate(Split(p, ':'), Split(h, ':'), t + [[]]);
  }

  lemma EmptyIsTail()
    ensures !StartsHost([])
  {
  }

  lemma Reassociate(a: seq<Bytes>, b: seq<Bytes>, c: seq<Bytes>)
    ensures a + (b + c) == a + b + c
  {
  }

  lemma KeyIsClosed(r: Request, cfg: CacheKey)
    requires KeyHost(r, cfg) != []
    ensures KeyOf(r, cfg) == PathSegment(r, cfg) + [':'] + (HostSegment(r, cfg) + [':'] + Closed(TailSegments(r, cfg)))
  {
    hide PathSegment, HostSegment, TailSegments, Closed;
    var p, h, t := PathSegment(r, cfg), HostSegment(r, cfg), TailSegments(r, cfg);
    ClosedCons(h, t);
    ClosedCons(p, [h] + t);
  }

  lemma ClosedCons(s: Bytes, segs: seq<Bytes>)
    ensures Closed([s] + segs) == s + [':'] + Closed(segs)
  {
    assert ([s] + segs)[1..] == segs;
  }

  lemma HostSegmentSplits(r: Request, cfg: CacheKey)
    requires Plain(r, cfg)
    ensures HostPieces(Split(HostSegment(r, cfg), ':'))
  {
    HostSplits(KeyHost(r, cfg));
  }

  lemma TailAllOk(r: Request, cfg: CacheKey)
    requires PlainNames(cfg) && KeyMethod(r) == "GET"
    ensures var t := TailSegments(r, cfg); forall i :: 0 <= i < |t| ==> Free(t[i], ':') && !StartsHost(t[i])
  {
    hide TailSegments, IsTail, StartsHost;
    var t := TailSegments(r, cfg);
    forall i | 0 <= i < |t| ensures Free(t[i], ':') && !StartsHost(t[i]) {
      TailMembers(r, cfg, t[i]);
      TailOk(r, cfg, t[i]);
    }
  }

  /** Equal segments come from equal parts. */
  lemma SegmentsDetermine(r1: Request, r2: Request, cfg: CacheKey)
    requires PlainNames(cfg) && Plain(r1, cfg) && Plain(r2, cfg)
    requires PathSegment(r1, cfg) == PathSegment(r2, cfg) && HostSegment(r1, cfg) == HostSegment(r2, cfg)
    requires TailSegments(r1, cfg) == TailSegments(r2, cfg)
    ensures SameParts(r1, r2, cfg)
  {
    hide TailSegments, KeyPath, KeyHost, HeaderValues, CookieValue, QueryPart, ResolveScheme, PlainNames, Esc;
    TailDetermines(r1, r2, cfg);
    var p1, p2, h1, h2 := PathSegment(r1, cfg), PathSegment(r2, cfg), HostSegment(r1, cfg), HostSegment(r2, cfg);
    assert KeyHost(r1, cfg) == h1[2..] && KeyHost(r2, cfg) == h2[2..];
    assert EscapedPath(KeyPath(r1.path, cfg)) == p1[2..] && EscapedPath(KeyPath(r2.path, cfg)) == p2[2..];
    EscInjective(Path, KeyPath(r1.path, cfg), KeyPath(r2.path, cfg));
  }

  lemma WithoutEnd(a: seq<Bytes>, b: seq<Bytes>)
    requires a + [[]] == b + [[]]
    ensures a == b
  {
    assert a == (a + [[]])[..|a|] && b == (b + [[]])[..|b|];
  }

  lemma KeysDetermine(r1: Request, r2: Request, cfg: CacheKey)
    requires PlainNames(cfg) && Plain(r1, cfg) && Plain(r2, cfg) && KeyOf(r1, cfg) == KeyOf(r2, cfg)
    ensures SameParts(r1, r2, cfg)
  {
    hide Split, Join, TailSegments, KeyOf, HostPieces, TailPieces, PathSegment, HostSegment, PlainNames, Plain, SameParts;
    KeyPieces(r1, cfg);
    KeyPieces(r2, cfg);
    var p1, h1, t1 := PathSegment(r1, cfg), HostSegment(r1, cfg), TailSegments(r1, cfg);
    var p2, h2, t2 := PathSegment(r2, cfg), HostSegment(r2, cfg), TailSegments(r2, cfg);
    PiecesDetermined(Split(p1, ':'), Split(h1, ':'), t1 + [[]], Split(p2, ':'), Split(h2, ':'), t2 + [[]]);
    JoinSplit(p1, ':');
    JoinSplit(p2, ':');
    JoinSplit(h1, ':');
    JoinSplit(h2, ':');
    WithoutEnd(t1, t2);
    SegmentsDetermine(r1, r2, cfg);
  }

  lemma {:induction false} SegmentsAgree(r1: Request, r2: Request, hs: seq<Bytes>, cs: seq<Bytes>)
    requires forall h :: h in hs ==> HeaderValues(r1, h) == HeaderValues(r2, h)
    requires forall c :: c in cs ==> CookieValue(r1, c) == CookieValue(r2, c)
    ensures HeaderSegments(r1, hs) == HeaderSegments(r2, hs) && CookieSegments(r1, cs) == CookieSegments(r2, cs)
    decreases |hs| + |cs|
  {
    hide HeaderValues, CookieValue, HeaderSegment, CookieSegment;
    if hs != [] {
      assert hs[0] in hs;
      SegmentsAgree(r1, r2, hs[1..], cs);
    } else if cs != [] {
      assert cs[0] in cs;
      SegmentsAgree(r1, r2, hs, cs[1..]);
    }
  }

  /** Two GET or HEAD requests share a key exactly when they agree on cleaned path, normalised
      host, included scheme, filtered query, included header values and included cookies. */
  lemma KeysEqualExactly(r1: Request, r2: Request, cfg: CacheKey)
    requires PlainNames(cfg) && Plain(r1, cfg) && Plain(r2, cfg)
    ensures KeyOf(r1, cfg) == KeyOf(r2, cfg) <==> SameParts(r1, r2, cfg)
  {
    if KeyOf(r1, cfg) == KeyOf(r2, cfg) { KeysDetermine(r1, r2, cfg); }
    hide HeaderSegments, CookieSegments, KeyPath, KeyHost, QueryPart, ResolveScheme, HeaderValues, CookieValue, Sort;
    if SameParts(r1, r2, cfg) {
      forall h ensures h in SortedHeaders(cfg) <==> h in cfg.headerNames { SortedHeaderMembers(cfg, h); }
      forall c ensures c in SortedCookies(cfg) <==> c in cfg.cookieNames { SortedCookieMembers(cfg, c); }
      SegmentsAgree(r1, r2, SortedHeaders(cfg), SortedCookies(cfg));
    }
  }

  // ---------- The builder ----------

  lemma {:induction false} ClosedSnoc(segs: seq<Bytes>, s: Bytes)
    ensures Closed(segs + [s]) == Closed(segs) + s + [':']
  {
    if segs == [] {
      assert segs + [s] == [s];
      ClosedCons(s, []);
      assert [s] + [] == [s];
    } else {
      ClosedSnoc(segs[1..], s);
      assert segs + [s] == [segs[0]] + (segs[1..] + [s]) && segs == [segs[0]] + segs[1..];
      ClosedCons(segs[0], segs[1..] + [s]);
      ClosedCons(segs[0], segs[1..]);
    }
  }

  /** Write one segment: label, value, colon. */
  method WriteSegment(buf: Bytes, tag: Bytes, value: Bytes, ghost done: seq<Bytes>) returns (out: Bytes)
    requires buf == Closed(done)
    ensures out == Closed(done + [tag + value])
  {
    hide Closed;
    ClosedSnoc(done, tag + value);
    out := buf;
    out := out + tag;
    out := out + value;
    out := out + [':'];
  }

  /** Values of one header: escaped, comma-separated. */
  method WriteValues(vs: seq<Bytes>) returns (out: Bytes)
    requires vs != []
    ensures out == Join(EscEach(TrimAll(vs)), ',')
  {
    hide Join, Esc, TrimSpace;
    ghost var all := EscEach(TrimAll(vs));
    out := [];
    for i := 0 to |vs|
      invariant i == 0 ==> out == []
      invariant i > 0 ==> out == Join(all[..i], ',')
    {
      assert all[..i + 1] == all[..i] + [all[i]];
      if i > 0 {
        JoinSnoc(all[..i], all[i], ',');
        out := out + [','];
      } else {
        JoinOne(all[0]);
        assert all[..1] == [all[0]];
      }
      out := out + Esc(Query, TrimSpace(vs[i]));
    }
    assert all[..|vs|] == all;
  }

  lemma JoinOne(s: Bytes)
    ensures Join([s], ',') == s
  {
  }

  lemma HeaderStep(r: Request, names: seq<Bytes>, i: nat)
    requires i < |names|
    ensures var vs, rest := HeaderValues(r, names[i]), HeaderSegments(r, names[i + 1..]);
      HeaderSegments(r, names[i..]) == if vs == [] then rest else [HeaderSegment(names[i], vs)] + rest
  {
    hide HeaderSegment, HeaderValues;
    assert names[i..][1..] == names[i + 1..];
  }

  lemma HeadersNothing(r: Request)
    ensures HeaderSegments(r, []) == []
  {
  }

  method WriteHeaders(buf: Bytes, r: Request, names: seq<Bytes>, ghost before: seq<Bytes>) returns (out: Bytes)
    requires buf == Closed(before)
    ensures out == Closed(before + HeaderSegments(r, names))
  {
    hide Closed, Join, HeaderSegment, HeaderSegments;
    out := buf;
    ghost var done := before;
    assert names[0..] == names;
    for i := 0 to |names|
      invariant out == Closed(done)
      invariant done + HeaderSegments(r, names[i..]) == before + HeaderSegments(r, names)
    {
      HeaderStep(r, names, i);
      var lower: Bytes := ToLower(names[i]);
      if lower !in r.headers || |r.headers[lower]| == 0 {
        continue;
      }
      var values := WriteValues(r.headers[lower]);
      HeaderText(names[i], HeaderValues(r, names[i]));
      ghost var seg := HeaderSegment(names[i], HeaderValues(r, names[i]));
      Reassociate(done, [seg], HeaderSegments(r, names[i + 1..]));
      out := WriteSegment(out, HEADER_LABEL, lower + ['~'] + values, done);
      done := done + [seg];
    }
    HeadersNothing(r);
    assert names[|names|..] == [];
    assert done == before + HeaderSegments(r, names);
  }

  lemma HeaderText(name: Bytes, vs: seq<Bytes>)
    requires vs != []
    ensures HEADER_LABEL + (ToLower(name) + ['~'] + Join(EscEach(vs), ',')) == HeaderSegment(name, vs)
  {
    hide Join;
  }

  method WriteCookies(buf: Bytes, r: Request, names: seq<Bytes>, ghost before: seq<Bytes>) returns (out: Bytes)
    requires buf == Closed(before)
    ensures out == Closed(before + CookieSegments(r, names))
  {
    hide Closed, Esc, CookieSegment;
    out := buf;
    ghost var done := before;
    for i := 0 to |names|
      invariant out == Closed(done)
      invariant done + CookieSegments(r, names[i..]) == before + CookieSegments(r, names)
    {
      assert names[i..][1..] == names[i + 1..];
      if names[i] !in r.cookies || r.cookies[names[i]] == [] {
        continue;
      }
      var v := r.cookies[names[i]];
      CookieText(names[i], v);
      out := WriteSegment(out, COOKIE_LABEL, names[i] + ['~'] + Esc(Query, v), done);
      done := done + [CookieSegment(names[i], v)];
    }
    assert done == before + CookieSegments(r, names);
  }

  lemma CookieText(name: Bytes, v: Bytes)
    ensures COOKIE_LABEL + (name + ['~'] + Esc(Query, v)) == CookieSegment(name, v)
  {
    hide Esc;
  }

  method BuildQueryPart(raw: Bytes, cfg: CacheKey) returns (qs: Bytes)
    ensures qs == QueryPart(raw, cfg)
  {
    hide SortedQuery, OrderedQuery;
    if cfg.excludeQuery || raw == [] {
      return [];
    }
    if cfg.preserveQueryOrder {
      qs := BuildUnsortedQueryString(raw, cfg);
    } else {
      qs := BuildSortedQueryString(raw, cfg);
    }
  }

  /** The host a key is made from. */
  method ReadHost(r: Request, cfg: CacheKey) returns (host: Bytes)
    ensures host == KeyHost(r, cfg)
  {
    host := [];
    if !cfg.excludeHost {
      host := r.host;
      if host == [] { host := r.urlHost; }
      if host != [] { host := NormalizeHost(host, ResolveScheme(r)); }
    }
  }

  /** Assemble the primary key in one pass over its segments. */
  method GeneratePrimaryKey(r: Request, cfg: CacheKey) returns (key: Bytes)
    ensures key == KeyOf(r, cfg)
  {
    hide Closed, QueryPart, HeaderSegments, CookieSegments, KeyPath, EscapedPath, KeyHost, Sort, ResolveScheme, KeySegments;
    ghost var segs: seq<Bytes> := [];
    ClosedNothing();
    var path := WriteEscapedPath(KeyPath(r.path, cfg));
    key := WriteSegment([], PATH_LABEL, path, segs);
    segs := segs + [PathSegment(r, cfg)];
    var host := ReadHost(r, cfg);
    if host != [] {
      key := WriteSegment(key, HOST_LABEL, host, segs);
      segs := segs + [HostSegment(r, cfg)];
    }
    if cfg.includeProtocol {
      key := WriteSegment(key, SCHEME_LABEL, ResolveScheme(r), segs);
      segs := segs + [SchemeSegment(r)];
    }
    var qs := BuildQueryPart(r.rawQuery, cfg);
    if qs != [] {
      key := WriteSegment(key, QUERY_LABEL, qs, segs);
      segs := segs + [QuerySegment(r, cfg)];
    }
    key := WriteSegment(key, METHOD_LABEL, KeyMethod(r), segs);
    segs := segs + [MethodSegment(r)];
    ghost var hs, cs := HeaderSegments(r, Sort(BYTE_ORDER, cfg.headerNames)), CookieSegments(r, Sort(BYTE_ORDER, cfg.cookieNames));
    key := WriteHeaders(key, r, Sort(BYTE_ORDER, cfg.headerNames), segs);
    key := WriteCookies(key, r, Sort(BYTE_ORDER, cfg.cookieNames), segs + hs);
    AllSegments(r, cfg, segs, hs, cs);
  }

  lemma ClosedNothing()
    ensures Closed([]) == []
  {
  }

  lemma AllSegments(r: Request, cfg: CacheKey, segs: seq<Bytes>, hs: seq<Bytes>, cs: seq<Bytes>)
    requires hs == HeaderSegments(r, Sort(BYTE_ORDER, cfg.headerNames))
    requires cs == CookieSegments(r, Sort(BYTE_ORDER, cfg.cookieNames))
    requires segs == [PathSegment(r, cfg)] + Optional(KeyHost(r, cfg) != [], HostSegment(r, cfg))
      + Optional(cfg.includeProtocol, SchemeSegment(r)) + Optional(QueryPart(r.rawQuery, cfg) != [], QuerySegment(r, cfg))
      + [MethodSegment(r)]
    ensures segs + hs + cs == KeySegments(r, cfg)
  {
    hide PathSegment, HostSegment, SchemeSegment, QuerySegment, MethodSegment, HeaderSegments, CookieSegments, Sort, QueryPart, KeyHost, Optional;
  }

  // ---------- Where keys fail to tell requests apart ----------

  lemma {:induction false} KeptEscapes(s: Bytes)
    requires forall i :: 0 <= i < |s| ==> Keeps(Path, s[i])
    ensures Esc(Path, s) == s
  {
    if s != [] {
      KeptEscapes(s[1..]);
      assert s == [s[0]] + s[1..];
    }
  }

  lemma TildeEscaped(a: Bytes, b: Bytes)
    ensures Esc(Query, a + ['~'] + b) == Esc(Query, a) + ['~'] + Esc(Query, b)
  {
    EscConcat(Query, a + ['~'], b);
    EscConcat(Query, a, ['~']);
    assert Esc(Query, ['~']) == ['~'];
  }

  /** Values `ws` with a tilde and `v` after the last of them. */
  function Extended(ws: seq<Bytes>, v: Bytes): seq<Bytes>
    requires ws != []
  {
    ws[..|ws| - 1] + [ws[|ws| - 1] + ['~'] + v]
  }

  lemma {:induction false} EscEachSnoc(ws: seq<Bytes>, x: Bytes)
    ensures EscEach(ws + [x]) == EscEach(ws) + [Esc(Query, x)]
  {
    hide Esc;
    if ws == [] {
      assert ws + [x] == [x] && [x][1..] == [];
    } else {
      assert (ws + [x])[1..] == ws[1..] + [x];
      EscEachSnoc(ws[1..], x);
    }
  }

  /** Joined texts with `t` after the last of them. */
  lemma JoinExtended(es: seq<Bytes>, e: Bytes, t: Bytes)
    ensures Join(es + [e + t], ',') == Join(es + [e], ',') + t
  {
    hide Join;
    if es == [] {
      JoinSingle(e, ',');
      JoinSingle(e + t, ',');
      assert es + [e] == [e] && es + [e + t] == [e + t];
    } else {
      JoinSnoc(es, e, ',');
      JoinSnoc(es, e + t, ',');
    }
  }

  lemma ExtendedText(ws: seq<Bytes>, v: Bytes)
    requires ws != []
    ensures Join(EscEach(Extended(ws, v)), ',') == Join(EscEach(ws), ',') + ['~'] + Esc(Query, v)
  {
    hide Esc, Join, EscEach;
    var init, x := ws[..|ws| - 1], ws[|ws| - 1];
    assert ws == init + [x];
    EscEachSnoc(init, x);
    EscEachSnoc(init, x + ['~'] + v);
    TildeEscaped(x, v);
    var t := ['~'] + Esc(Query, v);
    assert Esc(Query, x + ['~'] + v) == Esc(Query, x) + t;
    JoinExtended(EscEach(init), Esc(Query, x), t);
  }

  /** A header name that runs into another passes for it: with the tail of the longer name and a tilde before its value,
      the shorter header writes the same segment. */
  lemma TildeForgesHeader(n: Bytes, ws: seq<Bytes>, v: Bytes)
    requires ws != [] && ToLower(n) == n
    requires var long := n + ['~'] + Join(EscEach(ws), ','); ToLower(long) == long
    ensures HeaderSegment(n, Extended(ws, v)) == HeaderSegment(n + ['~'] + Join(EscEach(ws), ','), [v])
  {
    hide Esc, Join, ToLower, Extended, EscEach;
    ExtendedText(ws, v);
    OneValue(v);
    TildeText(HEADER_LABEL, n, Join(EscEach(ws), ','), Esc(Query, v));
  }

  lemma OneValue(v: Bytes)
    ensures Join(EscEach([v]), ',') == Esc(Query, v)
  {
    hide Esc;
    EscEachCons([v]);
  }

  lemma TildeText(l: Bytes, n: Bytes, t: Bytes, e: Bytes)
    ensures l + n + ['~'] + (t + ['~'] + e) == l + (n + ['~'] + t) + ['~'] + e
  {
  }

  /** The same for cookies. */
  lemma TildeForgesCookie(n: Bytes, w: Bytes, v: Bytes)
    ensures CookieSegment(n, w + ['~'] + v) == CookieSegment(n + ['~'] + Esc(Query, w), v)
  {
    hide Esc;
    TildeEscaped(w, v);
    TildeText(COOKIE_LABEL, n, Esc(Query, w), Esc(Query, v));
  }

  ghost predicate HeadersCollide(n: Bytes, n': Bytes) {
    exists vs, vs' :: vs != [] && vs' != [] && HeaderSegment(n, vs) == HeaderSegment(n', vs')
  }

  /** Two header names can write the same segment exactly when one runs into the other. */
  lemma HeadersCollideExactly(n: Bytes, n': Bytes)
    requires ToLower(n) == n && ToLower(n') == n' && n != n'
    ensures HeadersCollide(n, n') <==> HeaderRunsInto(n, n') || HeaderRunsInto(n', n)
  {
    hide ToLower, HeaderSegment;
    if HeadersCollide(n, n') && !HeaderRunsInto(n, n') && !HeaderRunsInto(n', n) {
      var vs, vs' :| vs != [] && vs' != [] && HeaderSegment(n, vs) == HeaderSegment(n', vs');
      HeaderSegmentDetermined(n, vs, n', vs');
    }
    if HeaderRunsInto(n, n') {
      var ws: seq<Bytes> :| ws != [] && n' == n + ['~'] + Join(EscEach(ws), ',');
      TildeForgesHeader(n, ws, []);
      var ext := Extended(ws, []);
      assert HeaderSegment(n, ext) == HeaderSegment(n', [[]]);
    }
    if HeaderRunsInto(n', n) {
      var ws: seq<Bytes> :| ws != [] && n == n' + ['~'] + Join(EscEach(ws), ',');
      TildeForgesHeader(n', ws, []);
      var ext := Extended(ws, []);
      assert HeaderSegment(n, [[]]) == HeaderSegment(n', ext);
    }
  }

  // ---------- Cleaning ----------

  ghost predicate CleanStack(st: seq<Bytes>) {
    forall i :: 0 <= i < |st| ==> st[i] != [] && st[i] != "." && st[i] != ".." && Free(st[i], '/')
  }

  lemma {:induction false} CleanedIsClean(segs: seq<Bytes>, stack: seq<Bytes>)
    requires CleanStack(stack) && forall i :: 0 <= i < |segs| ==> Free(segs[i], '/')
    ensures CleanStack(CleanSegments(segs, true, stack))
    decreases |segs|
  {
    if segs != [] {
      if segs[0] == [] || segs[0] == "." {
        CleanedIsClean(segs[1..], stack);
      } else if segs[0] == ".." {
        CleanedIsClean(segs[1..], if stack == [] then stack else stack[..|stack| - 1]);
      } else {
        CleanedIsClean(segs[1..], stack + [segs[0]]);
      }
    }
  }

  lemma {:induction false} CleanStays(segs: seq<Bytes>, stack: seq<Bytes>)
    requires CleanStack(segs)
    ensures CleanSegments(segs, true, stack) == stack + segs
    decreases |segs|
  {
    if segs != [] {
      CleanStays(segs[1..], stack + [segs[0]]);
      assert segs == [segs[0]] + segs[1..];
    }
  }

  /** Cleaning a rooted path leaves no empty, `.` or `..` segment, and cleaning again changes
      nothing. */
  lemma CleanCanonical(p: Bytes)
    requires Rooted(p)
    ensures Clean(p) == "/" || CleanStack(Split(Clean(p)[1..], '/'))
    ensures Clean(Clean(p)) == Clean(p)
  {
    SplitApart(p, '/');
    var st := CleanSegments(Split(p, '/'), true, []);
    CleanedIsClean(Split(p, '/'), []);
    var c := Clean(p);
    hide Split, Join;
    if st == [] {
      SplitSlash([]);
      SplitNone('/');
      assert c == ['/'] + [];
      var blank: seq<Bytes> := [[], []];
      assert [[]] + [[]] == blank && blank[1..] == [[]] && blank[1..][1..] == [];
      assert CleanSegments(blank[1..], true, []) == [];
      assert CleanSegments(Split(c, '/'), true, []) == [];
    } else {
      SplitJoin(st, '/');
      SplitSlash(Join(st, '/'));
      assert c[1..] == Join(st, '/');
      CleanStays(st, []);
      assert c == ['/'] + Join(st, '/');
      var full := Split(c, '/');
      assert full == [[]] + st && full[1..] == st && [] + st == st;
      assert CleanSegments(full, true, []) == CleanSegments(full[1..], true, []);
    }
  }

  lemma SplitSlash(s: Bytes)
    ensures Split(['/'] + s, '/') == [[]] + Split(s, '/')
  {
    SplitCons('/', s, '/');
  }
}
