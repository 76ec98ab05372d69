/** Purge targets: glob patterns over cache keys, and which keys they select. */
module Purge {
  import opened KeyBytes
  import opened UrlEscape
  import opened QueryString
  import opened PrimaryKey

  // ---------- Globs ----------

  /** A compiled pattern: literal byte, any one byte, any run of bytes. */
  datatype Tok = Lit(c: Byte) | One | Run

  /** `\` escapes the byte after it; a trailing `\` is literal. */
  function Compile(p: Bytes): seq<Tok> {
    if p == [] then []
    else if p[0] == '\\' && |p| > 1 then [Lit(p[1])] + Compile(p[2..])
    else [if p[0] == '*' then Run else if p[0] == '?' then One else Lit(p[0])] + Compile(p[1..])
  }

  /** Full match; wildcards do not cross a newline. */
  predicate Matches(ts: seq<Tok>, s: Bytes)
    decreases |ts| + |s|
  {
    if ts == [] then s == []
    else
      match ts[0]
      case Lit(c) => s != [] && s[0] == c && Matches(ts[1..], s[1..])
      case One => s != [] && s[0] != '\n' && Matches(ts[1..], s[1..])
      case Run => Matches(ts[1..], s) || (s != [] && s[0] != '\n' && Matches(ts, s[1..]))
  }

  /** Translate a pattern byte by byte and match the whole key. */
  method MatchGlob(pattern: Bytes, s: Bytes) returns (ok: bool)
    ensures ok == Matches(Compile(pattern), s)
  {
    hide Matches, Compile;
    var toks: seq<Tok> := [];
    var i := 0;
    assert pattern[0..] == pattern;
    while i < |pattern|
      invariant 0 <= i <= |pattern|
      invariant toks + Compile(pattern[i..]) == Compile(pattern)
    {
      var c := pattern[i];
      var tok, n := if c == '*' then Run else if c == '?' then One else Lit(c), 1;
      if c == '\\' && i + 1 < |pattern| { tok, n := Lit(pattern[i + 1]), 2; }
      CompileNext(pattern, i, tok, n);
      Appended(toks, tok, Compile(pattern[i + n..]));
      toks, i := toks + [tok], i + n;
    }
    assert pattern[i..] == [];
    CompileNothing();
    assert toks == Compile(pattern);
    return Matches(toks, s);
  }

  lemma Appended(toks: seq<Tok>, tok: Tok, rest: seq<Tok>)
    ensures toks + ([tok] + rest) == toks + [tok] + rest
  {
  }

  lemma CompileNext(p: Bytes, i: nat, tok: Tok, n: nat)
    requires i < |p|
    requires if p[i] == '\\' && i + 1 < |p| then tok == Lit(p[i + 1]) && n == 2
      else tok == (if p[i] == '*' then Run else if p[i] == '?' then One else Lit(p[i])) && n == 1
    ensures i + n <= |p| && Compile(p[i..]) == [tok] + Compile(p[i + n..])
  {
    hide Compile;
    CompileStep(p, i);
  }

  lemma CompileNothing()
    ensures Compile([]) == []
  {
  }

  lemma CompileStep(p: Bytes, i: nat)
    requires i < |p|
    ensures Compile(p[i..]) ==
      if p[i] == '\\' && i + 1 < |p| then [Lit(p[i + 1])] + Compile(p[i + 2..])
      else [if p[i] == '*' then Run else if p[i] == '?' then One else Lit(p[i])] + Compile(p[i + 1..])
  {
    assert p[i..][1..] == p[i + 1..];
    if i + 1 < |p| { assert p[i..][2..] == p[i + 2..]; }
  }

  /** Bytes that stand for themselves in a pattern. */
  predicate Meta(c: Byte) { c == '*' || c == '?' || c == '\\' }

  ghost predicate Literal(p: Bytes) { forall i :: 0 <= i < |p| ==> !Meta(p[i]) }

  lemma {:induction false} LiteralMatches(p: Bytes, q: Bytes, s: Bytes)
    requires Literal(p)
    ensures Matches(Compile(p + q), s) <==> p <= s && Matches(Compile(q), s[|p|..])
  {
    if p == [] {
      assert p + q == q && s[0..] == s;
    } else {
      assert (p + q)[1..] == p[1..] + q;
      var rest := Compile(p[1..] + q);
      assert Compile(p + q) == [Lit(p[0])] + rest;
      assert ([Lit(p[0])] + rest)[1..] == rest;
      if s != [] {
        LiteralMatches(p[1..], q, s[1..]);
        assert p <= s <==> p[0] == s[0] && p[1..] <= s[1..];
        assert |p| <= |s| ==> s[|p|..] == s[1..][|p| - 1..];
      }
    }
  }

  lemma {:induction false} RunMatches(s: Bytes)
    requires Free(s, '\n')
    ensures Matches(Compile(['*']), s)
  {
    assert Compile(['*']) == [Run] && [Run][1..] == [];
    if s != [] { RunMatches(s[1..]); }
  }

  /** A literal followed by `*` selects exactly the keys it is a prefix of. */
  lemma PrefixPattern(p: Bytes, key: Bytes)
    requires Literal(p) && Free(key, '\n')
    ensures Matches(Compile(p + ['*']), key) <==> p <= key
  {
    LiteralMatches(p, ['*'], key);
    if p <= key { RunMatches(key[|p|..]); }
  }

  // ---------- Paths in patterns ----------

  lemma {:induction false} EscapedLiteral(s: Bytes)
    ensures Literal(Esc(Path, s))
  {
    if s != [] { EscapedLiteral(s[1..]); }
  }

  /** Escaped text starts with escaped text plus a colon exactly when the plain texts do. */
  lemma EscColon(a: Bytes, b: Bytes)
    ensures Esc(Path, a) + [':'] <= Esc(Path, b) <==> a + [':'] <= b
  {
    EscConcat(Path, a, [':']);
    assert Esc(Path, [':']) == [':'];
    EscPrefix(Path, a + [':'], b);
  }

  lemma PrefixShort(p: Bytes, y: Bytes, t: Bytes)
    requires |p| <= |y|
    ensures p <= y + t <==> p <= y
  {
    assert (y + t)[..|p|] == y[..|p|];
  }

  lemma PrefixLong(p: Bytes, a: Bytes, t: Bytes)
    requires |p| >= |a|
    ensures p <= a + t <==> a <= p && p[|a|..] <= t
  {
    if p <= a + t {
      assert p == (a + t)[..|p|];
      assert p[..|a|] == a && p[|a|..] == t[..|p| - |a|];
    }
  }

  /** Where `x:` lies in `y:rest`: it is `y:` itself, ends inside `y`, or runs into `rest`. */
  lemma ColonPrefix(x: Bytes, y: Bytes, rest: Bytes)
    ensures x + [':'] <= y + [':'] + rest <==>
      || x == y
      || x + [':'] <= y
      || (y + [':'] <= x && x[|y| + 1..] + [':'] <= rest)
  {
    var p := x + [':'];
    if |x| < |y| {
      PrefixShort(p, y, [':'] + rest);
      assert y + [':'] + rest == y + ([':'] + rest);
    } else {
      PrefixLong(p, y + [':'], rest);
      if |x| == |y| {
        assert y + [':'] <= p ==> x == y by { assert p[..|x|] == x && (y + [':'])[..|y|] == y; }
        assert p[|y| + 1..] == [];
      } else {
        PrefixShort(y + [':'], x, [':']);
        assert p[|y| + 1..] == x[|y| + 1..] + [':'];
      }
    }
  }

  lemma PrefixInto(x: Bytes, y: Bytes, rest: Bytes)
    ensures x <= y + [':'] + rest <==> x <= y || (y + [':'] <= x && x[|y| + 1..] <= rest)
  {
    if |x| <= |y| {
      PrefixShort(x, y, [':'] + rest);
      assert y + [':'] + rest == y + ([':'] + rest);
    } else {
      PrefixLong(x, y + [':'], rest);
    }
  }

  /** Rest of an escaped text after a plain prefix and a colon. */
  lemma EscDrop(a: Bytes, b: Bytes)
    requires a + [':'] <= b
    ensures Esc(Path, a) + [':'] <= Esc(Path, b)
    ensures Esc(Path, b)[|Esc(Path, a)| + 1..] == Esc(Path, b[|a| + 1..])
  {
    hide Esc;
    var tail := b[|a| + 1..];
    Rejoin(a, b);
    EscConcat(Path, a + [':'], tail);
    EscConcat(Path, a, [':']);
    ColonKept();
    DropFront(Esc(Path, a), Esc(Path, tail));
  }

  lemma Rejoin(a: Bytes, b: Bytes)
    requires a + [':'] <= b
    ensures b == (a + [':']) + b[|a| + 1..]
  {
    assert |a + [':']| == |a| + 1;
  }

  lemma DropFront(x: Bytes, y: Bytes)
    ensures x + [':'] <= x + [':'] + y && (x + [':'] + y)[|x| + 1..] == y
  {
  }

  lemma ColonKept()
    ensures Esc(Path, [':']) == [':']
  {
  }

  // ---------- Targets ----------

  /** A parsed purge target; `scheme` is empty unless the target began with http:// or https://. */
  datatype Target = Target(path: Bytes, host: Bytes, scheme: Bytes, rawQuery: Bytes)

  datatype Op = Exact(key: Bytes) | Pattern(glob: Bytes)

  const COLON: Bytes := ":"
  const STAR: Bytes := "*"
  const ANY_HOST: Bytes := "h=*:"
  const GET_TAIL: Bytes := ":m=GET:"
  const COLON_STAR: Bytes := ":*"

  function TargetHost(t: Target): Bytes { NormalizeHost(t.host, t.scheme) }

  function PathPart(t: Target, cfg: CacheKey): Bytes { PATH_LABEL + EscapedPath(KeyPath(t.path, cfg)) + COLON }

  function HostPart(t: Target, cfg: CacheKey): Bytes {
    if !cfg.excludeHost && TargetHost(t) != [] then HOST_LABEL + TargetHost(t) + COLON else []
  }

  function SchemePart(t: Target, cfg: CacheKey): Bytes {
    if cfg.includeProtocol && t.scheme != [] then SCHEME_LABEL + t.scheme + COLON else []
  }

  function OpOf(t: Target, cfg: CacheKey): Op {
    var qs := QueryPart(t.rawQuery, cfg);
    if qs != [] then
      if cfg.excludeHost || TargetHost(t) != [] then
        var key := PathPart(t, cfg) + HostPart(t, cfg) + SchemePart(t, cfg) + QUERY_LABEL + qs;
        if cfg.headerNames == [] && cfg.cookieNames == [] then Exact(key + GET_TAIL) else Pattern(key + COLON_STAR)
      else Pattern(PathPart(t, cfg) + ANY_HOST + SchemePart(t, cfg) + QUERY_LABEL + qs + COLON_STAR)
    else if HostPart(t, cfg) != [] then Pattern(PathPart(t, cfg) + HostPart(t, cfg) + SchemePart(t, cfg) + STAR)
    else Pattern(PathPart(t, cfg) + STAR)
  }

  /** Write the host and scheme a target names, each if it belongs to keys. */
  method WriteScope(t: Target, cfg: CacheKey) returns (host: Bytes, scheme: Bytes)
    ensures host == HostPart(t, cfg) && scheme == SchemePart(t, cfg)
  {
    hide NormalizeHost;
    host, scheme := [], [];
    var h := NormalizeHost(t.host, t.scheme);
    if !cfg.excludeHost && h != [] { host := HOST_LABEL + h + COLON; }
    if cfg.includeProtocol && t.scheme != [] { scheme := SCHEME_LABEL + t.scheme + COLON; }
  }

  /** Assemble the exact key or the pattern of a purge target. */
  method BuildPurgeOperation(t: Target, cfg: CacheKey) returns (op: Op)
    ensures op == OpOf(t, cfg)
  {
    hide KeyPath, EscapedPath, QueryPart, NormalizeHost, HostPart, SchemePart;
    var host, scheme := WriteScope(t, cfg);
    var path := WriteEscapedPath(KeyPath(t.path, cfg));
    var buf := PATH_LABEL + path + COLON;
    var qs := BuildQueryPart(t.rawQuery, cfg);
    if qs != [] {
      if cfg.excludeHost || NormalizeHost(t.host, t.scheme) != [] {
        buf := buf + host;
        buf := buf + scheme;
        buf := buf + QUERY_LABEL;
        buf := buf + qs;
        if |cfg.headerNames| == 0 && |cfg.cookieNames| == 0 { return Exact(buf + GET_TAIL); }
        return Pattern(buf + COLON_STAR);
      }
      buf := buf + ANY_HOST;
      buf := buf + scheme;
      buf := buf + QUERY_LABEL;
      buf := buf + qs;
      return Pattern(buf + COLON_STAR);
    }
    if host != [] {
      buf := buf + host;
      buf := buf + scheme;
    }
    return Pattern(buf + STAR);
  }

  function PrefixGlob(t: Target, cfg: CacheKey): Bytes {
    var base := PATH_LABEL + EscapedPath(KeyPath(t.path, cfg)) + STAR;
    if HostPart(t, cfg) == [] then base
    else base + COLON + HostPart(t, cfg) + SchemePart(t, cfg) + STAR
  }

  /** Assemble the pattern of a prefix purge. */
  method BuildPurgePrefixOperation(t: Target, cfg: CacheKey) returns (glob: Bytes)
    ensures glob == PrefixGlob(t, cfg)
  {
    hide KeyPath, EscapedPath, HostPart, SchemePart;
    var host, scheme := WriteScope(t, cfg);
    glob := PATH_LABEL;
    var path := WriteEscapedPath(KeyPath(t.path, cfg));
    glob := glob + path;
    glob := glob + STAR;
    if host != [] {
      glob := glob + COLON;
      glob := glob + host;
      glob := glob + scheme;
      glob := glob + STAR;
    }
  }

  // ---------- Exact purges ----------

  /** A GET for the target's URL. */
  ghost predicate IsGetFor(r: Request, t: Target) {
    && KeyMethod(r) == "GET" && r.path == t.path && r.rawQuery == t.rawQuery
    && t.host == if r.host == [] then r.urlHost else r.host
  }

  function HostText(h: Bytes): Bytes { if h != [] then HOST_LABEL + h + COLON else [] }

  function SchemeText(cond: bool, s: Bytes): Bytes { if cond then SCHEME_LABEL + s + COLON else [] }

  function QueryTail(raw: Bytes, cfg: CacheKey): Bytes { QUERY_LABEL + QueryPart(raw, cfg) + GET_TAIL }

  lemma Group(a: Bytes, b: Bytes, c: Bytes, d: Bytes, e: Bytes, f: Bytes)
    ensures a + b + c + d + e + f == a + (b + c) + (d + e + f)
  {
  }

  /** An exact purge key: path, host and scheme, query. */
  lemma OpSpelled(t: Target, cfg: CacheKey)
    requires OpOf(t, cfg).Exact?
    ensures QueryPart(t.rawQuery, cfg) != [] && cfg.headerNames == cfg.cookieNames == []
    ensures OpOf(t, cfg).key == PathPart(t, cfg) + (HostPart(t, cfg) + SchemePart(t, cfg)) + QueryTail(t.rawQuery, cfg)
  {
    hide PathPart, HostPart, SchemePart, QueryPart, TargetHost;
    Group(PathPart(t, cfg), HostPart(t, cfg), SchemePart(t, cfg), QUERY_LABEL, QueryPart(t.rawQuery, cfg), GET_TAIL);
  }

  /** The key of a GET, in the same three parts. */
  lemma KeySpelled(r: Request, cfg: CacheKey)
    requires cfg.headerNames == cfg.cookieNames == [] && KeyMethod(r) == "GET" && QueryPart(r.rawQuery, cfg) != []
    ensures KeyOf(r, cfg) == (PathSegment(r, cfg) + COLON)
        + (HostText(KeyHost(r, cfg)) + SchemeText(cfg.includeProtocol, ResolveScheme(r))) + QueryTail(r.rawQuery, cfg)
  {
    hide QueryPart, KeyHost, ResolveScheme, PathSegment, Closed;
    var p, h, s, q, m := PathSegment(r, cfg), HostSegment(r, cfg), SchemeSegment(r), QuerySegment(r, cfg), MethodSegment(r);
    var hs, ss := Optional(KeyHost(r, cfg) != [], h), Optional(cfg.includeProtocol, s);
    assert TailSegments(r, cfg) == ss + ([q] + ([m] + []));
    ClosedNothing();
    ClosedCons(m, []);
    ClosedCons(q, [m] + []);
    ClosedOptional(cfg.includeProtocol, s, [q] + ([m] + []));
    ClosedOptional(KeyHost(r, cfg) != [], h, TailSegments(r, cfg));
    ClosedCons(p, hs + TailSegments(r, cfg));
    TailText(q, m);
    var ht, st, qt := HostText(KeyHost(r, cfg)), SchemeText(cfg.includeProtocol, ResolveScheme(r)), q + GET_TAIL;
    hide HostText, SchemeText;
    Regroup(p, ht, st, qt);
  }

  lemma TailText(q: Bytes, m: Bytes)
    requires m == METHOD_LABEL + "GET"
    ensures q + [':'] + (m + [':'] + []) == q + GET_TAIL
  {
    assert [':'] + (m + [':'] + []) == GET_TAIL;
    assert q + [':'] + (m + [':'] + []) == q + ([':'] + (m + [':'] + []));
  }

  lemma Regroup(p: Bytes, h: Bytes, s: Bytes, q: Bytes)
    ensures p + [':'] + (h + (s + q)) == (p + COLON) + (h + s) + q
  {
  }

  lemma ClosedOptional(cond: bool, s: Bytes, segs: seq<Bytes>)
    ensures Closed(Optional(cond, s) + segs) == (if cond then s + [':'] else []) + Closed(segs)
  {
    if cond { ClosedCons(s, segs); } else { assert [] + segs == segs; }
  }

  /** An exact purge of an http or https URL names the primary key of a GET for it. */
  lemma ExactPurgeIsKey(t: Target, r: Request, cfg: CacheKey)
    requires OpOf(t, cfg).Exact? && IsGetFor(r, t) && t.scheme == ResolveScheme(r)
    ensures OpOf(t, cfg).key == KeyOf(r, cfg)
  {
    hide QueryPart, EscapedPath, KeyPath, NormalizeHost, ResolveScheme, KeyOf, OpOf, QueryTail;
    OpSpelled(t, cfg);
    KeySpelled(r, cfg);
    SchemeNonEmpty(r);
    HostAgrees(t, r, cfg);
  }

  lemma SchemeNonEmpty(r: Request)
    ensures ResolveScheme(r) == "http" || ResolveScheme(r) == "https"
    ensures ResolveScheme(r) != []
  {
  }

  lemma HostAgrees(t: Target, r: Request, cfg: CacheKey)
    requires IsGetFor(r, t)
    ensures KeyHost(r, cfg) == if cfg.excludeHost || t.host == [] then [] else NormalizeHost(t.host, ResolveScheme(r))
    ensures t.host == [] ==> TargetHost(t) == []
  {
  }

  /** Without a scheme in the target, an exact purge hits the key of a GET exactly when the scheme
      is not part of keys and the host carries no default port to strip. */
  lemma SchemelessPurgeExactly(t: Target, r: Request, cfg: CacheKey)
    requires OpOf(t, cfg).Exact? && IsGetFor(r, t) && t.scheme == []
    ensures OpOf(t, cfg).key == KeyOf(r, cfg) <==>
      !cfg.includeProtocol && (cfg.excludeHost || ToLower(t.host) == NormalizeHost(t.host, ResolveScheme(r)))
  {
    hide QueryPart, EscapedPath, KeyPath, KeyOf, ResolveScheme, ToLower, NormalizeHost, OpOf, QueryTail;
    OpSpelled(t, cfg);
    KeySpelled(r, cfg);
    SchemeNonEmpty(r);
    HostAgrees(t, r, cfg);
    StrippedShorter(t.host, ResolveScheme(r));
    var h, h' := HostPart(t, cfg), HostText(KeyHost(r, cfg)) + SchemeText(cfg.includeProtocol, ResolveScheme(r));
    assert HostPart(t, cfg) + SchemePart(t, cfg) == h;
    Infix(PathPart(t, cfg), h, QueryTail(t.rawQuery, cfg), h');
    ExactHasHost(t, cfg);
    TextsDiffer(cfg.excludeHost, ToLower(t.host), KeyHost(r, cfg), cfg.includeProtocol, ResolveScheme(r));
  }

  lemma ExactHasHost(t: Target, cfg: CacheKey)
    requires OpOf(t, cfg).Exact?
    ensures cfg.excludeHost || TargetHost(t) != []
  {
  }

  lemma TextsDiffer(noHost: bool, x: Bytes, y: Bytes, cond: bool, s: Bytes)
    requires s == "http" || s == "https"
    requires if noHost then y == [] else x != [] && |y| <= |x| <= |y| + 4
    ensures (if noHost then [] else HostText(x)) == HostText(y) + SchemeText(cond, s)
       <==> !cond && (noHost || x == y)
  {
    var l, r := HostText(x), HostText(y) + SchemeText(cond, s);
    if noHost {
    } else if y == [] {
      assert l[0] == 'h';
      assert cond ==> r[0] == 's';
    } else {
      assert |l| == |x| + 3 && |HostText(y)| == |y| + 3;
      assert l[2..|l| - 1] == x && HostText(y)[2..|HostText(y)| - 1] == y;
    }
  }

  lemma Infix(a: Bytes, h: Bytes, q: Bytes, h': Bytes)
    ensures a + h + q == a + h' + q <==> h == h'
  {
    var k, k' := a + h + q, a + h' + q;
    if k == k' {
      assert h == k[|a|..|k| - |q|] && h' == k'[|a|..|k'| - |q|];
    }
  }

  /** Stripping a default port removes at most four bytes. */
  lemma StrippedShorter(host: Bytes, scheme: Bytes)
    ensures |NormalizeHost(host, scheme)| <= |ToLower(host)| <= |NormalizeHost(host, scheme)| + 4
    ensures NormalizeHost(host, []) == ToLower(host)
  {
  }

  // ---------- Pattern purges ----------

  /** What a key holds after its path segment. */
  function AfterPath(r: Request, cfg: CacheKey): Bytes { Closed(KeySegments(r, cfg)[1..]) }

  lemma KeyOpens(r: Request, cfg: CacheKey)
    ensures KeyOf(r, cfg) == PATH_LABEL + (EscapedPath(KeyPath(r.path, cfg)) + [':'] + AfterPath(r, cfg))
  {
    hide TailSegments, EscapedPath, KeyPath, KeyHost, HostSegment;
    var segs := KeySegments(r, cfg);
    assert segs == [segs[0]] + segs[1..];
    hide Closed;
    ClosedCons(segs[0], segs[1..]);
  }

  lemma LabelPrefix(x: Bytes, y: Bytes)
    ensures PATH_LABEL + x <= PATH_LABEL + y <==> x <= y
  {
    var u, v := PATH_LABEL + x, PATH_LABEL + y;
    if u <= v { assert x == u[2..] && y == v[2..] && u == v[..|u|]; }
  }

  lemma PathGlobMatches(e: Bytes, tail: Bytes, key: Bytes, y: Bytes, rest: Bytes)
    requires Literal(e + tail) && key == PATH_LABEL + (y + [':'] + rest) && Free(key, '\n')
    ensures Matches(Compile(PATH_LABEL + e + tail + STAR), key) <==> e + tail <= y + [':'] + rest
  {
    hide Matches, Compile;
    assert PATH_LABEL + e + tail + STAR == (PATH_LABEL + (e + tail)) + ['*'];
    PrefixPattern(PATH_LABEL + (e + tail), key);
    LabelPrefix(e + tail, y + [':'] + rest);
  }

  /** Exactly which keys a path purge selects: those of the path itself, of paths that continue it
      after a colon, and of paths the target continues after a colon into the key's next parts. */
  lemma PathPurgeExactly(t: Target, r: Request, cfg: CacheKey)
    requires QueryPart(t.rawQuery, cfg) == [] && HostPart(t, cfg) == []
    requires (t.path == [] || Rooted(t.path)) && (r.path == [] || Rooted(r.path)) && Free(KeyOf(r, cfg), '\n')
    ensures OpOf(t, cfg).Pattern?
    ensures var tp, kp := KeyPath(t.path, cfg), KeyPath(r.path, cfg);
      Matches(Compile(OpOf(t, cfg).glob), KeyOf(r, cfg)) <==>
        || kp == tp
        || tp + [':'] <= kp
        || (kp + [':'] <= tp && Esc(Path, tp[|kp| + 1..]) + [':'] <= AfterPath(r, cfg))
  {
    hide QueryPart, KeyPath, Matches, Compile, KeyOf, Esc, AfterPath, HostPart;
    var tp, kp, rest := KeyPath(t.path, cfg), KeyPath(r.path, cfg), AfterPath(r, cfg);
    var x, y := Esc(Path, tp), Esc(Path, kp);
    KeyOpens(r, cfg);
    EscapedLiteral(tp);
    PathGlobMatches(x, COLON, KeyOf(r, cfg), y, rest);
    ColonPrefix(x, y, rest);
    EscColon(tp, kp);
    EscColon(kp, tp);
    if x == y { EscInjective(Path, tp, kp); }
    if kp + [':'] <= tp { EscDrop(kp, tp); }
  }

  lemma NoColonInside(a: Bytes, b: Bytes)
    requires Free(b, ':')
    ensures !(a + [':'] <= b)
  {
    assert (a + [':'])[|a|] == ':';
  }

  /** A colon-free path purge selects the path and what continues it after a colon, nothing else. */
  lemma PlainPathPurge(t: Target, r: Request, cfg: CacheKey)
    requires QueryPart(t.rawQuery, cfg) == [] && HostPart(t, cfg) == []
    requires (t.path == [] || Rooted(t.path)) && (r.path == [] || Rooted(r.path)) && Free(KeyOf(r, cfg), '\n')
    requires Free(KeyPath(t.path, cfg), ':')
    ensures OpOf(t, cfg).Pattern?
    ensures var tp, kp := KeyPath(t.path, cfg), KeyPath(r.path, cfg);
      Matches(Compile(OpOf(t, cfg).glob), KeyOf(r, cfg)) <==> kp == tp || tp + [':'] <= kp
  {
    PathPurgeExactly(t, r, cfg);
    hide QueryPart, KeyPath, Matches, Compile, KeyOf, Esc, AfterPath, HostPart, OpOf;
    var tp, kp := KeyPath(t.path, cfg), KeyPath(r.path, cfg);
    NoColonInside(kp, tp);
  }

  /** A target path that spells out another key's host is taken for that key: purging the path
      `/a:h=example.com` also purges `/a` of host example.com. */
  lemma ColonTargetOverreaches(t: Target, r: Request, cfg: CacheKey)
    requires QueryPart(t.rawQuery, cfg) == [] && HostPart(t, cfg) == []
    requires Rooted(t.path) && Rooted(r.path) && Free(KeyOf(r, cfg), '\n') && KeyHost(r, cfg) != []
    requires forall i :: 0 <= i < |KeyHost(r, cfg)| ==> Keeps(Path, KeyHost(r, cfg)[i])
    requires KeyPath(t.path, cfg) == KeyPath(r.path, cfg) + [':'] + (HOST_LABEL + KeyHost(r, cfg))
    ensures KeyPath(t.path, cfg) != KeyPath(r.path, cfg)
    ensures OpOf(t, cfg).Pattern? && Matches(Compile(OpOf(t, cfg).glob), KeyOf(r, cfg))
  {
    hide QueryPart, KeyPath, Matches, Compile, KeyOf, Esc, HostPart, OpOf, KeyHost, AfterPath;
    var tp, kp, h := KeyPath(t.path, cfg), KeyPath(r.path, cfg), HOST_LABEL + KeyHost(r, cfg);
    PathPurgeExactly(t, r, cfg);
    HostFollows(r, cfg, h);
    KeptEscapes(h);
    assert tp[|kp| + 1..] == h;
  }

  lemma HostFollows(r: Request, cfg: CacheKey, h: Bytes)
    requires KeyHost(r, cfg) != [] && h == HOST_LABEL + KeyHost(r, cfg)
    ensures h + [':'] <= AfterPath(r, cfg)
  {
    hide TailSegments, KeyHost, PathSegment, Closed;
    assert KeySegments(r, cfg)[1..] == [h] + TailSegments(r, cfg);
    ClosedCons(h, TailSegments(r, cfg));
  }

  /** Exactly which keys a host-less prefix purge selects. */
  lemma PrefixPurgeExactly(t: Target, r: Request, cfg: CacheKey)
    requires HostPart(t, cfg) == []
    requires (t.path == [] || Rooted(t.path)) && (r.path == [] || Rooted(r.path)) && Free(KeyOf(r, cfg), '\n')
    ensures var pp, kp := KeyPath(t.path, cfg), KeyPath(r.path, cfg);
      Matches(Compile(PrefixGlob(t, cfg)), KeyOf(r, cfg)) <==>
        pp <= kp || (kp + [':'] <= pp && Esc(Path, pp[|kp| + 1..]) <= AfterPath(r, cfg))
  {
    hide KeyPath, Matches, Compile, KeyOf, Esc, AfterPath, HostPart;
    var pp, kp, rest := KeyPath(t.path, cfg), KeyPath(r.path, cfg), AfterPath(r, cfg);
    var x, y := Esc(Path, pp), Esc(Path, kp);
    KeyOpens(r, cfg);
    EscapedLiteral(pp);
    assert PATH_LABEL + x + [] + STAR == PATH_LABEL + x + STAR && x + [] == x;
    PathGlobMatches(x, [], KeyOf(r, cfg), y, rest);
    PrefixInto(x, y, rest);
    EscPrefix(Path, pp, kp);
    EscColon(kp, pp);
    if kp + [':'] <= pp { EscDrop(kp, pp); }
  }

  /** A colon-free prefix purge selects exactly the keys whose cleaned path extends the prefix. */
  lemma PlainPrefixPurge(t: Target, r: Request, cfg: CacheKey)
    requires HostPart(t, cfg) == [] && Free(KeyPath(t.path, cfg), ':')
    requires (t.path == [] || Rooted(t.path)) && (r.path == [] || Rooted(r.path)) && Free(KeyOf(r, cfg), '\n')
    ensures Matches(Compile(PrefixGlob(t, cfg)), KeyOf(r, cfg)) <==> KeyPath(t.path, cfg) <= KeyPath(r.path, cfg)
  {
    PrefixPurgeExactly(t, r, cfg);
    hide KeyPath, Matches, Compile, KeyOf, Esc, AfterPath, HostPart, PrefixGlob;
    var pp, kp := KeyPath(t.path, cfg), KeyPath(r.path, cfg);
    NoColonInside(kp, pp);
  }

  lemma LabelInside(z: Bytes, first: Bytes, more: Bytes)
    requires z + [':'] <= first + [':'] + more && Free(first, ':') && '=' in first
    ensures '=' in z
  {
    var r := first + [':'] + more;
    assert (z + [':'])[|z|] == r[|z|];
    var i :| 0 <= i < |first| && first[i] == '=';
    assert z == r[..|z|] && r[i] == first[i];
    assert z[i] == '=';
  }
}
