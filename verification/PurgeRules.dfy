/** What patterns mean, and that purging a URL hits its page. */
module PurgeRules {
  import opened KeyBytes
  import opened UrlEscape
  import opened QueryString
  import opened PrimaryKey
  import opened Purge
  import PurgeStars
  import Sorting

  // ---------- Patterns ----------

  /** Parts of a pattern as a user writes them. */
  datatype Part = Byte(c: KeyBytes.Byte) | Quoted(c: KeyBytes.Byte) | Question | Star

  function Spelling(p: Part): Bytes {
    match p
    case Byte(c) => [c]
    case Quoted(c) => ['\\', c]
    case Question => ['?']
    case Star => ['*']
  }

  function Spell(ps: seq<Part>): Bytes { if ps == [] then [] else Spelling(ps[0]) + Spell(ps[1..]) }

  /** Plain bytes are none of the three special ones. */
  ghost predicate Written(ps: seq<Part>) { forall i :: 0 <= i < |ps| && ps[i].Byte? ==> ps[i].c != '*' && ps[i].c != '?' && ps[i].c != '\\' }

  /** The stretch of text a part stands for: itself, any one byte, or any run; newlines only for themselves. */
  ghost predicate StandsFor(p: Part, s: Bytes) {
    match p
    case Byte(c) => s == [c]
    case Quoted(c) => s == [c]
    case Question => |s| == 1 && s[0] != '\n'
    case Star => Free(s, '\n')
  }

  /** The text falls into stretches, one for each part. */
  ghost predicate Fits(ps: seq<Part>, s: Bytes)
    decreases |ps|
  {
    if ps == [] then s == []
    else exists n :: 0 <= n <= |s| && StandsFor(ps[0], s[..n]) && Fits(ps[1..], s[n..])
  }

  lemma CompileFirst(ps: seq<Part>)
    requires ps != [] && Written(ps)
    ensures Compile(Spell(ps)) == [match ps[0] case Byte(c) => Lit(c) case Quoted(c) => Lit(c) case Question => One case Star => Run] + Compile(Spell(ps[1..]))
  {
    var s, t := Spell(ps), Spell(ps[1..]);
    if ps[0].Quoted? {
      assert s[0] == '\\' && s[1] == ps[0].c && s[2..] == t;
    } else {
      assert s[1..] == t && s[0] == Spelling(ps[0])[0];
    }
  }

  lemma OneByte(ps: seq<Part>, s: Bytes)
    requires ps != [] && !ps[0].Star?
    ensures Fits(ps, s) <==> s != [] && StandsFor(ps[0], s[..1]) && Fits(ps[1..], s[1..])
  {
    hide Fits;
    if s != [] && StandsFor(ps[0], s[..1]) && Fits(ps[1..], s[1..]) { FitsAt(ps, s, 1); }
    if Fits(ps, s) {
      var n := FitsSplit(ps, s);
      assert n == 1;
    }
  }

  lemma FitsAt(ps: seq<Part>, s: Bytes, n: nat)
    requires ps != [] && n <= |s| && StandsFor(ps[0], s[..n]) && Fits(ps[1..], s[n..])
    ensures Fits(ps, s)
  {
  }

  lemma FitsSplit(ps: seq<Part>, s: Bytes) returns (n: nat)
    requires ps != [] && Fits(ps, s)
    ensures n <= |s| && StandsFor(ps[0], s[..n]) && Fits(ps[1..], s[n..])
  {
    n :| 0 <= n <= |s| && StandsFor(ps[0], s[..n]) && Fits(ps[1..], s[n..]);
  }

  lemma CutAfterFirst(c: KeyBytes.Byte, t: Bytes, n: nat)
    requires n <= |t|
    ensures ([c] + t)[n + 1..] == t[n..] && ([c] + t)[..n + 1] == [c] + t[..n]
  {
    var s := [c] + t;
    assert s[1..] == t;
    assert s[n + 1..] == s[1..][n..];
    assert |s[..n + 1]| == |[c] + t[..n]|;
    forall i | 0 <= i < n + 1 ensures s[..n + 1][i] == ([c] + t[..n])[i] {
      if i > 0 { assert s[i] == t[i - 1]; }
    }
  }

  lemma StarLonger(ps: seq<Part>, c: KeyBytes.Byte, t: Bytes)
    requires ps != [] && ps[0].Star? && c != '\n' && Fits(ps, t)
    ensures Fits(ps, [c] + t)
  {
    hide Fits;
    var n := FitsSplit(ps, t);
    CutAfterFirst(c, t, n);
    FitsAt(ps, [c] + t, n + 1);
  }

  lemma StarShorter(ps: seq<Part>, c: KeyBytes.Byte, t: Bytes)
    requires ps != [] && ps[0].Star? && Fits(ps, [c] + t)
    ensures Fits(ps[1..], [c] + t) || (c != '\n' && Fits(ps, t))
  {
    hide Fits;
    var n := FitsSplit(ps, [c] + t);
    if n == 0 {
      assert ([c] + t)[0..] == [c] + t;
    } else {
      var run := ([c] + t)[..n];
      CutAfterFirst(c, t, n - 1);
      assert run == [c] + t[..n - 1];
      assert run[0] == c && t[..n - 1] == run[1..];
      assert Free(t[..n - 1], '\n');
      FitsAt(ps, t, n - 1);
    }
  }

  lemma StarNothing(ps: seq<Part>, s: Bytes)
    requires ps != [] && ps[0].Star? && Fits(ps[1..], s)
    ensures Fits(ps, s)
  {
    hide Fits;
    assert s[0..] == s && s[..0] == [];
    FitsAt(ps, s, 0);
  }

  lemma StarSteps(ps: seq<Part>, s: Bytes)
    requires ps != [] && ps[0].Star?
    ensures Fits(ps, s) <==> Fits(ps[1..], s) || (s != [] && s[0] != '\n' && Fits(ps, s[1..]))
  {
    hide Fits;
    if Fits(ps[1..], s) { StarNothing(ps, s); }
    if s == [] {
      if Fits(ps, s) {
        var n := FitsSplit(ps, s);
        assert s[n..] == s;
      }
    } else {
      assert s == [s[0]] + s[1..];
      if s[0] != '\n' && Fits(ps, s[1..]) { StarLonger(ps, s[0], s[1..]); }
      if Fits(ps, s) { StarShorter(ps, s[0], s[1..]); }
    }
  }

  /** A pattern selects exactly the texts that fall into stretches, one for each of its parts. */
  lemma {:induction false} GlobExactly(ps: seq<Part>, s: Bytes)
    requires Written(ps)
    ensures Matches(Compile(Spell(ps)), s) <==> Fits(ps, s)
    decreases |ps| + |s|
  {
    hide Compile, Spell, Fits;
    if ps == [] {
      EmptyPattern(s);
    } else {
      CompileFirst(ps);
      var rest := Compile(Spell(ps[1..]));
      assert Compile(Spell(ps))[1..] == rest;
      if ps[0].Star? {
        StarSteps(ps, s);
        GlobExactly(ps[1..], s);
        if s != [] { GlobExactly(ps, s[1..]); }
      } else {
        OneByte(ps, s);
        if s != [] { GlobExactly(ps[1..], s[1..]); }
      }
    }
  }

  lemma EmptyPattern(s: Bytes)
    ensures Matches(Compile(Spell([])), s) <==> Fits([], s)
  {
  }

  // ---------- A purge hits its page ----------

  lemma {:induction false} QueryEscLiteral(s: Bytes)
    ensures Literal(Esc(Query, s))
  {
    if s != [] { QueryEscLiteral(s[1..]); }
  }

  lemma {:induction false} EncodedLiteral(ps: seq<Pair>)
    ensures Literal(Encode(ps))
  {
    hide Esc;
    if ps != [] {
      QueryEscLiteral(ps[0].k);
      QueryEscLiteral(ps[0].v);
      if |ps| > 1 {
        EncodedLiteral(ps[1..]);
        assert EncodeEach(ps)[1..] == EncodeEach(ps[1..]);
      }
    }
  }

  lemma QueryLiteral(raw: Bytes, cfg: CacheKey)
    ensures Literal(QueryPart(raw, cfg))
  {
    hide Encode, Sorting.Sort, Filter, Allowed, LenientPieces;
    EncodedLiteral(Sorting.Sort(PAIR_ORDER, Allowed(raw, cfg)));
    EncodedLiteral(Filter(LenientPieces(Split(raw, '&')), cfg));
  }

  /** A GET key up to its query. */
  lemma KeyBegins(r: Request, cfg: CacheKey) returns (rest: Bytes)
    ensures KeyOf(r, cfg) == (PathSegment(r, cfg) + COLON) + (HostText(KeyHost(r, cfg)) + SchemeText(cfg.includeProtocol, ResolveScheme(r))
        + (if QueryPart(r.rawQuery, cfg) != [] then QUERY_LABEL + QueryPart(r.rawQuery, cfg) + COLON else []) + rest)
  {
    hide QueryPart, KeyHost, ResolveScheme, PathSegment, Closed, HeaderSegments, CookieSegments;
    var p, h, s, q := PathSegment(r, cfg), HostSegment(r, cfg), SchemeSegment(r), QuerySegment(r, cfg);
    var tail := [MethodSegment(r)] + (HeaderSegments(r, Sorting.Sort(BYTE_ORDER, cfg.headerNames)) + CookieSegments(r, Sorting.Sort(BYTE_ORDER, cfg.cookieNames)));
    rest := Closed(tail);
    var known := QueryPart(r.rawQuery, cfg) != [];
    var ss, qs := Optional(cfg.includeProtocol, s), Optional(known, q);
    assert TailSegments(r, cfg) == ss + (qs + tail);
    ClosedOptional(known, q, tail);
    ClosedOptional(cfg.includeProtocol, s, qs + tail);
    ClosedOptional(KeyHost(r, cfg) != [], h, TailSegments(r, cfg));
    ClosedCons(p, Optional(KeyHost(r, cfg) != [], h) + TailSegments(r, cfg));
    var ht, st, qt := HostText(KeyHost(r, cfg)), SchemeText(cfg.includeProtocol, ResolveScheme(r)), if known then q + COLON else [];
    assert KeyOf(r, cfg) == p + [':'] + (ht + (st + (qt + rest)));
    Grouped5(p, ht, st, qt, rest);
  }

  lemma Grouped5(p: Bytes, h: Bytes, s: Bytes, q: Bytes, rest: Bytes)
    ensures p + [':'] + (h + (s + (q + rest))) == (p + COLON) + (h + s + q + rest)
  {
  }

  /** The operation selects the key. */
  ghost predicate Hits(op: Op, key: Bytes) {
    match op
    case Exact(k) => k == key
    case Pattern(g) => Matches(Compile(g), key)
  }

  /** Requests for the URL: the same path and query, and the host and scheme the target names, in keys that hold them. */
  ghost predicate For(r: Request, t: Target, cfg: CacheKey) {
    && IsGetFor(r, t) && t.scheme == ResolveScheme(r) && (cfg.excludeHost || KeyHost(r, cfg) != [])
    && Literal(TargetHost(t)) && Free(KeyOf(r, cfg), '\n')
  }

  lemma PartsAgree(t: Target, r: Request, cfg: CacheKey)
    requires For(r, t, cfg)
    ensures PathPart(t, cfg) == PathSegment(r, cfg) + COLON && HostPart(t, cfg) == HostText(KeyHost(r, cfg))
    ensures SchemePart(t, cfg) == SchemeText(cfg.includeProtocol, ResolveScheme(r))
    ensures cfg.excludeHost || TargetHost(t) != []
    ensures Literal(PathPart(t, cfg)) && Literal(HostPart(t, cfg)) && Literal(SchemePart(t, cfg))
  {
    hide KeyPath, NormalizeHost, ResolveScheme, KeyOf;
    HostAgrees(t, r, cfg);
    SchemeNonEmpty(r);
    EscapedLiteral(KeyPath(t.path, cfg));
  }

  /** Purging a URL hits the key of every GET or HEAD for it, whatever headers and cookies are part of keys. */
  lemma PurgeHits(t: Target, r: Request, cfg: CacheKey)
    requires For(r, t, cfg)
    ensures Hits(OpOf(t, cfg), KeyOf(r, cfg))
  {
    hide QueryPart, KeyPath, EscapedPath, NormalizeHost, KeyHost, ResolveScheme, PathSegment, KeyOf, Matches, Compile, PathPart, HostPart, SchemePart,
      HostText, SchemeText, TargetHost, Literal;
    PartsAgree(t, r, cfg);
    var rest := KeyBegins(r, cfg);
    var p, h, s, q := PathPart(t, cfg), HostPart(t, cfg), SchemePart(t, cfg), QueryPart(t.rawQuery, cfg);
    QueryLiteral(t.rawQuery, cfg);
    Literals(p, h, s, q);
    if OpOf(t, cfg).Exact? {
      ExactPurgeIsKey(t, r, cfg);
    } else if q != [] {
      var text := p + h + s + QUERY_LABEL + q + COLON;
      assert OpOf(t, cfg).glob == text + ['*'];
      OpensKey(p, h, s, QUERY_LABEL + q + COLON, rest, text, KeyOf(r, cfg));
      PrefixPattern(text, KeyOf(r, cfg));
    } else {
      var text := if h != [] then p + h + s else p;
      assert OpOf(t, cfg).glob == text + ['*'];
      OpensKey(p, h, s, [], rest, text, KeyOf(r, cfg));
      PrefixPattern(text, KeyOf(r, cfg));
    }
  }

  lemma Literals(p: Bytes, h: Bytes, s: Bytes, q: Bytes)
    requires Literal(p) && Literal(h) && Literal(s) && Literal(q)
    ensures Literal(p + h + s + QUERY_LABEL + q + COLON) && Literal(p + h + s)
  {
  }

  lemma OpensKey(p: Bytes, h: Bytes, s: Bytes, q: Bytes, rest: Bytes, text: Bytes, key: Bytes)
    requires key == p + (h + s + q + rest) && (text == p + h + s + q || text == p)
    ensures text <= key
  {
    assert p + (h + s + q + rest) == (p + h + s + q) + rest;
  }

  /** Purging a path hits its GET on every host; with a query, the page with that query. */
  lemma PathPurgeHits(t: Target, r: Request, cfg: CacheKey)
    requires KeyMethod(r) == "GET" && r.path == t.path && r.rawQuery == t.rawQuery && Rooted(t.path)
    requires t.host == [] && t.scheme == [] && !cfg.excludeHost && KeyHost(r, cfg) != [] && Free(KeyOf(r, cfg), '\n')
    ensures Hits(OpOf(t, cfg), KeyOf(r, cfg))
  {
    hide QueryPart, KeyPath, EscapedPath, KeyHost, ResolveScheme, KeyOf, Matches, Compile, Literal;
    NoTargetHost(t);
    var rest := KeyBegins(r, cfg);
    var p, q, key := PathPart(t, cfg), QueryPart(t.rawQuery, cfg), KeyOf(r, cfg);
    var kh, ks := KeyHost(r, cfg), SchemeText(cfg.includeProtocol, ResolveScheme(r));
    QueryLiteral(t.rawQuery, cfg);
    if q != [] {
      NothingLiteral();
      PurgeStars.AnyHostQueryExactly(t, r, cfg);
      AfterHost(p, kh, ks, q, rest, key);
    } else {
      var x := PurgeStars.FrontText(t, cfg);
      ColonLiteral(x);
      assert OpOf(t, cfg).glob == p + ['*'];
      assert key == p + (HostText(kh) + ks + [] + rest);
      PrefixPattern(p, key);
    }
  }

  lemma ColonLiteral(x: Bytes)
    requires Literal(x)
    ensures Literal(x + COLON)
  {
  }

  lemma NothingLiteral()
    ensures Literal([])
  {
  }

  lemma NoTargetHost(t: Target)
    requires t.host == [] && t.scheme == []
    ensures TargetHost(t) == []
  {
  }

  lemma AfterHost(p: Bytes, kh: Bytes, ks: Bytes, q: Bytes, rest: Bytes, key: Bytes)
    requires kh != [] && key == p + (HOST_LABEL + kh + COLON + ks + (QUERY_LABEL + q + COLON) + rest)
    requires ks == [] || ks[|ks| - 1] == ':'
    ensures p + HOST_LABEL <= key && PurgeStars.Occurs(key, COLON + [] + QUERY_LABEL + q + COLON, |p + HOST_LABEL|)
  {
    var front, m := p + HOST_LABEL, kh + COLON + ks;
    var pre := m[..|m| - 1];
    assert m == pre + COLON;
    var text := COLON + [] + QUERY_LABEL + q + COLON;
    assert key == front + (pre + (text + rest));
    assert key[|front + pre|..] == text + rest;
    assert text <= key[|front + pre|..];
  }
}
