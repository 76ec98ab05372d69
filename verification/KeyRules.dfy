/** Which differences between requests their keys see, told from the requests. */
module KeyRules {
  import opened Sorting
  import opened KeyBytes
  import opened QueryString
  import opened PrimaryKey
  import QueryRules

  // ---------- Paths ----------

  ghost predicate Segments(segs: seq<Bytes>) { segs != [] && forall i :: 0 <= i < |segs| ==> Free(segs[i], '/') }

  /** A rooted path by its segments. */
  function PathOf(segs: seq<Bytes>): Bytes
    requires segs != []
  {
    ['/'] + Join(segs, '/')
  }

  lemma {:induction false} CleanConcat(a: seq<Bytes>, b: seq<Bytes>, stack: seq<Bytes>)
    ensures CleanSegments(a + b, true, stack) == CleanSegments(b, true, CleanSegments(a, true, stack))
    decreases |a|
  {
    if a == [] {
      assert a + b == b;
    } else {
      assert (a + b)[1..] == a[1..] + b && (a + b)[0] == a[0];
      if a[0] == [] || a[0] == "." {
        CleanConcat(a[1..], b, stack);
      } else if a[0] == ".." {
        CleanConcat(a[1..], b, if stack != [] && stack[|stack| - 1] != ".." then stack[..|stack| - 1] else stack);
      } else {
        CleanConcat(a[1..], b, stack + [a[0]]);
      }
    }
  }

  lemma {:induction false} LastByte(segs: seq<Bytes>)
    requires Segments(segs)
    ensures var p := PathOf(segs); p[|p| - 1] == '/' <==> segs[|segs| - 1] == []
    decreases |segs|
  {
    if |segs| == 1 {
      assert PathOf(segs) == ['/'] + segs[0];
      if segs[0] != [] { assert PathOf(segs)[|PathOf(segs)| - 1] == segs[0][|segs[0]| - 1]; }
    } else {
      LastByte(segs[1..]);
      var p, q := PathOf(segs), PathOf(segs[1..]);
      assert p == ['/'] + segs[0] + q;
      assert p[|p| - 1] == q[|q| - 1];
    }
  }

  lemma CleanOf(segs: seq<Bytes>)
    requires Segments(segs)
    ensures var st := CleanSegments(segs, true, []);
      Clean(PathOf(segs)) == ['/'] + if st == [] then [] else Join(st, '/')
  {
    hide Split, Join;
    SplitSlash(Join(segs, '/'));
    SplitJoin(segs, '/');
    assert ([[]] + segs)[1..] == segs;
  }

  /** Paths whose segments clean to the same list and that both end, or do not end, in a slash. */
  lemma SameKeyPath(s1: seq<Bytes>, s2: seq<Bytes>, cfg: CacheKey)
    requires Segments(s1) && Segments(s2) && CleanSegments(s1, true, []) == CleanSegments(s2, true, [])
    requires s1[|s1| - 1] == s2[|s2| - 1]
    ensures KeyPath(PathOf(s1), cfg) == KeyPath(PathOf(s2), cfg)
  {
    hide CleanSegments, Clean, Join;
    CleanOf(s1);
    CleanOf(s2);
    LastByte(s1);
    LastByte(s2);
  }

  /** An empty segment, a dot, or a segment and dot-dot after it. */
  predicate Idle(mid: seq<Bytes>) {
    || (|mid| == 1 && (mid[0] == [] || mid[0] == "."))
    || (|mid| == 2 && mid[0] != [] && mid[0] != "." && mid[0] != ".." && mid[1] == "..")
  }

  lemma Cancels(mid: seq<Bytes>, stack: seq<Bytes>)
    requires Idle(mid)
    ensures CleanSegments(mid, true, stack) == stack
  {
    if |mid| == 1 {
      assert mid[1..] == [];
    } else {
      var st := stack + [mid[0]];
      var up := mid[1..];
      assert up[0] == ".." && up[1..] == [];
      assert st[..|st| - 1] == stack && st[|st| - 1] == mid[0];
      assert CleanSegments(up, true, st) == CleanSegments([], true, stack);
      assert CleanSegments(mid, true, stack) == CleanSegments(up, true, st);
    }
  }

  /** Inside a path, an empty segment, a dot segment, and a segment followed by dot-dot make no difference. */
  lemma CancelledSegments(a: seq<Bytes>, mid: seq<Bytes>, b: seq<Bytes>, cfg: CacheKey)
    requires Segments(b) && (a == [] || Segments(a)) && Segments(mid)
    requires Idle(mid)
    ensures KeyPath(PathOf(a + (mid + b)), cfg) == KeyPath(PathOf(a + b), cfg)
  {
    hide CleanSegments, KeyPath;
    var st := CleanSegments(a, true, []);
    CleanConcat(a, mid + b, []);
    CleanConcat(mid, b, st);
    CleanConcat(a, b, []);
    Cancels(mid, st);
    SameKeyPath(a + (mid + b), a + b, cfg);
  }

  /** Dot-dot at the root stays there. */
  lemma RootParent(b: seq<Bytes>, cfg: CacheKey)
    requires Segments(b)
    ensures KeyPath(PathOf([".."] + b), cfg) == KeyPath(PathOf(b), cfg)
  {
    hide KeyPath;
    assert ([".."] + b)[1..] == b;
    SameKeyPath([".."] + b, b, cfg);
  }

  /** A path without such segments is kept, trailing slash included. */
  lemma PlainPathKept(segs: seq<Bytes>, cfg: CacheKey)
    requires Segments(segs) && CleanStack(segs) && !cfg.caseInsensitivePath
    ensures KeyPath(PathOf(segs), cfg) == PathOf(segs)
    ensures KeyPath(PathOf(segs + [[]]), cfg) == PathOf(segs) + ['/']
    ensures KeyPath(['/'], cfg) == KeyPath([], cfg) == ['/']
  {
    hide CleanSegments, Clean, Join;
    CleanStays(segs, []);
    assert [] + segs == segs;
    CleanOf(segs);
    LastByte(segs);
    CleanConcat(segs, [[]], []);
    EmptySegment(segs);
    CleanOf(segs + [[]]);
    LastByte(segs + [[]]);
    Root();
    JoinSnoc(segs, [], '/');
  }

  lemma EmptySegment(st: seq<Bytes>)
    ensures CleanSegments([[]], true, st) == st
  {
    var one: seq<Bytes> := [[]];
    assert one[1..] == [];
  }

  lemma Root()
    ensures Clean(['/']) == ['/']
  {
    hide Join;
    JoinSingle([], '/');
    var segs: seq<Bytes> := [[]];
    assert PathOf(segs) == ['/'];
    EmptySegment([]);
    CleanOf(segs);
  }

  /** Without regard to case, it is the same path in small letters. */
  lemma CaseFolded(p: Bytes, cfg: CacheKey)
    requires cfg.caseInsensitivePath
    ensures var q := KeyPath(p, cfg.(caseInsensitivePath := false));
      |KeyPath(p, cfg)| == |q| && forall i :: 0 <= i < |q| ==>
        KeyPath(p, cfg)[i] == (if 'A' <= q[i] <= 'Z' then q[i] - 'A' + 'a' else q[i])
  {
    hide Clean;
  }

  // ---------- Hosts ----------

  predicate Secure(r: Request) { r.tls || r.forwardedProto == "https" || r.urlScheme == "https" }

  const PORT_80: Bytes := ":80"
  const PORT_443: Bytes := ":443"

  /** The host in small letters, with the port or without it. */
  ghost predicate Names(given: Bytes, host: Bytes, port: Bytes) {
    ToLower(given) == host + port || (ToLower(given) == host && !(|host| >= |port| && host[|host| - |port|..] == port))
  }

  /** The host of the request or, without one, of its URL: in small letters, without the port its scheme implies. */
  lemma HostRules(r: Request, cfg: CacheKey, host: Bytes)
    requires !cfg.excludeHost && host != []
    requires Names(if r.host == [] then r.urlHost else r.host, host, if Secure(r) then PORT_443 else PORT_80)
    ensures KeyHost(r, cfg) == host
    ensures ResolveScheme(r) == if Secure(r) then "https" else "http"
  {
    hide NormalizeHost, Names;
    var given := if r.host == [] then r.urlHost else r.host;
    NamesNothing(given, host, if Secure(r) then PORT_443 else PORT_80);
    if Secure(r) { SecureHost(given, host); } else { PlainHost(given, host); }
  }

  lemma NamesNothing(given: Bytes, host: Bytes, port: Bytes)
    requires Names(given, host, port) && host != []
    ensures given != []
  {
  }

  lemma SecureHost(given: Bytes, host: Bytes)
    requires Names(given, host, PORT_443)
    ensures NormalizeHost(given, "https") == host
  {
    hide ToLower, TrimSuffix;
    SchemesDiffer();
    PortTrimmed(host, PORT_443);
  }

  lemma PlainHost(given: Bytes, host: Bytes)
    requires Names(given, host, PORT_80)
    ensures NormalizeHost(given, "http") == host
  {
    hide ToLower, TrimSuffix;
    PortTrimmed(host, PORT_80);
  }

  lemma SchemesDiffer()
    ensures "https" != "http"
  {
    assert |"https"| == 5 && |"http"| == 4;
  }

  lemma PortTrimmed(host: Bytes, port: Bytes)
    ensures TrimSuffix(host + port, port) == host
    ensures !(|host| >= |port| && host[|host| - |port|..] == port) ==> TrimSuffix(host, port) == host
  {
    assert (host + port)[|host|..] == port && (host + port)[..|host|] == host;
  }

  // ---------- Methods, headers, cookies ----------

  /** HEAD shares the key of GET. */
  lemma HeadIsGet(r: Request, cfg: CacheKey)
    ensures KeyOf(r.(verb := "HEAD"), cfg) == KeyOf(r.(verb := "GET"), cfg)
  {
    hide KeyPath, HeaderSegments, CookieSegments, QueryPart, Closed, Sort;
    var a, b := r.(verb := "HEAD"), r.(verb := "GET");
    forall h ensures HeaderValues(a, h) == HeaderValues(b, h) {}
    forall c ensures CookieValue(a, c) == CookieValue(b, c) {}
    SegmentsAgree(a, b, Sort(BYTE_ORDER, cfg.headerNames), Sort(BYTE_ORDER, cfg.cookieNames));
  }

  function Given<T>(m: map<Bytes, seq<T>>, k: Bytes): seq<T> { if k in m then m[k] else [] }

  ghost predicate SameTrimmed(a: seq<Bytes>, b: seq<Bytes>) {
    |a| == |b| && forall i :: 0 <= i < |a| ==> TrimSpace(a[i]) == TrimSpace(b[i])
  }

  /** A header takes part exactly when it is listed, in any case, and then by its trimmed values in order; a cookie exactly
      when it is listed, by its value. */
  lemma FieldsCount(r: Request, headers: map<Bytes, seq<Bytes>>, cookies: map<Bytes, Bytes>, cfg: CacheKey)
    requires PlainNames(cfg) && Plain(r, cfg)
    ensures KeyOf(r, cfg) == KeyOf(r.(headers := headers, cookies := cookies), cfg) <==>
      && (forall h :: h in cfg.headerNames ==> SameTrimmed(Given(r.headers, ToLower(h)), Given(headers, ToLower(h))))
      && (forall c :: c in cfg.cookieNames ==> Given(r.cookies, c) == Given(cookies, c))
  {
    hide KeyOf, KeyPath, KeyHost, QueryPart, TrimSpace, PlainNames, HeaderValues, CookieValue, ResolveScheme, SameTrimmed, Given, ToLower;
    var r' := r.(headers := headers, cookies := cookies);
    SamePlace(r, r', cfg);
    KeysEqualExactly(r, r', cfg);
    forall h | h in cfg.headerNames
      ensures HeaderValues(r, h) == HeaderValues(r', h) <==> SameTrimmed(Given(r.headers, ToLower(h)), Given(headers, ToLower(h))) {
      ValuesTrimmed(r, r', h);
    }
    forall c | c in cfg.cookieNames ensures CookieValue(r, c) == CookieValue(r', c) <==> Given(r.cookies, c) == Given(cookies, c) {
      CookieGiven(r, c);
      CookieGiven(r', c);
    }
  }

  lemma SamePlace(r: Request, r': Request, cfg: CacheKey)
    requires r' == r.(headers := r'.headers, cookies := r'.cookies)
    ensures KeyHost(r, cfg) == KeyHost(r', cfg) && ResolveScheme(r) == ResolveScheme(r')
  {
  }

  lemma CookieGiven(r: Request, c: Bytes)
    ensures CookieValue(r, c) == Given(r.cookies, c)
  {
  }

  lemma ValuesTrimmed(r: Request, r': Request, h: Bytes)
    ensures HeaderValues(r, h) == HeaderValues(r', h) <==> SameTrimmed(Given(r.headers, ToLower(h)), Given(r'.headers, ToLower(h)))
  {
    hide TrimSpace;
    var a, b := Given(r.headers, ToLower(h)), Given(r'.headers, ToLower(h));
    assert TrimAll([]) == [];
    assert HeaderValues(r, h) == TrimAll(a) && HeaderValues(r', h) == TrimAll(b);
  }

  lemma {:induction false} BlanksTrimmed(l: Bytes, s: Bytes, r: Bytes)
    requires (forall i :: 0 <= i < |l| ==> IsSpace(l[i])) && forall i :: 0 <= i < |r| ==> IsSpace(r[i])
    requires s != [] && !IsSpace(s[0]) && !IsSpace(s[|s| - 1])
    ensures TrimSpace(l + s + r) == s
    decreases |l| + |r|
  {
    var t := l + s + r;
    if l != [] {
      assert t[0] == l[0] && t[1..] == l[1..] + s + r;
      BlanksTrimmed(l[1..], s, r);
    } else if r != [] {
      assert t[0] == s[0] && t[|t| - 1] == r[|r| - 1] && t[..|t| - 1] == l + s + r[..|r| - 1];
      BlanksTrimmed(l, s, r[..|r| - 1]);
    } else {
      assert t == s;
    }
  }

  // ---------- Queries ----------

  lemma EmptyQuery(cfg: CacheKey)
    ensures ParseQuery([]) == Pairs([]) && SortedQuery([], cfg) == []
  {
    var one: seq<Bytes> := [[]];
    assert Split([], '&') == one && one[1..] == [];
    assert ParsePieces([]) == Pairs([]);
    assert Filter([], cfg) == [] && Sort(PAIR_ORDER, []) == [];
  }

  /** By default, two requests that differ in their queries alone share a key exactly when the queries carry the same
      parameters, each as often; with rules, when they agree on the parameters that count. */
  lemma QueriesCount(r: Request, query: Bytes, cfg: CacheKey)
    requires PlainNames(cfg) && Plain(r, cfg) && !cfg.excludeQuery && !cfg.preserveQueryOrder
    requires ParseQuery(r.rawQuery).Pairs? && ParseQuery(query).Pairs?
    ensures KeyOf(r, cfg) == KeyOf(r.(rawQuery := query), cfg) <==>
      QueryRules.AgreeOnCounting(ParseQuery(r.rawQuery).ps, ParseQuery(query).ps, cfg)
    ensures cfg.includedParams == [] && cfg.includedValues == map[] && cfg.excludedParams == [] && !cfg.excludeMarketing ==>
      (KeyOf(r, cfg) == KeyOf(r.(rawQuery := query), cfg) <==> multiset(ParseQuery(r.rawQuery).ps) == multiset(ParseQuery(query).ps))
  {
    hide KeyOf, KeyPath, KeyHost, SortedQuery, ParseQuery, PlainNames, HeaderValues, CookieValue, ResolveScheme, QueryRules.AgreeOnCounting;
    var r' := r.(rawQuery := query);
    PartsKept(r, r', cfg);
    KeysEqualExactly(r, r', cfg);
    EmptyQuery(cfg);
    QueryRules.SortedByRules(r.rawQuery, query, cfg);
    if cfg.includedParams == [] && cfg.includedValues == map[] && cfg.excludedParams == [] && !cfg.excludeMarketing {
      QueryRules.SortedWithoutRules(r.rawQuery, query, cfg);
    }
  }

  lemma PartsKept(r: Request, r': Request, cfg: CacheKey)
    requires r' == r.(rawQuery := r'.rawQuery)
    ensures KeyHost(r, cfg) == KeyHost(r', cfg) && ResolveScheme(r) == ResolveScheme(r')
    ensures forall h :: HeaderValues(r, h) == HeaderValues(r', h)
    ensures forall c :: CookieValue(r, c) == CookieValue(r', c)
  {
  }

  /** Left out of keys, queries make no difference, and hosts make none. */
  lemma LeftOut(r: Request, query: Bytes, host: Bytes, cfg: CacheKey)
    ensures cfg.excludeQuery ==> QueryPart(r.rawQuery, cfg) == QueryPart(query, cfg) == []
    ensures cfg.excludeHost ==> KeyHost(r, cfg) == KeyHost(r.(host := host), cfg) == []
  {
    hide OrderedQuery, SortedQuery, NormalizeHost;
  }

  /** Where their order is kept, written queries share a key exactly when their counting parameters are the same list. */
  lemma QueriesInOrder(r: Request, ps: seq<QueryRules.Piece>, qs: seq<QueryRules.Piece>, a: seq<Pair>, b: seq<Pair>, cfg: CacheKey)
    requires PlainNames(cfg) && Plain(r, cfg) && !cfg.excludeQuery && cfg.preserveQueryOrder
    requires ps != [] && QueryRules.Spells(ps, a) && QueryRules.Apart(ps) && qs != [] && QueryRules.Spells(qs, b) && QueryRules.Apart(qs)
    ensures var q1, q2 := Join(QueryRules.Texts(ps), '&'), Join(QueryRules.Texts(qs), '&');
      KeyOf(r.(rawQuery := q1), cfg) == KeyOf(r.(rawQuery := q2), cfg) <==> QueryRules.Counting(a, cfg) == QueryRules.Counting(b, cfg)
  {
    hide KeyOf, KeyPath, KeyHost, OrderedQuery, PlainNames, HeaderValues, CookieValue, ResolveScheme, QueryRules.Counting, QueryRules.Spells, QueryRules.Apart, Join;
    var r1, r2 := r.(rawQuery := Join(QueryRules.Texts(ps), '&')), r.(rawQuery := Join(QueryRules.Texts(qs), '&'));
    PartsKept(r, r1, cfg);
    PartsKept(r, r2, cfg);
    KeysEqualExactly(r1, r2, cfg);
    NothingOrdered(cfg);
    QueryRules.OrderedByRules(ps, qs, a, b, cfg);
  }

  lemma NothingOrdered(cfg: CacheKey)
    ensures OrderedQuery([], cfg) == []
  {
    var one: seq<Bytes> := [[]];
    assert Split([], '&') == one && one[1..] == [];
    assert LenientPieces(one) == [] + LenientPieces([]);
  }
}
