/** Keys without a host segment: exactly when they tell requests apart. */
module HostlessKeys {
  import opened Sorting
  import opened KeyBytes
  import opened UrlEscape
  import opened QueryString
  import opened PrimaryKey

  /** A GET or HEAD request for a rooted path whose key has no host segment. */
  ghost predicate Hostless(r: Request, cfg: CacheKey) {
    KeyMethod(r) == "GET" && (r.path == [] || Rooted(r.path)) && KeyHost(r, cfg) == []
  }

  /** The path of `r2` spells out the path and the query of `r1`. */
  ghost predicate Forges(r1: Request, r2: Request, cfg: CacheKey) {
    && !cfg.includeProtocol
    && QueryPart(r1.rawQuery, cfg) != [] && QueryPart(r2.rawQuery, cfg) == []
    && EscapedPath(KeyPath(r2.path, cfg))
       == EscapedPath(KeyPath(r1.path, cfg)) + ([':'] + QUERY_LABEL + QueryPart(r1.rawQuery, cfg))
    && SameExtras(r1, r2, cfg)
  }

  // ---------- The shape of a tail ----------

  function Extras(r: Request, cfg: CacheKey): seq<Bytes> {
    HeaderSegments(r, SortedHeaders(cfg)) + CookieSegments(r, SortedCookies(cfg))
  }

  function Before(r: Request, cfg: CacheKey): seq<Bytes> {
    Optional(cfg.includeProtocol, SchemeSegment(r)) + Optional(QueryPart(r.rawQuery, cfg) != [], QuerySegment(r, cfg))
  }

  lemma TailSpelled(r: Request, cfg: CacheKey)
    ensures TailSegments(r, cfg) == Before(r, cfg) + ([MethodSegment(r)] + Extras(r, cfg))
  {
    hide HeaderSegments, CookieSegments, QueryPart, SchemeSegment, QuerySegment, MethodSegment, Optional, Sort;
    assert SortedHeaders(cfg) == Sort(BYTE_ORDER, cfg.headerNames) && SortedCookies(cfg) == Sort(BYTE_ORDER, cfg.cookieNames);
  }

  ghost predicate StartsMethod(s: Bytes) { s != [] && s[0] == 'm' }

  lemma ExtrasNoMethod(r: Request, cfg: CacheKey)
    ensures forall s :: s in Extras(r, cfg) ==> !StartsMethod(s)
  {
    hide HeaderSegments, CookieSegments, IsHeaderSegment, IsCookieSegment, SortedHeaders, SortedCookies;
    forall s | s in Extras(r, cfg) ensures !StartsMethod(s) {
      HeaderMembers(r, cfg, s);
      CookieMembers(r, cfg, s);
      KindsDiffer(r, cfg, s);
    }
  }

  lemma BeforeNoMethod(r: Request, cfg: CacheKey)
    ensures forall s :: s in Before(r, cfg) ==> !StartsMethod(s)
    ensures StartsMethod(MethodSegment(r))
  {
    hide QueryPart, ResolveScheme, KeyMethod;
  }

  /** The method segment stands at one place only. */
  lemma MethodPlace(r: Request, cfg: CacheKey, i: nat)
    requires i < |TailSegments(r, cfg)|
    ensures StartsMethod(TailSegments(r, cfg)[i]) <==> i == |Before(r, cfg)|
  {
    TailSpelled(r, cfg);
    ExtrasNoMethod(r, cfg);
    BeforeNoMethod(r, cfg);
    hide TailSegments, Before, Extras, MethodSegment, StartsMethod;
    var b, t := Before(r, cfg), TailSegments(r, cfg);
    if i < |b| {
      assert t[i] == b[i] && b[i] in b;
    } else if i > |b| {
      assert t[i] == Extras(r, cfg)[i - |b| - 1] && Extras(r, cfg)[i - |b| - 1] in Extras(r, cfg);
    } else {
      assert t[i] == MethodSegment(r);
    }
  }

  // ---------- Pieces ----------

  lemma HostlessPieces(r: Request, cfg: CacheKey)
    requires PlainNames(cfg) && Hostless(r, cfg)
    ensures Split(KeyOf(r, cfg), ':') == Split(PathSegment(r, cfg), ':') + (TailSegments(r, cfg) + [[]])
  {
    hide PathSegment, HostSegment, TailSegments, Split, Closed, KeyHost, StartsHost, KeyMethod;
    var p, t := PathSegment(r, cfg), TailSegments(r, cfg);
    TailAllOk(r, cfg);
    SplitClosed(t);
    assert KeySegments(r, cfg) == [p] + t;
    ClosedCons(p, t);
    SplitConcat(p, ':', Closed(t));
  }

  lemma Realign(p1: seq<Bytes>, t1: seq<Bytes>, p2: seq<Bytes>, t2: seq<Bytes>)
    requires p1 + (t1 + [[]]) == p2 + (t2 + [[]]) && |p1| <= |p2|
    ensures |p2| - |p1| <= |t1| && t2 == t1[|p2| - |p1|..] && p2 == p1 + t1[..|p2| - |p1|]
  {
    var l, d := p1 + (t1 + [[]]), |p2| - |p1|;
    assert |l| == |p1| + |t1| + 1 && |l| == |p2| + |t2| + 1;
    assert l[|p2|..|l| - 1] == t2 && l[|p2|..|l| - 1] == t1[d..];
    assert l[..|p2|] == p2 && l[..|p2|] == p1 + t1[..d];
  }

  lemma BeforeInside(r: Request, cfg: CacheKey)
    ensures |Before(r, cfg)| < |TailSegments(r, cfg)|
  {
    hide TailSegments, Before, Extras, MethodSegment;
    TailSpelled(r, cfg);
  }

  /** Where two keys could fall apart differently, one has a query and the other has none. */
  lemma Offset(p1: seq<Bytes>, p2: seq<Bytes>, r1: Request, r2: Request, cfg: CacheKey)
    requires p1 + (TailSegments(r1, cfg) + [[]]) == p2 + (TailSegments(r2, cfg) + [[]]) && |p1| <= |p2|
    ensures |p2| - |p1| == |Before(r1, cfg)| - |Before(r2, cfg)| && |p2| - |p1| <= |TailSegments(r1, cfg)|
    ensures TailSegments(r2, cfg) == TailSegments(r1, cfg)[|p2| - |p1|..] && p2 == p1 + TailSegments(r1, cfg)[..|p2| - |p1|]
  {
    hide TailSegments, Before, StartsMethod;
    BeforeInside(r1, cfg);
    BeforeInside(r2, cfg);
    var t1, t2, d, b2 := TailSegments(r1, cfg), TailSegments(r2, cfg), |p2| - |p1|, |Before(r2, cfg)|;
    Realign(p1, t1, p2, t2);
    assert t1[d + b2] == t2[b2];
    MethodPlace(r1, cfg, d + b2);
    MethodPlace(r2, cfg, b2);
  }

  lemma SamePieces(r1: Request, r2: Request, cfg: CacheKey)
    requires PlainNames(cfg) && Hostless(r1, cfg) && Hostless(r2, cfg)
    requires PathSegment(r1, cfg) == PathSegment(r2, cfg) && TailSegments(r1, cfg) == TailSegments(r2, cfg)
    ensures SameParts(r1, r2, cfg)
  {
    TailDetermines(r1, r2, cfg);
    hide TailSegments, KeyPath, KeyHost, HeaderValues, CookieValue, QueryPart, ResolveScheme, PlainNames;
    var p1, p2 := PathSegment(r1, cfg), PathSegment(r2, cfg);
    assert EscapedPath(KeyPath(r1.path, cfg)) == p1[2..] && EscapedPath(KeyPath(r2.path, cfg)) == p2[2..];
    EscInjective(Path, KeyPath(r1.path, cfg), KeyPath(r2.path, cfg));
  }

  lemma BeforeCounts(r1: Request, r2: Request, cfg: CacheKey)
    requires |Before(r1, cfg)| >= |Before(r2, cfg)|
    ensures |Before(r1, cfg)| - |Before(r2, cfg)| <= 1
    ensures |Before(r1, cfg)| == |Before(r2, cfg)| + 1 ==> QueryPart(r1.rawQuery, cfg) != [] && QueryPart(r2.rawQuery, cfg) == []
    ensures !cfg.includeProtocol && QueryPart(r1.rawQuery, cfg) != [] ==> Before(r1, cfg) == [QuerySegment(r1, cfg)]
    ensures QueryPart(r2.rawQuery, cfg) == [] ==> Before(r2, cfg) == Optional(cfg.includeProtocol, SchemeSegment(r2))
    ensures cfg.includeProtocol && QueryPart(r1.rawQuery, cfg) != [] ==> Before(r1, cfg) == [SchemeSegment(r1), QuerySegment(r1, cfg)]
  {
    hide QueryPart, SchemeSegment, QuerySegment;
  }

  lemma LabelsDiffer(r1: Request, r2: Request, cfg: CacheKey)
    ensures QuerySegment(r1, cfg) != SchemeSegment(r2)
  {
    assert QuerySegment(r1, cfg)[0] == 'q' && SchemeSegment(r2)[0] == 's';
  }

  lemma SameTailExtras(r1: Request, r2: Request, cfg: CacheKey)
    requires PlainNames(cfg) && Extras(r1, cfg) == Extras(r2, cfg)
    ensures SameExtras(r1, r2, cfg)
  {
    hide Extras, PlainNames, IsHeaderSegment, IsCookieSegment;
    forall s ensures IsHeaderSegment(r1, cfg, s) <==> IsHeaderSegment(r2, cfg, s) { ExtraKinds(r1, r2, cfg, s); }
    forall s ensures IsCookieSegment(r1, cfg, s) <==> IsCookieSegment(r2, cfg, s) { ExtraKinds(r1, r2, cfg, s); }
    ExtrasDetermine(r1, r2, cfg);
  }

  lemma ExtraKinds(r1: Request, r2: Request, cfg: CacheKey, s: Bytes)
    requires Extras(r1, cfg) == Extras(r2, cfg)
    ensures IsHeaderSegment(r1, cfg, s) <==> IsHeaderSegment(r2, cfg, s)
    ensures IsCookieSegment(r1, cfg, s) <==> IsCookieSegment(r2, cfg, s)
  {
    hide HeaderSegments, CookieSegments, IsHeaderSegment, IsCookieSegment, SortedHeaders, SortedCookies;
    HeaderMembers(r1, cfg, s);
    HeaderMembers(r2, cfg, s);
    CookieMembers(r1, cfg, s);
    CookieMembers(r2, cfg, s);
    KindsDiffer(r1, cfg, s);
    KindsDiffer(r2, cfg, s);
    assert s in Extras(r1, cfg) <==> s in Extras(r2, cfg);
  }

  /** With the scheme in keys, a tail cannot start inside another. */
  lemma SchemeFirst(r1: Request, r2: Request, cfg: CacheKey)
    requires cfg.includeProtocol && QueryPart(r1.rawQuery, cfg) != [] && QueryPart(r2.rawQuery, cfg) == []
    ensures |TailSegments(r1, cfg)| > 1 && TailSegments(r2, cfg) != TailSegments(r1, cfg)[1..]
  {
    hide TailSegments, QuerySegment, SchemeSegment, MethodSegment, Extras, QueryPart;
    TailSpelled(r1, cfg);
    TailSpelled(r2, cfg);
    LabelsDiffer(r1, r2, cfg);
    assert TailSegments(r1, cfg)[1] == QuerySegment(r1, cfg) && TailSegments(r2, cfg)[0] == SchemeSegment(r2);
  }

  /** Equal keys: the same parts, or one path spells out the other's query. */
  lemma HostlessDetermines(r1: Request, r2: Request, cfg: CacheKey)
    requires PlainNames(cfg) && Hostless(r1, cfg) && Hostless(r2, cfg) && KeyOf(r1, cfg) == KeyOf(r2, cfg)
    requires |Split(PathSegment(r1, cfg), ':')| <= |Split(PathSegment(r2, cfg), ':')|
    ensures SameParts(r1, r2, cfg) || Forges(r1, r2, cfg)
  {
    hide Split, TailSegments, Before, PathSegment, QuerySegment, SchemeSegment, Join, PlainNames, QueryPart, SameParts,
      Forges, Hostless, KeyOf;
    var p1, p2 := Split(PathSegment(r1, cfg), ':'), Split(PathSegment(r2, cfg), ':');
    HostlessPieces(r1, cfg);
    HostlessPieces(r2, cfg);
    Offset(p1, p2, r1, r2, cfg);
    BeforeInside(r1, cfg);
    BeforeCounts(r1, r2, cfg);
    JoinSplit(PathSegment(r1, cfg), ':');
    JoinSplit(PathSegment(r2, cfg), ':');
    if |p1| == |p2| {
      assert p2 == p1 && TailSegments(r1, cfg) == TailSegments(r2, cfg);
      SamePieces(r1, r2, cfg);
    } else {
      assert TailSegments(r2, cfg) == TailSegments(r1, cfg)[1..];
      if cfg.includeProtocol { SchemeFirst(r1, r2, cfg); }
      QueryShift(r1, r2, cfg, p1, p2);
    }
  }

  lemma QueryShift(r1: Request, r2: Request, cfg: CacheKey, p1: seq<Bytes>, p2: seq<Bytes>)
    requires PlainNames(cfg) && !cfg.includeProtocol
    requires QueryPart(r1.rawQuery, cfg) != [] && QueryPart(r2.rawQuery, cfg) == []
    requires |TailSegments(r1, cfg)| > 0 && |p1| > 0 && p2 == p1 + TailSegments(r1, cfg)[..1] && TailSegments(r2, cfg) == TailSegments(r1, cfg)[1..]
    requires Join(p1, ':') == PathSegment(r1, cfg) && Join(p2, ':') == PathSegment(r2, cfg)
    ensures Forges(r1, r2, cfg)
  {
    hide TailSegments, Join, PlainNames, QueryPart, SameExtras, EscapedPath, KeyPath, PathSegment, QuerySegment, Extras;
    ShiftedTail(r1, r2, cfg);
    SameTailExtras(r1, r2, cfg);
    JoinSnoc(p1, QuerySegment(r1, cfg), ':');
    ShiftedPath(r1, r2, cfg);
  }

  lemma ShiftedTail(r1: Request, r2: Request, cfg: CacheKey)
    requires !cfg.includeProtocol && QueryPart(r1.rawQuery, cfg) != [] && QueryPart(r2.rawQuery, cfg) == []
    requires |TailSegments(r1, cfg)| > 0 && TailSegments(r2, cfg) == TailSegments(r1, cfg)[1..]
    ensures TailSegments(r1, cfg)[..1] == [QuerySegment(r1, cfg)] && Extras(r1, cfg) == Extras(r2, cfg)
  {
    hide TailSegments, QueryPart, MethodSegment, Extras, QuerySegment;
    TailSpelled(r1, cfg);
    TailSpelled(r2, cfg);
    TailSplits(TailSegments(r1, cfg), QuerySegment(r1, cfg), MethodSegment(r1), Extras(r1, cfg));
    TailRest(TailSegments(r2, cfg), MethodSegment(r2), Extras(r2, cfg));
  }

  lemma TailSplits(t: seq<Bytes>, q: Bytes, m: Bytes, e: seq<Bytes>)
    requires t == [q] + ([m] + e)
    ensures t[..1] == [q] && t[1..] == [m] + e && t[1..][1..] == e
  {
  }

  lemma TailRest(t: seq<Bytes>, m: Bytes, e: seq<Bytes>)
    requires t == [] + ([m] + e)
    ensures t[1..] == e
  {
  }

  lemma ShiftedPath(r1: Request, r2: Request, cfg: CacheKey)
    requires PathSegment(r2, cfg) == PathSegment(r1, cfg) + [':'] + QuerySegment(r1, cfg)
    ensures EscapedPath(KeyPath(r2.path, cfg))
         == EscapedPath(KeyPath(r1.path, cfg)) + ([':'] + QUERY_LABEL + QueryPart(r1.rawQuery, cfg))
  {
    hide EscapedPath, KeyPath, QueryPart;
    var e1, e2, q := EscapedPath(KeyPath(r1.path, cfg)), EscapedPath(KeyPath(r2.path, cfg)), QuerySegment(r1, cfg);
    DropLabel(e1, e2, q);
    assert [':'] + q == [':'] + QUERY_LABEL + QueryPart(r1.rawQuery, cfg);
  }

  lemma DropLabel(e1: Bytes, e2: Bytes, q: Bytes)
    requires PATH_LABEL + e2 == PATH_LABEL + e1 + [':'] + q
    ensures e2 == e1 + ([':'] + q)
  {
    assert e2 == (PATH_LABEL + e2)[2..];
    assert (PATH_LABEL + e1 + [':'] + q)[2..] == e1 + ([':'] + q);
  }

  // ---------- The other direction ----------

  lemma ExtrasSame(r1: Request, r2: Request, cfg: CacheKey)
    requires SameExtras(r1, r2, cfg)
    ensures Extras(r1, cfg) == Extras(r2, cfg)
  {
    hide HeaderSegments, CookieSegments, HeaderValues, CookieValue, Sort;
    forall h ensures h in SortedHeaders(cfg) <==> h in cfg.headerNames { SortedHeaderMembers(cfg, h); }
    forall c ensures c in SortedCookies(cfg) <==> c in cfg.cookieNames { SortedCookieMembers(cfg, c); }
    SegmentsAgree(r1, r2, SortedHeaders(cfg), SortedCookies(cfg));
  }

  lemma SharedMethod(r1: Request, r2: Request)
    requires KeyMethod(r1) == KeyMethod(r2)
    ensures MethodSegment(r1) == MethodSegment(r2)
  {
  }

  lemma ForgedTails(r1: Request, r2: Request, cfg: CacheKey)
    requires Hostless(r1, cfg) && Hostless(r2, cfg) && Forges(r1, r2, cfg)
    ensures TailSegments(r1, cfg) == [QuerySegment(r1, cfg)] + TailSegments(r2, cfg)
  {
    hide TailSegments, MethodSegment, Extras, QueryPart, SameExtras, EscapedPath, KeyPath, KeyHost, KeyMethod, QuerySegment;
    ExtrasSame(r1, r2, cfg);
    SharedMethod(r1, r2);
    TailSpelled(r1, cfg);
    TailSpelled(r2, cfg);
    TailRest(TailSegments(r2, cfg), MethodSegment(r2), Extras(r2, cfg));
    assert TailSegments(r2, cfg) == [MethodSegment(r1)] + Extras(r1, cfg);
  }

  lemma ForgedKeysEqual(r1: Request, r2: Request, cfg: CacheKey)
    requires Hostless(r1, cfg) && Hostless(r2, cfg) && Forges(r1, r2, cfg)
    ensures KeyOf(r1, cfg) == KeyOf(r2, cfg)
  {
    hide TailSegments, EscapedPath, KeyPath, KeyHost, Closed, QueryPart, SameExtras, KeyMethod;
    ForgedTails(r1, r2, cfg);
    var p1, p2, q, rest := PathSegment(r1, cfg), PathSegment(r2, cfg), QuerySegment(r1, cfg), TailSegments(r2, cfg);
    assert [':'] + q == [':'] + QUERY_LABEL + QueryPart(r1.rawQuery, cfg);
    assert p2 == p1 + ([':'] + q);
    assert KeySegments(r1, cfg) == [p1] + ([q] + rest) && KeySegments(r2, cfg) == [p2] + rest;
    hide PathSegment, QuerySegment, KeySegments;
    ClosedCons(p1, [q] + rest);
    ClosedCons(q, rest);
    ClosedCons(p2, rest);
    Regrouped(p1, q, Closed(rest));
  }

  lemma Regrouped(p: Bytes, q: Bytes, c: Bytes)
    ensures p + [':'] + (q + [':'] + c) == p + ([':'] + q) + [':'] + c
  {
  }

  lemma SamePartsSameKey(r1: Request, r2: Request, cfg: CacheKey)
    requires Hostless(r1, cfg) && Hostless(r2, cfg) && SameParts(r1, r2, cfg)
    ensures KeyOf(r1, cfg) == KeyOf(r2, cfg)
  {
    ExtrasSame(r1, r2, cfg);
    SharedMethod(r1, r2);
    TailSpelled(r1, cfg);
    TailSpelled(r2, cfg);
    hide Extras, MethodSegment, KeyPath, KeyHost, QueryPart, ResolveScheme, HeaderValues, CookieValue, TailSegments, KeyMethod, Closed;
    assert Before(r1, cfg) == Before(r2, cfg);
  }

  /** Without a host segment, two GET or HEAD requests share a key exactly when they agree on every part that
      makes keys, or the path of one spells out the path and query of the other. */
  lemma HostlessKeysEqualExactly(r1: Request, r2: Request, cfg: CacheKey)
    requires PlainNames(cfg) && Hostless(r1, cfg) && Hostless(r2, cfg)
    ensures KeyOf(r1, cfg) == KeyOf(r2, cfg) <==>
      SameParts(r1, r2, cfg) || Forges(r1, r2, cfg) || Forges(r2, r1, cfg)
  {
    hide PlainNames, Hostless, Split, PathSegment, KeyOf, SameParts, Forges;
    if KeyOf(r1, cfg) == KeyOf(r2, cfg) {
      if |Split(PathSegment(r1, cfg), ':')| <= |Split(PathSegment(r2, cfg), ':')| {
        HostlessDetermines(r1, r2, cfg);
      } else {
        HostlessDetermines(r2, r1, cfg);
        SamePartsBack(r2, r1, cfg);
      }
    }
    if SameParts(r1, r2, cfg) { SamePartsSameKey(r1, r2, cfg); }
    if Forges(r1, r2, cfg) { ForgedKeysEqual(r1, r2, cfg); }
    if Forges(r2, r1, cfg) { ForgedKeysEqual(r2, r1, cfg); }
  }

  lemma SamePartsBack(r1: Request, r2: Request, cfg: CacheKey)
    ensures SameParts(r1, r2, cfg) <==> SameParts(r2, r1, cfg)
  {
    hide KeyPath, KeyHost, ResolveScheme, QueryPart, HeaderValues, CookieValue;
  }

  // ---------- Conditions on a request ----------

  predicate OpensQuery(e: Bytes, i: nat) { i + 4 <= |e| && e[i..i + 4] == [':'] + QUERY_LABEL }

  /** Nothing after a colon of the path opens a query. */
  ghost predicate SpellsNoQuery(r: Request, cfg: CacheKey) {
    forall i :: !OpensQuery(EscapedPath(KeyPath(r.path, cfg)), i)
  }

  lemma SpellingShows(r1: Request, r2: Request, cfg: CacheKey)
    requires Forges(r1, r2, cfg)
    ensures !SpellsNoQuery(r2, cfg)
  {
    hide EscapedPath, KeyPath, QueryPart, SameExtras;
    var a, q := EscapedPath(KeyPath(r1.path, cfg)), QueryPart(r1.rawQuery, cfg);
    var e := EscapedPath(KeyPath(r2.path, cfg));
    assert e[|a|..] == [':'] + QUERY_LABEL + q;
    assert e[|a|..|a| + 4] == e[|a|..][..4];
    assert OpensQuery(e, |a|);
  }

  /** Keys that carry the scheme, and keys of paths in which no colon is followed by `qs=`, need no host to
      tell requests apart. */
  lemma HostlessKeysDecode(r1: Request, r2: Request, cfg: CacheKey)
    requires PlainNames(cfg) && Hostless(r1, cfg) && Hostless(r2, cfg)
    requires cfg.includeProtocol || (SpellsNoQuery(r1, cfg) && SpellsNoQuery(r2, cfg))
    ensures KeyOf(r1, cfg) == KeyOf(r2, cfg) <==> SameParts(r1, r2, cfg)
  {
    hide PlainNames, Hostless, KeyOf, SameParts, SpellsNoQuery;
    HostlessKeysEqualExactly(r1, r2, cfg);
    if Forges(r1, r2, cfg) && !cfg.includeProtocol { SpellingShows(r1, r2, cfg); }
    if Forges(r2, r1, cfg) && !cfg.includeProtocol { SpellingShows(r2, r1, cfg); }
  }

  /** Every path can be forged: `/a:qs=x=1` and `/a?x=1` share a key. */
  lemma PathForgesQuery(r1: Request, r2: Request, cfg: CacheKey, p: Bytes, q: Bytes)
    requires Hostless(r1, cfg) && Hostless(r2, cfg) && !cfg.includeProtocol && Rooted(p) && SameExtras(r1, r2, cfg)
    requires q != [] && forall i :: 0 <= i < |q| ==> Keeps(Path, q[i])
    requires KeyPath(r1.path, cfg) == p && QueryPart(r1.rawQuery, cfg) == q
    requires KeyPath(r2.path, cfg) == p + ([':'] + QUERY_LABEL + q) && QueryPart(r2.rawQuery, cfg) == []
    ensures Forges(r1, r2, cfg) && KeyOf(r1, cfg) == KeyOf(r2, cfg)
  {
    hide Hostless, KeyPath, QueryPart, Esc, KeyOf, SameExtras;
    EscConcat(Path, p, [':'] + QUERY_LABEL + q);
    KeptEscapes([':'] + QUERY_LABEL + q);
    ForgedKeysEqual(r1, r2, cfg);
  }
}
