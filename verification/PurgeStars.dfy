/** Purge patterns scoped to a host, with and without a star inside. */
module PurgeStars {
  import opened KeyBytes
  import opened UrlEscape
  import opened QueryString
  import opened PrimaryKey
  import opened Purge

  // ---------- A star inside ----------

  lemma {:induction false} RunAnywhere(ts: seq<Tok>, s: Bytes)
    requires Free(s, '\n')
    ensures Matches([Run] + ts, s) <==> exists j :: 0 <= j <= |s| && Matches(ts, s[j..])
    decreases |s|
  {
    assert ([Run] + ts)[1..] == ts;
    assert s[0..] == s;
    if s != [] {
      RunAnywhere(ts, s[1..]);
      hide Matches;
      forall j | 0 <= j < |s| ensures s[1..][j..] == s[j + 1..] {}
      if j :| 0 <= j <= |s| && Matches(ts, s[j..]) {
        if j > 0 { assert Matches(ts, s[1..][j - 1..]); }
      }
    }
  }

  /** The text stands in `s` at or after `from`. */
  ghost predicate Occurs(s: Bytes, q: Bytes, from: nat) { exists i :: from <= i <= |s| && q <= s[i..] }

  /** A literal, a star, a literal, a star: the first opens the key, the second stands anywhere after it. */
  lemma InnerStar(p: Bytes, q: Bytes, key: Bytes)
    requires Literal(p) && Literal(q) && Free(key, '\n')
    ensures Matches(Compile(p + (['*'] + (q + ['*']))), key) <==> p <= key && Occurs(key, q, |p|)
  {
    hide Matches, Compile, Literal;
    LiteralMatches(p, ['*'] + (q + ['*']), key);
    if p <= key {
      var s := key[|p|..];
      StarFirst(q + ['*']);
      RunAnywhere(Compile(q + ['*']), s);
      forall j | 0 <= j <= |s| ensures Matches(Compile(q + ['*']), s[j..]) <==> q <= key[|p| + j..] {
        assert s[j..] == key[|p| + j..];
        PrefixPattern(q, s[j..]);
      }
      if Occurs(key, q, |p|) {
        var i :| |p| <= i <= |key| && q <= key[i..];
        assert Matches(Compile(q + ['*']), s[i - |p|..]);
      }
    }
  }

  lemma StarFirst(q: Bytes)
    ensures Compile(['*'] + q) == [Run] + Compile(q)
  {
    assert (['*'] + q)[1..] == q;
  }

  // ---------- Where the host stands ----------

  function Front(r: Request, cfg: CacheKey): Bytes { PATH_LABEL + EscapedPath(KeyPath(r.path, cfg)) }

  lemma FrontFree(r: Request, cfg: CacheKey)
    requires Free(KeyPath(r.path, cfg), ':')
    ensures Free(Front(r, cfg), ':')
  {
    hide KeyPath;
    EscFreeOf(Path, KeyPath(r.path, cfg), ':');
  }

  /** No piece after the front's own and the one that follows them opens the host. */
  lemma HostPiece(front: seq<Bytes>, hs: seq<Bytes>, ts: seq<Bytes>, pa: seq<Bytes>, pb: seq<Bytes>)
    requires front + hs + ts == pa + pb && HostPieces(hs) && TailPieces(ts)
    requires pa != [] && pb != [] && StartsHost(pb[0])
    ensures |pa| <= |front| && pa == front[..|pa|]
  {
    var l := front + hs + ts;
    assert l[|pa|] == pb[0];
    HostNotLater(front, hs, ts, |pa|);
    assert pa == l[..|pa|];
  }

  lemma {:induction false} JoinOpens(ps: seq<Bytes>, n: nat)
    requires 0 < n <= |ps|
    ensures |Join(ps[..n], ':')| <= |Join(ps, ':')|
    decreases |ps| - n
  {
    if n < |ps| {
      JoinOpens(ps, n + 1);
      assert ps[..n + 1] == ps[..n] + [ps[n]];
      JoinSnoc(ps[..n], ps[n], ':');
    } else {
      assert ps[..n] == ps;
    }
  }

  lemma HostOpens(key: Bytes, front: Bytes, hs: seq<Bytes>, ts: seq<Bytes>, a: Bytes, b: Bytes)
    requires Split(key, ':') == Split(front, ':') + hs + ts && HostPieces(hs) && TailPieces(ts)
    requires key == a + [':'] + b && HOST_LABEL <= b
    ensures |a| <= |front|
  {
    hide Split, HostPieces, TailPieces, Join, StartsHost;
    SplitConcat(a, ':', b);
    HostFront(b);
    HostPiece(Split(front, ':'), hs, ts, Split(a, ':'), Split(b, ':'));
    JoinSplit(a, ':');
    JoinSplit(front, ':');
    JoinOpens(Split(front, ':'), |Split(a, ':')|);
  }

  /** After a key's path, `:h=` stands right there and nowhere later. */
  lemma HostPlace(r: Request, cfg: CacheKey, i: nat)
    requires PlainNames(cfg) && Plain(r, cfg)
    requires i <= |KeyOf(r, cfg)| && [':'] + HOST_LABEL <= KeyOf(r, cfg)[i..]
    ensures i <= |Front(r, cfg)|
  {
    hide KeyPath, KeyHost, TailSegments, HostSegment, KeyOf, HostPieces, TailPieces, Split, PlainNames, Plain, EscapedPath;
    KeyPieces(r, cfg);
    var key := KeyOf(r, cfg);
    CutAt(key, i);
    HostOpens(key, Front(r, cfg), Split(HostSegment(r, cfg), ':'), TailSegments(r, cfg) + [[]], key[..i], key[i + 1..]);
  }

  lemma CutAt(key: Bytes, i: nat)
    requires i <= |key| && [':'] + HOST_LABEL <= key[i..]
    ensures i < |key| && key == key[..i] + [':'] + key[i + 1..] && HOST_LABEL <= key[i + 1..]
  {
    var t := key[i..];
    assert t[..3] == [':'] + HOST_LABEL;
    assert key[i + 1..] == t[1..] && t[1..][..2] == HOST_LABEL;
  }

  lemma HostFront(b: Bytes)
    requires HOST_LABEL <= b
    ensures StartsHost(Split(b, ':')[0])
  {
    var t := b[2..];
    assert b == ['h'] + (['='] + t);
    SplitCons('=', t, ':');
    SplitCons('h', ['='] + t, ':');
    hide Split;
    var r := Split(t, ':');
    assert Split(['='] + t, ':') == [['='] + r[0]] + r[1..];
  }

  // ---------- Scopes ----------

  /** The text after the host label of a target: host, colon, and the scheme segment if it has one. */
  function Scope(t: Target, cfg: CacheKey): Bytes { TargetHost(t) + [':'] + SchemePart(t, cfg) }

  /** The key's host and scheme answer to the target: the host is the target's or, without a scheme in the target, the
      target's with a port; a scheme in the target is the key's. */
  ghost predicate InScope(t: Target, r: Request, cfg: CacheKey) {
    if SchemePart(t, cfg) == [] then KeyHost(r, cfg) == TargetHost(t) || TargetHost(t) + [':'] <= KeyHost(r, cfg)
    else KeyHost(r, cfg) == TargetHost(t) && t.scheme == ResolveScheme(r)
  }

  /** Host, colon, labelled piece, colon. */
  lemma LabelledScope(h: Bytes, z: Bytes, kh: Bytes, first: Bytes, more: Bytes)
    requires Free(h, '=') && Free(kh, '=') && Free(z, ':') && '=' in z && Free(first, ':') && '=' in first
    ensures h + [':'] + (z + [':']) <= kh + [':'] + (first + [':'] + more) <==> kh == h && z == first
  {
    var u, v := h + [':'] + (z + [':']), kh + [':'] + (first + [':'] + more);
    if u <= v {
      hide Split, Join;
      PrefixPieces(u, v);
      ScopePieces(h, z, []);
      ScopePieces(kh, first, more);
      DropLast(Split(u[..|u| - 1], ':'), Split(h, ':'), z);
      SamePlace(Split(h, ':'), z, Split(kh, ':'), first, Split(more, ':'), Split(v, ':'));
      JoinSplit(h, ':');
      JoinSplit(kh, ':');
    }
    if kh == h && z == first {
      assert u == v[..|u|];
    }
  }

  lemma DropLast(a: seq<Bytes>, h: seq<Bytes>, z: Bytes)
    requires a + [[]] == h + ([z] + [[]])
    ensures a == h + [z]
  {
    assert a == (a + [[]])[..|a|];
  }

  /** The pieces of a text ending in a colon open the pieces of every text it opens. */
  lemma PrefixPieces(u: Bytes, v: Bytes)
    requires u <= v && u != [] && u[|u| - 1] == ':'
    ensures var a := Split(u[..|u| - 1], ':'); |a| <= |Split(v, ':')| && Split(v, ':')[..|a|] == a
    ensures Split(u, ':') == Split(u[..|u| - 1], ':') + [[]]
  {
    hide Split;
    var w, rest := u[..|u| - 1], v[|u|..];
    assert v == w + [':'] + rest && u == w + [':'] + [];
    SplitConcat(w, ':', rest);
    SplitConcat(w, ':', []);
    SplitNone(':');
  }

  lemma ScopePieces(h: Bytes, z: Bytes, more: Bytes)
    requires Free(z, ':') && Free(h, '=')
    ensures Split(h + [':'] + (z + [':'] + more), ':') == Split(h, ':') + ([z] + Split(more, ':'))
    ensures Split(h + [':'] + (z + [':']), ':') == Split(h, ':') + ([z] + [[]])
    ensures forall i :: 0 <= i < |Split(h, ':')| ==> Free(Split(h, ':')[i], '=')
  {
    hide Split;
    SplitConcat(h, ':', z + [':'] + more);
    SplitConcat(z, ':', more);
    SplitFree(z, ':');
    SplitNone(':');
    assert z + [':'] + [] == z + [':'];
    SplitConcat(z, ':', []);
    SplitConcat(h, ':', z + [':']);
    FreePieces(h, ':', '=');
  }

  /** The first piece with an equal sign stands at the same place. */
  lemma SamePlace(a: seq<Bytes>, z: Bytes, b: seq<Bytes>, first: Bytes, y: seq<Bytes>, l: seq<Bytes>)
    requires l == b + ([first] + y) && |a| + 1 <= |l| && l[..|a| + 1] == a + [z]
    requires '=' in z && '=' in first
    requires (forall i :: 0 <= i < |a| ==> Free(a[i], '=')) && (forall i :: 0 <= i < |b| ==> Free(b[i], '='))
    ensures a == b && z == first
  {
    assert l[|a|] == l[..|a| + 1][|a|] == z && l[|b|] == first;
    forall i | 0 <= i < |b| ensures Free(l[i], '=') { assert l[i] == b[i]; }
    forall i | 0 <= i < |a| ensures Free(l[i], '=') { assert l[i] == l[..|a| + 1][i] == a[i]; }
    assert |a| == |b|;
    assert a == l[..|a| + 1][..|a|] && b == l[..|b|];
  }

  lemma SchemeText(t: Target, cfg: CacheKey)
    requires SchemePart(t, cfg) != []
    ensures SchemePart(t, cfg) == (SCHEME_LABEL + t.scheme) + [':'] && '=' in SCHEME_LABEL + t.scheme
  {
    assert (SCHEME_LABEL + t.scheme)[1] == '=';
  }

  /** The first segment after the host is the scheme's when keys hold schemes. */
  lemma FirstSegment(r: Request, cfg: CacheKey) returns (first: Bytes, more: Bytes)
    requires PlainNames(cfg) && Plain(r, cfg)
    ensures Free(first, ':') && '=' in first
    ensures cfg.includeProtocol ==> first == SCHEME_LABEL + ResolveScheme(r)
    ensures KeyOf(r, cfg) == Front(r, cfg) + ([':'] + HOST_LABEL + (KeyHost(r, cfg) + [':'] + (first + [':'] + more)))
  {
    hide KeyPath, KeyOf, EscapedPath, Closed, KeyHost, QueryPart, HeaderSegments, CookieSegments, PlainNames, Plain, ResolveScheme;
    var tail := TailSegments(r, cfg);
    KeyHasHost(r, cfg);
    KeyIsClosed(r, cfg);
    TailAllOk(r, cfg);
    TailStarts(r, cfg);
    first, more := tail[0], Closed(tail[1..]);
    assert cfg.includeProtocol ==> tail[0] == SchemeSegment(r);
    hide TailSegments;
    assert tail == [tail[0]] + tail[1..];
    ClosedCons(tail[0], tail[1..]);
    Regroup4(Front(r, cfg), KeyHost(r, cfg), first + [':'] + more);
  }

  lemma KeyHasHost(r: Request, cfg: CacheKey)
    requires Plain(r, cfg)
    ensures KeyHost(r, cfg) != [] && Free(KeyHost(r, cfg), '=') && KeyMethod(r) == "GET"
  {
  }

  lemma Regroup4(f: Bytes, h: Bytes, rest: Bytes)
    ensures f + [':'] + (HOST_LABEL + h + [':'] + rest) == f + ([':'] + HOST_LABEL + (h + [':'] + rest))
  {
  }

  /** Without a scheme: the host, or the host and a port. */
  lemma HostOnly(h: Bytes, kh: Bytes, first: Bytes, more: Bytes)
    requires Free(h, '=') && Free(first, ':') && '=' in first
    ensures h + [':'] <= kh + [':'] + (first + [':'] + more) <==> kh == h || h + [':'] <= kh
  {
    var rest := first + [':'] + more;
    ColonPrefix(h, kh, rest);
    if kh + [':'] <= h && h[|kh| + 1..] + [':'] <= rest { LabelInside(h[|kh| + 1..], first, more); }
  }

  lemma SameScheme(a: Bytes, b: Bytes)
    ensures SCHEME_LABEL + a == SCHEME_LABEL + b <==> a == b
  {
    assert a == (SCHEME_LABEL + a)[2..] && b == (SCHEME_LABEL + b)[2..];
  }

  /** The target's host and scheme open what follows a key's host label exactly when the key is in scope. */
  lemma ScopeOpens(t: Target, r: Request, cfg: CacheKey, first: Bytes, more: Bytes)
    requires PlainNames(cfg) && Plain(r, cfg) && Free(TargetHost(t), '=') && Free(t.scheme, ':')
    requires Free(first, ':') && '=' in first && (cfg.includeProtocol ==> first == SCHEME_LABEL + ResolveScheme(r))
    ensures Scope(t, cfg) <= KeyHost(r, cfg) + [':'] + (first + [':'] + more) <==> InScope(t, r, cfg)
  {
    hide KeyHost, TargetHost, ResolveScheme, PlainNames, Plain;
    KeyHasHost(r, cfg);
    var h, kh, z := TargetHost(t), KeyHost(r, cfg), SCHEME_LABEL + t.scheme;
    if SchemePart(t, cfg) == [] {
      assert Scope(t, cfg) == h + [':'];
      HostOnly(h, kh, first, more);
    } else {
      SchemeText(t, cfg);
      assert Scope(t, cfg) == h + [':'] + (z + [':']);
      LabelledScope(h, z, kh, first, more);
      SameScheme(t.scheme, ResolveScheme(r));
    }
  }

  // ---------- Selection ----------

  ghost predicate Fit(t: Target, r: Request, cfg: CacheKey) {
    && HostPart(t, cfg) != [] && Rooted(t.path) && Rooted(r.path) && Free(KeyOf(r, cfg), '\n')
    && PlainNames(cfg) && Plain(r, cfg) && Free(TargetHost(t), '=') && Literal(TargetHost(t))
    && Free(t.scheme, ':') && Literal(t.scheme)
  }

  lemma ScopeText(t: Target, cfg: CacheKey)
    requires HostPart(t, cfg) != []
    ensures COLON + HostPart(t, cfg) + SchemePart(t, cfg) == [':'] + HOST_LABEL + Scope(t, cfg)
  {
    hide TargetHost;
  }

  lemma ScopeLiteral(t: Target, cfg: CacheKey)
    requires Literal(TargetHost(t)) && Literal(t.scheme)
    ensures Literal([':'] + HOST_LABEL + Scope(t, cfg))
  {
    hide TargetHost;
  }

  lemma FrontText(t: Target, cfg: CacheKey) returns (x: Bytes)
    requires Rooted(t.path)
    ensures x == PATH_LABEL + EscapedPath(KeyPath(t.path, cfg)) && Literal(x)
    ensures x == PATH_LABEL + Esc(Path, KeyPath(t.path, cfg))
  {
    hide KeyPath;
    x := PATH_LABEL + EscapedPath(KeyPath(t.path, cfg));
    EscapedLiteral(KeyPath(t.path, cfg));
    hide Esc;
  }

  lemma FrontOpens(t: Target, r: Request, cfg: CacheKey, x: Bytes)
    requires Rooted(t.path) && Rooted(r.path) && x == PATH_LABEL + Esc(Path, KeyPath(t.path, cfg))
    ensures x <= Front(r, cfg) <==> KeyPath(t.path, cfg) <= KeyPath(r.path, cfg)
  {
    hide KeyPath, Esc;
    LabelPrefix(Esc(Path, KeyPath(t.path, cfg)), Esc(Path, KeyPath(r.path, cfg)));
    EscPrefix(Path, KeyPath(t.path, cfg), KeyPath(r.path, cfg));
  }

  /** What a scoped target writes after its path. */
  function Scoped(t: Target, cfg: CacheKey): Bytes { [':'] + HOST_LABEL + Scope(t, cfg) }

  function TargetFront(t: Target, cfg: CacheKey): Bytes { PATH_LABEL + EscapedPath(KeyPath(t.path, cfg)) }

  /** The key's own path spells out a host label at `i`, and the target's scope after it. */
  ghost predicate SpelledAt(t: Target, r: Request, cfg: CacheKey, i: nat) {
    i < |Front(r, cfg)| && i <= |KeyOf(r, cfg)| && Scoped(t, cfg) <= KeyOf(r, cfg)[i..]
  }

  /** A prefix purge scoped to a host selects exactly the keys whose cleaned path extends the prefix and that are in scope
      or spell out the scope in the rest of their path. */
  lemma ScopedPrefixExactly(t: Target, r: Request, cfg: CacheKey)
    requires Fit(t, r, cfg)
    ensures Matches(Compile(PrefixGlob(t, cfg)), KeyOf(r, cfg)) <==>
      && KeyPath(t.path, cfg) <= KeyPath(r.path, cfg)
      && (InScope(t, r, cfg) || exists i :: |TargetFront(t, cfg)| <= i && SpelledAt(t, r, cfg, i))
  {
    hide KeyPath, KeyOf, KeyHost, TargetHost, Matches, Compile, Literal, PlainNames, Plain, HostPart, SchemePart, Scope, InScope, EscapedPath, Esc, Front;
    var key := KeyOf(r, cfg);
    var x := FrontText(t, cfg);
    var first, more := FirstSegment(r, cfg);
    var q, tail := Scoped(t, cfg), KeyHost(r, cfg) + [':'] + (first + [':'] + more);
    ScopeText(t, cfg);
    ScopeLiteral(t, cfg);
    PrefixSpelled(x, COLON + HostPart(t, cfg) + SchemePart(t, cfg), t, cfg);
    InnerStar(x, q, key);
    ScopeOpens(t, r, cfg, first, more);
    FrontOpens(t, r, cfg, x);
    NoLater(r, cfg);
    ScopeAfter(key, Front(r, cfg), Scope(t, cfg), tail, x);
    SpelledInside(t, r, cfg, |x|);
  }

  lemma SpelledInside(t: Target, r: Request, cfg: CacheKey, from: nat)
    requires Front(r, cfg) <= KeyOf(r, cfg)
    ensures (exists i :: from <= i && SpelledAt(t, r, cfg, i)) <==> Inside(KeyOf(r, cfg), Front(r, cfg), Scoped(t, cfg), from)
  {
    hide Front, KeyOf, Scoped;
    if Inside(KeyOf(r, cfg), Front(r, cfg), Scoped(t, cfg), from) {
      var i :| from <= i < |Front(r, cfg)| && i <= |KeyOf(r, cfg)| && Scoped(t, cfg) <= KeyOf(r, cfg)[i..];
      assert SpelledAt(t, r, cfg, i);
    }
  }

  /** On keys with colon-free paths a scoped prefix purge selects exactly those in scope that extend the prefix. */
  lemma PlainScopedPrefix(t: Target, r: Request, cfg: CacheKey)
    requires Fit(t, r, cfg) && Free(KeyPath(r.path, cfg), ':')
    ensures Matches(Compile(PrefixGlob(t, cfg)), KeyOf(r, cfg)) <==>
      KeyPath(t.path, cfg) <= KeyPath(r.path, cfg) && InScope(t, r, cfg)
  {
    ScopedPrefixExactly(t, r, cfg);
    hide *;
    forall i: nat ensures !SpelledAt(t, r, cfg, i) { NotSpelled(t, r, cfg, i); }
  }

  lemma NotSpelled(t: Target, r: Request, cfg: CacheKey, i: nat)
    requires PlainNames(cfg) && Plain(r, cfg) && Free(KeyPath(r.path, cfg), ':')
    ensures !SpelledAt(t, r, cfg, i)
  {
    hide KeyPath, Scope, KeyHost, PlainNames, Plain, EscapedPath, KeyOf;
    FrontFree(r, cfg);
    var first, more := FirstSegment(r, cfg);
    hide Front;
    if i < |Front(r, cfg)| {
      assert KeyOf(r, cfg)[i..][0] == Front(r, cfg)[i];
      assert Scoped(t, cfg)[0] == ':';
    }
  }

  lemma PrefixSpelled(x: Bytes, q: Bytes, t: Target, cfg: CacheKey)
    requires x == PATH_LABEL + EscapedPath(KeyPath(t.path, cfg)) && HostPart(t, cfg) != []
    requires q == COLON + HostPart(t, cfg) + SchemePart(t, cfg)
    ensures PrefixGlob(t, cfg) == x + (['*'] + (q + ['*']))
  {
    hide EscapedPath, KeyPath, HostPart, SchemePart;
  }

  /** No host label stands after the front's own. */
  ghost predicate LastPlace(key: Bytes, front: Bytes) {
    forall i :: 0 <= i <= |key| && [':'] + HOST_LABEL <= key[i..] ==> i <= |front|
  }

  lemma NoLater(r: Request, cfg: CacheKey)
    requires PlainNames(cfg) && Plain(r, cfg)
    ensures LastPlace(KeyOf(r, cfg), Front(r, cfg))
  {
    hide KeyPath, KeyOf, PlainNames, Plain, Front;
    var key := KeyOf(r, cfg);
    forall i | 0 <= i <= |key| && [':'] + HOST_LABEL <= key[i..] ensures i <= |Front(r, cfg)| { HostPlace(r, cfg, i); }
  }

  /** The text stands in the front from `from` on, or starts there. */
  ghost predicate Inside(key: Bytes, front: Bytes, q: Bytes, from: nat) {
    exists i :: from <= i < |front| && i <= |key| && q <= key[i..]
  }

  /** The scope stands in the key after `x` exactly when `x` opens the front and the scope the rest, or starts inside the
      front. */
  lemma ScopeAfter(key: Bytes, front: Bytes, scope: Bytes, tail: Bytes, x: Bytes)
    requires LastPlace(key, front) && key == front + ([':'] + HOST_LABEL + tail)
    ensures front <= key
    ensures var q := [':'] + HOST_LABEL + scope;
      x <= key && Occurs(key, q, |x|) <==> x <= front && (scope <= tail || Inside(key, front, q, |x|))
  {
    var q := [':'] + HOST_LABEL + scope;
    assert key[|front|..] == [':'] + HOST_LABEL + tail;
    LabelOpens(scope, tail);
    if Occurs(key, q, |x|) {
      var i :| |x| <= i <= |key| && q <= key[i..];
      LabelFirst(scope, key[i..]);
      assert i <= |front|;
    }
    if |x| <= |front| { PrefixShort(x, front, [':'] + HOST_LABEL + tail); }
    if x <= front && scope <= tail { assert q <= key[|front|..]; }
  }

  /** The scope stands right after `x`. */
  lemma ScopeNext(key: Bytes, front: Bytes, scope: Bytes, tail: Bytes, x: Bytes)
    requires LastPlace(key, front) && key == front + ([':'] + HOST_LABEL + tail)
    ensures var q := [':'] + HOST_LABEL + scope;
      x + q <= key <==> (x == front && scope <= tail) || (x <= front && |x| < |front| && q <= key[|x|..])
  {
    var q := [':'] + HOST_LABEL + scope;
    assert key[|front|..] == [':'] + HOST_LABEL + tail;
    LabelOpens(scope, tail);
    Consecutive(x, q, key);
    if x <= key && q <= key[|x|..] {
      LabelFirst(scope, key[|x|..]);
      assert |x| <= |front|;
    }
    if |x| <= |front| { PrefixShort(x, front, [':'] + HOST_LABEL + tail); }
  }

  lemma Consecutive(x: Bytes, q: Bytes, key: Bytes)
    ensures x + q <= key <==> x <= key && q <= key[|x|..]
  {
    if x + q <= key { assert x == key[..|x|] && q == key[|x|..][..|q|]; }
    if x <= key && q <= key[|x|..] { assert key == x + key[|x|..]; }
  }

  lemma LabelOpens(a: Bytes, b: Bytes)
    ensures [':'] + HOST_LABEL + a <= [':'] + HOST_LABEL + b <==> a <= b
  {
    var l: Bytes := [':'] + HOST_LABEL;
    PrefixLong(l + a, l, b);
    assert (l + a)[|l|..] == a;
  }

  lemma LabelFirst(a: Bytes, s: Bytes)
    requires [':'] + HOST_LABEL + a <= s
    ensures [':'] + HOST_LABEL <= s
  {
    var l: Bytes := [':'] + HOST_LABEL;
    assert s[..|l|] == (l + a)[..|l|] == l;
  }

  /** A path purge scoped to a host, and to a scheme if the target names one, selects exactly the path's keys in scope,
      without a scheme those on every port of the host, and the keys whose longer path spells out the scope right after
      the target's. */
  lemma ScopedPathExactly(t: Target, r: Request, cfg: CacheKey)
    requires Fit(t, r, cfg) && QueryPart(t.rawQuery, cfg) == []
    ensures OpOf(t, cfg).Pattern?
    ensures Matches(Compile(OpOf(t, cfg).glob), KeyOf(r, cfg)) <==>
      || (KeyPath(t.path, cfg) == KeyPath(r.path, cfg) && InScope(t, r, cfg))
      || (KeyPath(t.path, cfg) <= KeyPath(r.path, cfg) && SpelledAt(t, r, cfg, |TargetFront(t, cfg)|))
  {
    hide KeyPath, KeyOf, KeyHost, TargetHost, Matches, Compile, Literal, PlainNames, Plain, HostPart, SchemePart, Scope, InScope, EscapedPath, Esc, QueryPart, Front;
    var key := KeyOf(r, cfg);
    var x := FrontText(t, cfg);
    var first, more := FirstSegment(r, cfg);
    var q, tail := Scoped(t, cfg), KeyHost(r, cfg) + [':'] + (first + [':'] + more);
    ScopeText(t, cfg);
    ScopeLiteral(t, cfg);
    PathSpelled(x, COLON + HostPart(t, cfg) + SchemePart(t, cfg), t, cfg);
    BothLiteral(x, q);
    PrefixPattern(x + q, key);
    ScopeOpens(t, r, cfg, first, more);
    FrontsEqual(t, r, cfg, x);
    FrontOpens(t, r, cfg, x);
    NoLater(r, cfg);
    ScopeNext(key, Front(r, cfg), Scope(t, cfg), tail, x);
  }

  /** On keys with colon-free paths it selects exactly the path's keys in scope. */
  lemma PlainScopedPath(t: Target, r: Request, cfg: CacheKey)
    requires Fit(t, r, cfg) && QueryPart(t.rawQuery, cfg) == [] && Free(KeyPath(r.path, cfg), ':')
    ensures OpOf(t, cfg).Pattern?
    ensures Matches(Compile(OpOf(t, cfg).glob), KeyOf(r, cfg)) <==>
      KeyPath(t.path, cfg) == KeyPath(r.path, cfg) && InScope(t, r, cfg)
  {
    ScopedPathExactly(t, r, cfg);
    NotSpelled(t, r, cfg, |TargetFront(t, cfg)|);
    hide *;
  }

  /** A path that spells out the scope of a target is purged with it, whatever host its key is for. */
  lemma SpelledScopeSelected(t: Target, r: Request, cfg: CacheKey, rest: Bytes)
    requires Fit(t, r, cfg) && QueryPart(t.rawQuery, cfg) == []
    requires forall i :: 0 <= i < |Scope(t, cfg)| ==> Keeps(Path, Scope(t, cfg)[i])
    requires KeyPath(r.path, cfg) == KeyPath(t.path, cfg) + (Scoped(t, cfg) + rest)
    ensures OpOf(t, cfg).Pattern? && Matches(Compile(OpOf(t, cfg).glob), KeyOf(r, cfg))
  {
    hide KeyPath, KeyOf, KeyHost, TargetHost, Matches, Compile, PlainNames, Plain, HostPart, Scope, InScope, EscapedPath, Esc, QueryPart, Front, TargetFront, OpOf;
    ScopedPathExactly(t, r, cfg);
    var first, more := FirstSegment(r, cfg);
    var x, q, e := TargetFront(t, cfg), Scoped(t, cfg), Esc(Path, rest);
    SpelledFront(t, r, cfg, rest);
    var after := [':'] + HOST_LABEL + (KeyHost(r, cfg) + [':'] + (first + [':'] + more));
    assert KeyOf(r, cfg) == (x + (q + e)) + after;
    StandsAfter(x, q, e, after);
  }

  lemma StandsAfter(x: Bytes, q: Bytes, e: Bytes, after: Bytes)
    ensures q <= ((x + (q + e)) + after)[|x|..]
  {
    assert ((x + (q + e)) + after)[|x|..] == q + (e + after);
  }

  lemma SpelledFront(t: Target, r: Request, cfg: CacheKey, rest: Bytes)
    requires Rooted(t.path) && Rooted(r.path)
    requires forall i :: 0 <= i < |Scope(t, cfg)| ==> Keeps(Path, Scope(t, cfg)[i])
    requires KeyPath(r.path, cfg) == KeyPath(t.path, cfg) + (Scoped(t, cfg) + rest)
    ensures Front(r, cfg) == TargetFront(t, cfg) + (Scoped(t, cfg) + Esc(Path, rest))
  {
    hide KeyPath, Scope, Esc;
    var tp, q := KeyPath(t.path, cfg), Scoped(t, cfg);
    EscConcat(Path, tp, q + rest);
    EscConcat(Path, q, rest);
    assert forall i :: 0 <= i < |q| ==> Keeps(Path, q[i]);
    KeptEscapes(q);
  }

  lemma PathSpelled(x: Bytes, q: Bytes, t: Target, cfg: CacheKey)
    requires x == PATH_LABEL + EscapedPath(KeyPath(t.path, cfg)) && HostPart(t, cfg) != [] && QueryPart(t.rawQuery, cfg) == []
    requires q == COLON + HostPart(t, cfg) + SchemePart(t, cfg)
    ensures OpOf(t, cfg) == Pattern(x + q + ['*'])
  {
    hide EscapedPath, KeyPath, HostPart, SchemePart, QueryPart;
  }

  lemma BothLiteral(a: Bytes, b: Bytes)
    requires Literal(a) && Literal(b)
    ensures Literal(a + b)
  {
  }

  lemma FrontsEqual(t: Target, r: Request, cfg: CacheKey, x: Bytes)
    requires Rooted(t.path) && Rooted(r.path) && x == PATH_LABEL + Esc(Path, KeyPath(t.path, cfg))
    ensures x == Front(r, cfg) <==> KeyPath(t.path, cfg) == KeyPath(r.path, cfg)
  {
    hide KeyPath, Esc;
    var a, b := Esc(Path, KeyPath(t.path, cfg)), Esc(Path, KeyPath(r.path, cfg));
    assert x[2..] == a && Front(r, cfg)[2..] == b;
    if a == b { EscInjective(Path, KeyPath(t.path, cfg), KeyPath(r.path, cfg)); }
  }

  /** A path and query purged on every host: the key opens with the path and a host, and the scheme if the target names
      one and the query follow somewhere after it. */
  lemma AnyHostQueryExactly(t: Target, r: Request, cfg: CacheKey)
    requires QueryPart(t.rawQuery, cfg) != [] && !cfg.excludeHost && TargetHost(t) == []
    requires Rooted(t.path) && Literal(QueryPart(t.rawQuery, cfg)) && Literal(t.scheme) && Free(KeyOf(r, cfg), '\n')
    ensures OpOf(t, cfg).Pattern?
    ensures var front := PathPart(t, cfg) + HOST_LABEL;
      Matches(Compile(OpOf(t, cfg).glob), KeyOf(r, cfg)) <==>
        && front <= KeyOf(r, cfg)
        && Occurs(KeyOf(r, cfg), COLON + SchemePart(t, cfg) + QUERY_LABEL + QueryPart(t.rawQuery, cfg) + COLON, |front|)
  {
    hide KeyPath, KeyOf, TargetHost, Matches, Compile, QueryPart, EscapedPath, Esc, Occurs;
    var x := FrontText(t, cfg);
    var q := COLON + SchemePart(t, cfg) + QUERY_LABEL + QueryPart(t.rawQuery, cfg) + COLON;
    var front := PathPart(t, cfg) + HOST_LABEL;
    assert front == x + (COLON + HOST_LABEL);
    assert Literal(COLON + HOST_LABEL) && Literal(q);
    hide Literal;
    BothLiteral(x, COLON + HOST_LABEL);
    InnerStar(front, q, KeyOf(r, cfg));
    var m := SchemePart(t, cfg) + QUERY_LABEL + QueryPart(t.rawQuery, cfg);
    assert q == COLON + m + COLON;
    AnySpelled(PathPart(t, cfg), m, front, q);
    assert OpOf(t, cfg).glob == PathPart(t, cfg) + ANY_HOST + m + COLON_STAR;
  }

  lemma AnySpelled(p: Bytes, m: Bytes, front: Bytes, q: Bytes)
    requires front == p + HOST_LABEL && q == COLON + m + COLON
    ensures p + ANY_HOST + m + COLON_STAR == front + (['*'] + (q + ['*']))
  {
    assert ANY_HOST == HOST_LABEL + ['*'] + COLON && COLON_STAR == COLON + ['*'];
  }
}
