/** Which query parameters count, told from the configuration and the text of the query. */
module QueryRules {
  import opened Sorting
  import opened KeyBytes
  import opened UrlEscape
  import opened QueryString

  // ---------- Reading a query ----------

  /** A piece of a query: a name and a value with a `=` between them, a name alone, or nothing. */
  datatype Piece = Both(name: Bytes, value: Bytes) | Alone(name: Bytes) | Nothing

  function Text(p: Piece): Bytes {
    match p
    case Both(n, v) => n + ['='] + v
    case Alone(n) => n
    case Nothing => []
  }

  /** The piece says the parameter `k` with value `v`, percent-encoded. */
  ghost predicate Says(p: Piece, k: Bytes, v: Bytes) {
    match p
    case Both(n, t) => Free(n, '=') && Unescape(n) == Ok(k) && Unescape(t) == Ok(v)
    case Alone(n) => n != [] && Free(n, '=') && Unescape(n) == Ok(k) && v == []
    case Nothing => false
  }

  /** The parameters of a query are those its pieces say, in order. */
  ghost predicate Spells(ps: seq<Piece>, params: seq<Pair>)
    decreases |ps|
  {
    if ps == [] then params == []
    else if ps[0].Nothing? then Spells(ps[1..], params)
    else params != [] && Says(ps[0], params[0].k, params[0].v) && Spells(ps[1..], params[1..])
  }

  function Texts(ps: seq<Piece>): (r: seq<Bytes>)
    ensures |r| == |ps| && forall i :: 0 <= i < |ps| ==> r[i] == Text(ps[i])
  {
    if ps == [] then [] else [Text(ps[0])] + Texts(ps[1..])
  }

  lemma {:induction false} CutAt(n: Bytes, v: Bytes)
    requires Free(n, '=')
    ensures Cut(n + ['='] + v) == Pair(n, v) && Cut(n) == Pair(n, [])
  {
    if n == [] {
      assert (n + ['='] + v)[0] == '=' && (n + ['='] + v)[1..] == v;
    } else {
      CutAt(n[1..], v);
      assert (n + ['='] + v)[1..] == n[1..] + ['='] + v && (n + ['='] + v)[0] == n[0];
      assert n == [n[0]] + n[1..];
    }
  }

  lemma SaysCut(p: Piece, k: Bytes, v: Bytes)
    requires Says(p, k, v)
    ensures Text(p) != [] && Unescape(Cut(Text(p)).k) == Ok(k) && Unescape(Cut(Text(p)).v) == Ok(v)
  {
    match p
    case Both(n, t) => CutAt(n, t);
    case Alone(n) => CutAt(n, []);
  }

  lemma {:induction false} PiecesRead(ps: seq<Piece>, params: seq<Pair>)
    requires Spells(ps, params) && forall i :: 0 <= i < |ps| ==> Free(Text(ps[i]), ';')
    ensures ParsePieces(Texts(ps)) == Pairs(params) && LenientPieces(Texts(ps)) == params
    decreases |ps|
  {
    hide Text, Unescape, Says, Cut;
    if ps != [] {
      var ts := Texts(ps);
      assert ts[1..] == Texts(ps[1..]) && Free(ts[0], ';');
      if ps[0].Nothing? {
        assert ts[0] == [] by { NothingText(); }
        PiecesRead(ps[1..], params);
      } else {
        SaysCut(ps[0], params[0].k, params[0].v);
        PiecesRead(ps[1..], params[1..]);
        assert params == [params[0]] + params[1..] && params[0] == Pair(params[0].k, params[0].v);
      }
    }
  }

  lemma NothingText()
    ensures Text(Nothing) == []
  {
  }

  /** No piece holds a delimiter of queries. */
  ghost predicate Apart(ps: seq<Piece>) { forall i :: 0 <= i < |ps| ==> Free(Text(ps[i]), '&') && Free(Text(ps[i]), ';') }

  /** A query written from pieces has exactly the parameters the pieces say; both readers agree on it. */
  lemma QueryRead(ps: seq<Piece>, params: seq<Pair>)
    requires ps != [] && Spells(ps, params) && Apart(ps)
    ensures var raw := Join(Texts(ps), '&'); ParseQuery(raw) == Pairs(params) && LenientPieces(Split(raw, '&')) == params
  {
    hide Text, Spells, Join, Split;
    SplitJoin(Texts(ps), '&');
    PiecesRead(ps, params);
  }

  // ---------- The rules ----------

  ghost predicate SameLetters(s: Bytes, lower: Bytes) {
    |s| == |lower| && forall i :: 0 <= i < |s| ==> s[i] == lower[i] || ('a' <= lower[i] <= 'z' && s[i] == lower[i] - 'a' + 'A')
  }

  /** Parameters that only track visitors: `utm_` and anything after it, and eight names, in letters of either case. */
  ghost predicate Tracks(k: Bytes) {
    || (|k| >= 4 && SameLetters(k[..4], "utm_"))
    || SameLetters(k, "fbclid") || SameLetters(k, "gclid") || SameLetters(k, "igshid") || SameLetters(k, "mc_cid")
    || SameLetters(k, "mc_eid") || SameLetters(k, "msclkid") || SameLetters(k, "ttclid") || SameLetters(k, "twclid")
  }

  ghost predicate Includes(cfg: CacheKey) { cfg.includedParams != [] || cfg.includedValues != map[] }

  /** The parameter makes a difference. */
  ghost predicate Counts(p: Pair, cfg: CacheKey) {
    && (Includes(cfg) ==> p.k in cfg.includedParams || (p.k in cfg.includedValues && p.v in cfg.includedValues[p.k]))
    && (!Includes(cfg) ==> p.k !in cfg.excludedParams && (cfg.excludeMarketing ==> !Tracks(p.k)))
  }

  ghost predicate Lowercase(s: Bytes) { forall i :: 0 <= i < |s| ==> !('A' <= s[i] <= 'Z') }

  lemma LettersExactly(s: Bytes, lower: Bytes)
    requires Lowercase(lower)
    ensures SameLetters(s, lower) <==> ToLower(s) == lower
  {
  }

  lemma NamesExactly(k: Bytes)
    ensures SameLetters(k, "fbclid") <==> ToLower(k) == "fbclid"
    ensures SameLetters(k, "gclid") <==> ToLower(k) == "gclid"
    ensures SameLetters(k, "igshid") <==> ToLower(k) == "igshid"
    ensures SameLetters(k, "mc_cid") <==> ToLower(k) == "mc_cid"
  {
    hide SameLetters, ToLower;
    LettersExactly(k, "fbclid");
    LettersExactly(k, "gclid");
    LettersExactly(k, "igshid");
    LettersExactly(k, "mc_cid");
  }

  lemma MoreNamesExactly(k: Bytes)
    ensures SameLetters(k, "mc_eid") <==> ToLower(k) == "mc_eid"
    ensures SameLetters(k, "msclkid") <==> ToLower(k) == "msclkid"
    ensures SameLetters(k, "ttclid") <==> ToLower(k) == "ttclid"
    ensures SameLetters(k, "twclid") <==> ToLower(k) == "twclid"
  {
    hide SameLetters, ToLower;
    LettersExactly(k, "mc_eid");
    LettersExactly(k, "msclkid");
    LettersExactly(k, "ttclid");
    LettersExactly(k, "twclid");
  }

  lemma LowerPrefix(k: Bytes, n: nat)
    requires n <= |k|
    ensures ToLower(k[..n]) == ToLower(k)[..n]
  {
  }

  lemma PrefixExactly(k: Bytes)
    ensures "utm_" <= ToLower(k) <==> |k| >= 4 && SameLetters(k[..4], "utm_")
  {
    hide SameLetters, ToLower;
    if |k| >= 4 {
      LettersExactly(k[..4], "utm_");
      LowerPrefix(k, 4);
    }
  }

  lemma TracksExactly(k: Bytes)
    ensures Tracks(k) <==> "utm_" <= ToLower(k) || ToLower(k) in MARKETING
  {
    hide SameLetters, ToLower;
    NamesExactly(k);
    MoreNamesExactly(k);
    PrefixExactly(k);
  }

  lemma CountsExactly(p: Pair, cfg: CacheKey)
    ensures Counts(p, cfg) <==> IsAllowed(p.k, p.v, cfg)
  {
    hide Tracks;
    TracksExactly(p.k);
  }

  lemma {:induction false} FilterCount(ps: seq<Pair>, cfg: CacheKey, p: Pair)
    ensures multiset(Filter(ps, cfg))[p] == if Counts(p, cfg) then multiset(ps)[p] else 0
  {
    hide IsAllowed, Counts;
    if ps != [] {
      FilterCount(ps[1..], cfg, p);
      CountsExactly(ps[0], cfg);
      assert ps == [ps[0]] + ps[1..];
    }
  }

  /** Both carry every counting parameter equally often. */
  ghost predicate AgreeOnCounting(a: seq<Pair>, b: seq<Pair>, cfg: CacheKey) {
    forall p :: Counts(p, cfg) ==> multiset(a)[p] == multiset(b)[p]
  }

  lemma FiltersAgree(a: seq<Pair>, b: seq<Pair>, cfg: CacheKey)
    ensures multiset(Filter(a, cfg)) == multiset(Filter(b, cfg)) <==> AgreeOnCounting(a, b, cfg)
  {
    hide Counts, Filter;
    forall p ensures multiset(Filter(a, cfg))[p] == multiset(Filter(b, cfg))[p] <==> (Counts(p, cfg) ==> multiset(a)[p] == multiset(b)[p]) {
      FilterCount(a, cfg, p);
      FilterCount(b, cfg, p);
    }
    if AgreeOnCounting(a, b, cfg) {
      assert forall p :: multiset(Filter(a, cfg))[p] == multiset(Filter(b, cfg))[p];
    }
  }

  /** Two queries that parse have the same sorted form exactly when they carry every counting parameter equally often. */
  lemma SortedByRules(r1: Bytes, r2: Bytes, cfg: CacheKey)
    requires ParseQuery(r1).Pairs? && ParseQuery(r2).Pairs?
    ensures SortedQuery(r1, cfg) == SortedQuery(r2, cfg) <==> AgreeOnCounting(ParseQuery(r1).ps, ParseQuery(r2).ps, cfg)
  {
    hide SortedQuery, AgreeOnCounting, ParseQuery, Filter;
    SortedQueryCanonical(r1, r2, cfg);
    FiltersAgree(ParseQuery(r1).ps, ParseQuery(r2).ps, cfg);
  }

  /** Without rules: exactly when they carry the same parameters, each as often. */
  lemma SortedWithoutRules(r1: Bytes, r2: Bytes, cfg: CacheKey)
    requires ParseQuery(r1).Pairs? && ParseQuery(r2).Pairs?
    requires cfg.includedParams == [] && cfg.includedValues == map[] && cfg.excludedParams == [] && !cfg.excludeMarketing
    ensures SortedQuery(r1, cfg) == SortedQuery(r2, cfg) <==> multiset(ParseQuery(r1).ps) == multiset(ParseQuery(r2).ps)
  {
    hide SortedQuery, ParseQuery, Tracks;
    SortedByRules(r1, r2, cfg);
    var a, b := multiset(ParseQuery(r1).ps), multiset(ParseQuery(r2).ps);
    if forall p :: a[p] == b[p] { assert a == b; }
  }

  /** With an exclusion list: exactly when they agree on all other names; with marketing excluded too, on all that do not
      track. */
  lemma SortedWithExclusions(r1: Bytes, r2: Bytes, cfg: CacheKey)
    requires ParseQuery(r1).Pairs? && ParseQuery(r2).Pairs? && cfg.includedParams == [] && cfg.includedValues == map[]
    ensures SortedQuery(r1, cfg) == SortedQuery(r2, cfg) <==>
      forall p: Pair :: p.k !in cfg.excludedParams && (cfg.excludeMarketing ==> !Tracks(p.k)) ==>
        multiset(ParseQuery(r1).ps)[p] == multiset(ParseQuery(r2).ps)[p]
  {
    hide SortedQuery, ParseQuery, Tracks;
    SortedByRules(r1, r2, cfg);
  }

  /** With an inclusion list: exactly when they agree on the listed names and the listed values, whatever the exclusions. */
  lemma SortedWithInclusions(r1: Bytes, r2: Bytes, cfg: CacheKey)
    requires ParseQuery(r1).Pairs? && ParseQuery(r2).Pairs? && (cfg.includedParams != [] || cfg.includedValues != map[])
    ensures SortedQuery(r1, cfg) == SortedQuery(r2, cfg) <==>
      forall p: Pair :: p.k in cfg.includedParams || (p.k in cfg.includedValues && p.v in cfg.includedValues[p.k]) ==>
        multiset(ParseQuery(r1).ps)[p] == multiset(ParseQuery(r2).ps)[p]
  {
    hide SortedQuery, ParseQuery, Tracks;
    SortedByRules(r1, r2, cfg);
  }

  // ---------- In the order of the request ----------

  /** The counting ones among some parameters, in order. */
  ghost function Counting(ps: seq<Pair>, cfg: CacheKey): seq<Pair> {
    if ps == [] then [] else (if Counts(ps[0], cfg) then [ps[0]] else []) + Counting(ps[1..], cfg)
  }

  lemma {:induction false} FilterIsCounting(ps: seq<Pair>, cfg: CacheKey)
    ensures Filter(ps, cfg) == Counting(ps, cfg)
  {
    hide IsAllowed, Counts;
    if ps != [] {
      FilterIsCounting(ps[1..], cfg);
      CountsExactly(ps[0], cfg);
    }
  }

  /** Two written queries have the same order-preserving form exactly when their counting parameters are the same list. */
  lemma OrderedByRules(ps: seq<Piece>, qs: seq<Piece>, a: seq<Pair>, b: seq<Pair>, cfg: CacheKey)
    requires ps != [] && Spells(ps, a) && Apart(ps) && qs != [] && Spells(qs, b) && Apart(qs)
    ensures OrderedQuery(Join(Texts(ps), '&'), cfg) == OrderedQuery(Join(Texts(qs), '&'), cfg) <==> Counting(a, cfg) == Counting(b, cfg)
  {
    hide Text, Spells, Join, Split, Filter, Counting, OrderedQuery;
    QueryRead(ps, a);
    QueryRead(qs, b);
    FilterIsCounting(a, cfg);
    FilterIsCounting(b, cfg);
    OrderedQueryCanonical(Join(Texts(ps), '&'), Join(Texts(qs), '&'), cfg);
  }
}
