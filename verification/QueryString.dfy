/** The query part of a cache key: parse, filter, order and re-encode the parameters. */
module QueryString {
  import opened Sorting
  import opened KeyBytes
  import opened UrlEscape

  /** Rules for assembling cache keys. */
  datatype CacheKey = CacheKey(
    includeProtocol: bool, excludeHost: bool, excludeQuery: bool, preserveQueryOrder: bool,
    includedParams: seq<Bytes>, excludedParams: seq<Bytes>, excludeMarketing: bool,
    includedValues: map<Bytes, seq<Bytes>>,
    headerNames: seq<Bytes>, cookieNames: seq<Bytes>, caseInsensitivePath: bool)

  datatype Pair = Pair(k: Bytes, v: Bytes)

  function LowerByte(c: Byte): Byte { if 'A' <= c <= 'Z' then c - 'A' + 'a' else c }

  function ToLower(s: Bytes): (r: Bytes)
    ensures |r| == |s| && forall i :: 0 <= i < |s| ==> r[i] == LowerByte(s[i])
  {
    if s == [] then [] else [LowerByte(s[0])] + ToLower(s[1..])
  }

  const MARKETING: set<Bytes> := {"fbclid", "gclid", "igshid", "mc_cid", "mc_eid", "msclkid", "ttclid", "twclid"}

  /** Whether a parameter takes part in the key. */
  predicate IsAllowed(k: Bytes, v: Bytes, cfg: CacheKey) {
    if cfg.includedParams != [] || cfg.includedValues != map[] then
      k in cfg.includedParams || (k in cfg.includedValues && v in cfg.includedValues[k])
    else
      k !in cfg.excludedParams &&
      (cfg.excludeMarketing ==> !("utm_" <= ToLower(k)) && ToLower(k) !in MARKETING)
  }

  function Filter(ps: seq<Pair>, cfg: CacheKey): seq<Pair> {
    if ps == [] then []
    else (if IsAllowed(ps[0].k, ps[0].v, cfg) then [ps[0]] else []) + Filter(ps[1..], cfg)
  }

  // ---------- Parsing ----------

  /** `strings.Cut(part, "=")`. */
  function Cut(part: Bytes): Pair {
    if part == [] then Pair([], [])
    else if part[0] == '=' then Pair([], part[1..])
    else var r := Cut(part[1..]); Pair([part[0]] + r.k, r.v)
  }

  datatype Parsed = Pairs(ps: seq<Pair>) | Invalid

  function ParsePieces(parts: seq<Bytes>): Parsed {
    if parts == [] then Pairs([])
    else
      var rest := ParsePieces(parts[1..]);
      var p := Cut(parts[0]);
      if rest.Invalid? || ';' in parts[0] then Invalid
      else if parts[0] == [] then rest
      else
        match (Unescape(p.k), Unescape(p.v))
        case (Ok(k), Ok(v)) => Pairs([Pair(k, v)] + rest.ps)
        case _ => Invalid
  }

  /** `url.ParseQuery`: all parameters in order, or an error for the whole query. */
  function ParseQuery(raw: Bytes): Parsed { ParsePieces(Split(raw, '&')) }

  function Lenient(s: Bytes): Bytes {
    match Unescape(s) case Ok(r) => r case Bad => s
  }

  /** The order-preserving builder keeps undecodable text as it is. */
  function LenientPieces(parts: seq<Bytes>): seq<Pair> {
    if parts == [] then []
    else
      var p := Cut(parts[0]);
      (if parts[0] == [] then [] else [Pair(Lenient(p.k), Lenient(p.v))]) + LenientPieces(parts[1..])
  }

  // ---------- Encoding ----------

  function EncodePair(p: Pair): Bytes { Esc(Query, p.k) + ['='] + Esc(Query, p.v) }

  function EncodeEach(ps: seq<Pair>): (r: seq<Bytes>)
    ensures |r| == |ps| && forall i :: 0 <= i < |ps| ==> r[i] == EncodePair(ps[i])
  {
    if ps == [] then [] else [EncodePair(ps[0])] + EncodeEach(ps[1..])
  }

  function Encode(ps: seq<Pair>): Bytes {
    if ps == [] then [] else Join(EncodeEach(ps), '&')
  }

  lemma EncodePairFree(p: Pair)
    ensures Free(EncodePair(p), '&') && Free(EncodePair(p), ':') && '=' in EncodePair(p)
  {
    EscFree(Query, p.k, '&');
    EscFree(Query, p.v, '&');
    EscFree(Query, p.k, ':');
    EscFree(Query, p.v, ':');
    assert EncodePair(p)[|Esc(Query, p.k)|] == '=';
  }

  lemma EncodePairInjective(p: Pair, q: Pair)
    requires EncodePair(p) == EncodePair(q)
    ensures p == q
  {
    EscFree(Query, p.k, '=');
    EscFree(Query, p.v, '=');
    EscFree(Query, q.k, '=');
    EscFree(Query, q.v, '=');
    SplitConcat(Esc(Query, p.k), '=', Esc(Query, p.v));
    SplitConcat(Esc(Query, q.k), '=', Esc(Query, q.v));
    SplitFree(Esc(Query, p.k), '=');
    SplitFree(Esc(Query, p.v), '=');
    SplitFree(Esc(Query, q.k), '=');
    SplitFree(Esc(Query, q.v), '=');
    var s, t := [Esc(Query, p.k)] + [Esc(Query, p.v)], [Esc(Query, q.k)] + [Esc(Query, q.v)];
    assert s[0] == t[0] && s[1] == t[1];
    EscInjective(Query, p.k, q.k);
    EscInjective(Query, p.v, q.v);
  }

  lemma {:induction false} EncodeNonEmpty(ps: seq<Pair>)
    requires ps != []
    ensures Encode(ps) != [] && Free(Encode(ps), ':') && '=' in Encode(ps)
  {
    EncodePairFree(ps[0]);
    if |ps| > 1 {
      EncodeNonEmpty(ps[1..]);
      assert EncodeEach(ps)[1..] == EncodeEach(ps[1..]);
    }
  }

  /** The encoded query determines the parameters and their order. */
  lemma EncodeInjective(a: seq<Pair>, b: seq<Pair>)
    requires Encode(a) == Encode(b)
    ensures a == b
  {
    if a != [] { EncodeNonEmpty(a); }
    if b != [] { EncodeNonEmpty(b); }
    if a != [] && b != [] {
      var ea, eb := EncodeEach(a), EncodeEach(b);
      forall i | 0 <= i < |ea| ensures Free(ea[i], '&') { EncodePairFree(a[i]); }
      forall i | 0 <= i < |eb| ensures Free(eb[i], '&') { EncodePairFree(b[i]); }
      JoinInjective(ea, eb, '&');
      forall i | 0 <= i < |a| ensures a[i] == b[i] {
        assert ea[i] == eb[i];
        EncodePairInjective(a[i], b[i]);
      }
    }
  }

  // ---------- The two canonical forms ----------

  predicate PairLeq(p: Pair, q: Pair) {
    if p.k == q.k then Leq(p.v, q.v) else Leq(p.k, q.k)
  }

  const PAIR_ORDER: (Pair, Pair) -> bool := (p, q) => PairLeq(p, q)

  lemma PairOrderTotal()
    ensures TotalOrder(PAIR_ORDER)
  {
    forall p, q ensures PAIR_ORDER(p, p) && (PAIR_ORDER(p, q) || PAIR_ORDER(q, p)) {
      LeqRefl(p.v);
      LeqTotal(p.v, q.v);
      LeqTotal(p.k, q.k);
    }
    forall p, q | PAIR_ORDER(p, q) && PAIR_ORDER(q, p) ensures p == q {
      if p.k == q.k { LeqAntisym(p.v, q.v); } else { LeqAntisym(p.k, q.k); }
    }
    forall p, q, r | PAIR_ORDER(p, q) && PAIR_ORDER(q, r) ensures PAIR_ORDER(p, r) { PairTrans(p, q, r); }
  }

  lemma PairTrans(p: Pair, q: Pair, r: Pair)
    requires PairLeq(p, q) && PairLeq(q, r)
    ensures PairLeq(p, r)
  {
    if p.k == q.k == r.k {
      LeqTrans(p.v, q.v, r.v);
    } else {
      LeqRefl(p.k);
      LeqRefl(r.k);
      LeqTrans(p.k, q.k, r.k);
      if p.k == r.k { LeqAntisym(p.k, q.k); }
    }
  }

  /** Allowed parameters of a query; a query that does not parse has none. */
  function Allowed(raw: Bytes, cfg: CacheKey): seq<Pair> {
    match ParseQuery(raw)
    case Pairs(ps) => Filter(ps, cfg)
    case Invalid => []
  }

  function SortedQuery(raw: Bytes, cfg: CacheKey): Bytes { Encode(Sort(PAIR_ORDER, Allowed(raw, cfg))) }

  function OrderedQuery(raw: Bytes, cfg: CacheKey): Bytes {
    Encode(Filter(LenientPieces(Split(raw, '&')), cfg))
  }

  /** Any two queries get the same sorted form exactly when they carry the same multiset of allowed
      parameters, where a query that does not parse carries none. */
  lemma SortedQueryCanonical(r1: Bytes, r2: Bytes, cfg: CacheKey)
    ensures SortedQuery(r1, cfg) == SortedQuery(r2, cfg)
       <==> multiset(Allowed(r1, cfg)) == multiset(Allowed(r2, cfg))
  {
    hide Encode, Sort, Allowed;
    var a, b := Allowed(r1, cfg), Allowed(r2, cfg);
    PairOrderTotal();
    SortCanonical(PAIR_ORDER, a, b);
    if SortedQuery(r1, cfg) == SortedQuery(r2, cfg) {
      EncodeInjective(Sort(PAIR_ORDER, a), Sort(PAIR_ORDER, b));
    }
  }

  /** Any two queries get the same order-preserving form exactly when their allowed lists agree. */
  lemma OrderedQueryCanonical(r1: Bytes, r2: Bytes, cfg: CacheKey)
    ensures OrderedQuery(r1, cfg) == OrderedQuery(r2, cfg)
       <==> Filter(LenientPieces(Split(r1, '&')), cfg) == Filter(LenientPieces(Split(r2, '&')), cfg)
  {
    if OrderedQuery(r1, cfg) == OrderedQuery(r2, cfg) {
      EncodeInjective(Filter(LenientPieces(Split(r1, '&')), cfg), Filter(LenientPieces(Split(r2, '&')), cfg));
    }
  }

  /** A piece the parser rejects: it holds a semicolon, or its name or value does not decode. */
  predicate BadPiece(p: Bytes) {
    ';' in p || (p != [] && (Unescape(Cut(p).k).Bad? || Unescape(Cut(p).v).Bad?))
  }

  lemma {:induction false} PiecesInvalid(parts: seq<Bytes>)
    ensures ParsePieces(parts).Invalid? <==> exists i :: 0 <= i < |parts| && BadPiece(parts[i])
  {
    hide BadPiece;
    if parts != [] {
      PiecesInvalid(parts[1..]);
      FirstPiece(parts);
      forall i | 0 <= i < |parts| - 1 ensures parts[1..][i] == parts[i + 1] {}
      if i :| 0 <= i < |parts| && BadPiece(parts[i]) {
        if i > 0 { assert BadPiece(parts[1..][i - 1]); }
      }
    }
  }

  lemma FirstPiece(parts: seq<Bytes>)
    requires parts != []
    ensures ParsePieces(parts).Invalid? <==> ParsePieces(parts[1..]).Invalid? || BadPiece(parts[0])
  {
  }

  ghost predicate HasBadPiece(raw: Bytes) {
    var parts := Split(raw, '&');
    exists i :: 0 <= i < |parts| && BadPiece(parts[i])
  }

  /** A query does not parse exactly when one of its pieces is bad. */
  lemma InvalidExactly(raw: Bytes)
    ensures ParseQuery(raw).Invalid? <==> HasBadPiece(raw)
  {
    hide BadPiece, Split, ParsePieces;
    var parts := Split(raw, '&');
    PiecesInvalid(parts);
    assert HasBadPiece(raw) <==> exists i :: 0 <= i < |parts| && BadPiece(parts[i]);
  }

  /** The query part of a key is lost exactly when the query has a bad piece or no allowed parameter. */
  lemma SortedQueryLost(raw: Bytes, cfg: CacheKey)
    ensures SortedQuery(raw, cfg) == [] <==> HasBadPiece(raw) || Allowed(raw, cfg) == []
  {
    hide HasBadPiece, ParseQuery, Sort;
    InvalidExactly(raw);
    var sorted := Sort(PAIR_ORDER, Allowed(raw, cfg));
    assert |multiset(sorted)| == |sorted| && |multiset(Allowed(raw, cfg))| == |Allowed(raw, cfg)|;
    if sorted != [] { EncodeNonEmpty(sorted); }
  }

  /** So one bad piece makes a query share its key with every other query that has one. */
  lemma InvalidQueriesCollide(cfg: CacheKey, r1: Bytes, r2: Bytes)
    requires HasBadPiece(r1) && HasBadPiece(r2)
    ensures SortedQuery(r1, cfg) == SortedQuery(r2, cfg) == []
  {
    hide SortedQuery, HasBadPiece;
    SortedQueryLost(r1, cfg);
    SortedQueryLost(r2, cfg);
  }

  // ---------- Grouping by name ----------

  /** Values of parameter `k`, in order of appearance. */
  function Vals(ps: seq<Pair>, k: Bytes): seq<Bytes> {
    if ps == [] then [] else (if ps[0].k == k then [ps[0].v] else []) + Vals(ps[1..], k)
  }

  function Paired(k: Bytes, vs: seq<Bytes>): seq<Pair> {
    if vs == [] then [] else [Pair(k, vs[0])] + Paired(k, vs[1..])
  }

  /** Parameters grouped by name, values sorted within each name. */
  function Grouped(keys: seq<Bytes>, ps: seq<Pair>): seq<Pair> {
    if keys == [] then [] else Paired(keys[0], Sort(BYTE_ORDER, Vals(ps, keys[0]))) + Grouped(keys[1..], ps)
  }

  lemma {:induction false} ValsCount(ps: seq<Pair>, p: Pair)
    ensures multiset(Vals(ps, p.k))[p.v] == multiset(ps)[p]
  {
    if ps != [] {
      ValsCount(ps[1..], p);
      assert ps == [ps[0]] + ps[1..];
    }
  }

  lemma {:induction false} PairedCount(k: Bytes, vs: seq<Bytes>, p: Pair)
    ensures multiset(Paired(k, vs))[p] == if p.k == k then multiset(vs)[p.v] else 0
  {
    if vs != [] {
      PairedCount(k, vs[1..], p);
      assert vs == [vs[0]] + vs[1..];
    }
  }

  ghost predicate Distinct(keys: seq<Bytes>) {
    forall i, j :: 0 <= i < j < |keys| ==> keys[i] != keys[j]
  }

  lemma {:induction false} GroupedCount(keys: seq<Bytes>, ps: seq<Pair>, p: Pair)
    requires Distinct(keys)
    ensures multiset(Grouped(keys, ps))[p] == if p.k in keys then multiset(ps)[p] else 0
  {
    if keys != [] {
      var vs := Sort(BYTE_ORDER, Vals(ps, keys[0]));
      GroupedCount(keys[1..], ps, p);
      PairedCount(keys[0], vs, p);
      ValsCount(ps, Pair(keys[0], p.v));
      assert multiset(vs) == multiset(Vals(ps, keys[0]));
      assert keys == [keys[0]] + keys[1..];
    }
  }

  lemma {:induction false} PairedSorted(k: Bytes, vs: seq<Bytes>)
    requires IsSorted(BYTE_ORDER, vs)
    ensures IsSorted(PAIR_ORDER, Paired(k, vs)) && |Paired(k, vs)| == |vs|
    ensures forall i :: 0 <= i < |vs| ==> Paired(k, vs)[i] == Pair(k, vs[i])
  {
    if vs != [] { PairedSorted(k, vs[1..]); }
  }

  lemma {:induction false} GroupedKeys(keys: seq<Bytes>, ps: seq<Pair>)
    ensures forall i :: 0 <= i < |Grouped(keys, ps)| ==> Grouped(keys, ps)[i].k in keys
  {
    if keys != [] {
      GroupedKeys(keys[1..], ps);
      ByteOrderTotal();
      SortSorted(BYTE_ORDER, Vals(ps, keys[0]));
      PairedSorted(keys[0], Sort(BYTE_ORDER, Vals(ps, keys[0])));
    }
  }

  lemma {:induction false} GroupedSorted(keys: seq<Bytes>, ps: seq<Pair>)
    requires Distinct(keys) && IsSorted(BYTE_ORDER, keys)
    ensures IsSorted(PAIR_ORDER, Grouped(keys, ps))
  {
    if keys != [] {
      var vs := Sort(BYTE_ORDER, Vals(ps, keys[0]));
      var head, tail := Paired(keys[0], vs), Grouped(keys[1..], ps);
      GroupedSorted(keys[1..], ps);
      GroupedKeys(keys[1..], ps);
      ByteOrderTotal();
      SortSorted(BYTE_ORDER, Vals(ps, keys[0]));
      PairedSorted(keys[0], vs);
      SortedConcat(head, tail, keys);
    }
  }

  lemma SortedConcat(head: seq<Pair>, tail: seq<Pair>, keys: seq<Bytes>)
    requires keys != [] && Distinct(keys) && IsSorted(BYTE_ORDER, keys)
    requires IsSorted(PAIR_ORDER, head) && IsSorted(PAIR_ORDER, tail)
    requires forall i :: 0 <= i < |head| ==> head[i].k == keys[0]
    requires forall i :: 0 <= i < |tail| ==> tail[i].k in keys[1..]
    ensures IsSorted(PAIR_ORDER, head + tail)
  {
    forall i, j | 0 <= i < |head| && 0 <= j < |tail| ensures PAIR_ORDER(head[i], tail[j]) {
      var k :| 0 <= k < |keys[1..]| && keys[1..][k] == tail[j].k;
      assert keys[k + 1] == tail[j].k && BYTE_ORDER(keys[0], keys[k + 1]);
    }
  }

  /** Grouping by sorted names and sorting values is sorting the parameters. */
  lemma GroupedIsSort(keys: seq<Bytes>, ps: seq<Pair>)
    requires Distinct(keys) && IsSorted(BYTE_ORDER, keys)
    requires forall p :: p in ps ==> p.k in keys
    ensures Grouped(keys, ps) == Sort(PAIR_ORDER, ps)
  {
    GroupedSorted(keys, ps);
    PairOrderTotal();
    SortSorted(PAIR_ORDER, ps);
    forall p ensures multiset(Grouped(keys, ps))[p] == multiset(Sort(PAIR_ORDER, ps))[p] {
      GroupedCount(keys, ps, p);
      assert multiset(Sort(PAIR_ORDER, ps)) == multiset(ps);
      assert p in multiset(ps) ==> p in ps;
    }
    SortedUnique(PAIR_ORDER, Grouped(keys, ps), Sort(PAIR_ORDER, ps));
  }

  lemma {:induction false} ValsNonEmpty(ps: seq<Pair>, k: Bytes)
    ensures Vals(ps, k) != [] <==> exists p :: p in ps && p.k == k
  {
    if ps != [] {
      ValsNonEmpty(ps[1..], k);
      assert ps == [ps[0]] + ps[1..];
      if ps[0].k == k { assert ps[0] in ps; }
    }
  }

  function FilterVals(k: Bytes, vs: seq<Bytes>, cfg: CacheKey): seq<Bytes> {
    if vs == [] then [] else (if IsAllowed(k, vs[0], cfg) then [vs[0]] else []) + FilterVals(k, vs[1..], cfg)
  }

  lemma {:induction false} FilterValsOf(ps: seq<Pair>, k: Bytes, cfg: CacheKey)
    ensures FilterVals(k, Vals(ps, k), cfg) == Vals(Filter(ps, cfg), k)
  {
    hide IsAllowed;
    if ps != [] {
      FilterValsOf(ps[1..], k, cfg);
      var tail := Vals(ps[1..], k);
      if ps[0].k == k {
        assert ([ps[0].v] + tail)[1..] == tail;
      } else {
        assert [] + tail == tail;
      }
      var rest := Filter(ps[1..], cfg);
      if IsAllowed(ps[0].k, ps[0].v, cfg) { assert ([ps[0]] + rest)[1..] == rest; } else { assert [] + rest == rest; }
    }
  }

  lemma EncodeSnoc(ps: seq<Pair>, p: Pair)
    ensures Encode(ps + [p]) == if ps == [] then EncodePair(p) else Encode(ps) + ['&'] + EncodePair(p)
  {
    hide EncodePair;
    if ps == [] {
      assert ps + [p] == [p];
    } else {
      assert EncodeEach(ps + [p]) == EncodeEach(ps) + [EncodePair(p)];
      JoinSnoc(EncodeEach(ps), EncodePair(p), '&');
    }
  }

  /** Write one parameter to the buffer. */
  method WriteParam(buf: Bytes, first: bool, p: Pair, ghost done: seq<Pair>) returns (out: Bytes)
    requires buf == Encode(done) && (first <==> done == [])
    ensures out == Encode(done + [p])
  {
    hide Encode, Esc;
    EncodeNothing();
    EncodeSnoc(done, p);
    out := buf;
    if !first {
      out := out + ['&'];
    }
    ghost var start := out;
    out := out + Esc(Query, p.k);
    out := out + ['='];
    out := out + Esc(Query, p.v);
    assert out == start + EncodePair(p);
  }

  /** `url.ParseQuery`'s map: the values of each name in order of appearance. */
  method GroupByName(ps: seq<Pair>) returns (values: map<Bytes, seq<Bytes>>)
    ensures forall k :: k in values <==> exists p :: p in ps && p.k == k
    ensures forall k :: k in values ==> values[k] == Vals(ps, k)
  {
    values := map[];
    for i := 0 to |ps|
      invariant forall k :: k in values <==> exists p :: p in ps[..i] && p.k == k
      invariant forall k :: k in values ==> values[k] == Vals(ps[..i], k)
    {
      var k := ps[i].k;
      assert ps[..i + 1] == ps[..i] + [ps[i]];
      assert ps[i] in ps[..i + 1];
      forall j ensures Vals(ps[..i + 1], j) == Vals(ps[..i], j) + (if j == k then [ps[i].v] else []) {
        ValsSnoc(ps[..i], ps[i], j);
      }
      ValsNonEmpty(ps[..i], k);
      values := values[k := (if k in values then values[k] else []) + [ps[i].v]];
    }
    assert ps[..|ps|] == ps;
  }

  lemma {:induction false} ValsSnoc(ps: seq<Pair>, p: Pair, k: Bytes)
    ensures Vals(ps + [p], k) == Vals(ps, k) + (if p.k == k then [p.v] else [])
  {
    if ps == [] {
      assert ps + [p] == [p];
    } else {
      assert (ps + [p])[1..] == ps[1..] + [p];
      ValsSnoc(ps[1..], p, k);
    }
  }

  /** Filter values in place, keeping order. */
  method FilterValues(k: Bytes, vs: seq<Bytes>, cfg: CacheKey) returns (kept: seq<Bytes>)
    ensures kept == FilterVals(k, vs, cfg)
  {
    hide IsAllowed;
    kept := [];
    for i := 0 to |vs|
      invariant kept + FilterVals(k, vs[i..], cfg) == FilterVals(k, vs, cfg)
    {
      assert vs[i..][1..] == vs[i + 1..];
      if IsAllowed(k, vs[i], cfg) {
        kept := kept + [vs[i]];
      }
    }
  }

  /** Names that keep at least one value, in map order. */
  method FilterNames(ps: seq<Pair>, cfg: CacheKey) returns (keys: seq<Bytes>, values: map<Bytes, seq<Bytes>>)
    ensures Distinct(keys)
    ensures forall k :: k in keys <==> Vals(Filter(ps, cfg), k) != []
    ensures forall k :: k in keys ==> k in values && values[k] == Vals(Filter(ps, cfg), k)
  {
    hide Vals, Filter, IsAllowed, FilterVals;
    ghost var al := Filter(ps, cfg);
    var grouped := GroupByName(ps);
    keys, values := [], map[];
    var todo := grouped.Keys;
    while todo != {}
      invariant todo <= grouped.Keys && Distinct(keys)
      invariant forall k :: k in keys ==> k in grouped && k !in todo
      invariant forall k :: k in grouped && k !in todo ==> (k in keys <==> Vals(al, k) != [])
      invariant forall k :: k in keys ==> k in values && values[k] == Vals(al, k)
      decreases |todo|
    {
      var k :| k in todo;
      var kept := FilterValues(k, grouped[k], cfg);
      FilterValsOf(ps, k, cfg);
      if |kept| > 0 {
        values := values[k := kept];
        keys := keys + [k];
      }
      todo := todo - {k};
    }
    forall k | k !in grouped ensures Vals(al, k) == [] {
      ValsNonEmpty(ps, k);
      FilterValsOf(ps, k, cfg);
      FilterNothing(k, cfg);
    }
  }

  lemma FilterNothing(k: Bytes, cfg: CacheKey)
    ensures FilterVals(k, [], cfg) == []
  {
  }

  /** Write all values of one name. */
  method WriteGroup(buf: Bytes, isFirst: bool, k: Bytes, vals: seq<Bytes>, ghost before: seq<Pair>)
    returns (out: Bytes, first: bool)
    requires buf == Encode(before) && (isFirst <==> before == [])
    ensures out == Encode(before + Paired(k, vals)) && (first <==> before + Paired(k, vals) == [])
  {
    hide EncodePair, Encode;
    out, first := buf, isFirst;
    ghost var done := before;
    for j := 0 to |vals|
      invariant out == Encode(done) && (first <==> done == [])
      invariant done + Paired(k, vals[j..]) == before + Paired(k, vals)
    {
      assert vals[j..][1..] == vals[j + 1..];
      out := WriteParam(out, first, Pair(k, vals[j]), done);
      done := done + [Pair(k, vals[j])];
      first := false;
    }
    assert done == before + Paired(k, vals);
  }

  /** Parse, filter, sort and re-encode the query. */
  method BuildSortedQueryString(raw: Bytes, cfg: CacheKey) returns (qs: Bytes)
    ensures qs == SortedQuery(raw, cfg)
  {
    hide IsAllowed, EncodePair, Encode, ParseQuery, Sort, Leq, Grouped, Paired, Filter, Vals, Distinct;
    var parsed := ParseQuery(raw);
    if parsed.Invalid? {
      NothingSorted();
      return [];
    }
    ghost var al := Allowed(raw, cfg);
    var names, values := FilterNames(parsed.ps, cfg);
    var keys := Sort(BYTE_ORDER, names);
    SortedNames(names, keys, al);
    qs := [];
    var first := true;
    ghost var done: seq<Pair> := [];
    EncodeNothing();
    for i := 0 to |keys|
      invariant qs == Encode(done) && (first <==> done == [])
      invariant done + Grouped(keys[i..], al) == Grouped(keys, al)
    {
      var k := keys[i];
      assert k in keys && k in names;
      var vals := Sort(BYTE_ORDER, values[k]);
      GroupedStep(keys, i, al);
      Regroup(done, Paired(k, vals), Grouped(keys[i + 1..], al));
      qs, first := WriteGroup(qs, first, k, vals, done);
      done := done + Paired(k, vals);
    }
    GroupedNothing(al);
    assert keys[|keys|..] == [];
    assert done == Grouped(keys, al);
    GroupedIsSort(keys, al);
  }

  lemma NothingSorted()
    ensures Encode(Sort(PAIR_ORDER, [])) == []
  {
  }

  lemma Regroup(a: seq<Pair>, b: seq<Pair>, c: seq<Pair>)
    ensures a + (b + c) == (a + b) + c
  {
  }

  lemma GroupedNothing(al: seq<Pair>)
    ensures Grouped([], al) == []
  {
  }

  lemma GroupedStep(keys: seq<Bytes>, i: nat, al: seq<Pair>)
    requires i < |keys|
    ensures Grouped(keys[i..], al) == Paired(keys[i], Sort(BYTE_ORDER, Vals(al, keys[i]))) + Grouped(keys[i + 1..], al)
  {
    assert keys[i..][1..] == keys[i + 1..];
  }

  lemma SortedNames(names: seq<Bytes>, keys: seq<Bytes>, al: seq<Pair>)
    requires keys == Sort(BYTE_ORDER, names) && Distinct(names)
    requires forall k :: k in names <==> Vals(al, k) != []
    ensures Distinct(keys) && IsSorted(BYTE_ORDER, keys)
    ensures forall k :: k in keys <==> k in names
    ensures forall p :: p in al ==> p.k in keys
  {
    ByteOrderTotal();
    SortSorted(BYTE_ORDER, names);
    assert multiset(keys) == multiset(names);
    forall k ensures k in keys <==> k in names {
      assert k in keys <==> k in multiset(keys);
      assert k in names <==> k in multiset(names);
    }
    DistinctPermutes(names, keys);
    forall p | p in al ensures p.k in keys { ValsNonEmpty(al, p.k); }
  }

  lemma Repeats(s: seq<Bytes>, i: nat, j: nat)
    requires i < j < |s| && s[i] == s[j]
    ensures multiset(s)[s[i]] >= 2
  {
    assert s == s[..j] + s[j..];
    assert s[..j][i] in multiset(s[..j]);
    assert s[j..][0] in multiset(s[j..]);
  }

  lemma {:induction false} DistinctOnce(s: seq<Bytes>, x: Bytes)
    requires Distinct(s)
    ensures multiset(s)[x] <= 1
  {
    if s != [] {
      DistinctOnce(s[1..], x);
      assert s == [s[0]] + s[1..];
      assert s[0] !in s[1..];
      assert multiset(s[1..])[s[0]] == 0;
    }
  }

  lemma DistinctPermutes(a: seq<Bytes>, b: seq<Bytes>)
    requires Distinct(a) && multiset(a) == multiset(b)
    ensures Distinct(b)
  {
    forall i, j | 0 <= i < j < |b| ensures b[i] != b[j] {
      DistinctOnce(a, b[i]);
      if b[i] == b[j] { Repeats(b, i, j); }
    }
  }

  /** Filter and re-encode, keeping the order of the request. */
  method BuildUnsortedQueryString(raw: Bytes, cfg: CacheKey) returns (qs: Bytes)
    ensures qs == OrderedQuery(raw, cfg)
  {
    hide IsAllowed, EncodePair, Encode, Filter, LenientPieces, Lenient, Cut, Split;
    var parts := Split(raw, '&');
    qs := [];
    var first := true;
    ghost var done: seq<Pair> := [];
    EncodeNothing();
    assert parts[0..] == parts;
    for i := 0 to |parts|
      invariant qs == Encode(done) && (first <==> done == [])
      invariant done + Filter(LenientPieces(parts[i..]), cfg) == Filter(LenientPieces(parts), cfg)
    {
      LenientStep(parts, i, cfg);
      var part := parts[i];
      if part == [] {
        continue;
      }
      var cut := Cut(part);
      var p := Pair(Lenient(cut.k), Lenient(cut.v));
      if !IsAllowed(p.k, p.v, cfg) {
        continue;
      }
      Regroup(done, [p], Filter(LenientPieces(parts[i + 1..]), cfg));
      qs := WriteParam(qs, first, p, done);
      done := done + [p];
      first := false;
    }
    LenientNothing(cfg);
    assert parts[|parts|..] == [];
    assert done == Filter(LenientPieces(parts), cfg);
  }

  lemma LenientNothing(cfg: CacheKey)
    ensures Filter(LenientPieces([]), cfg) == []
  {
  }

  lemma LenientStep(parts: seq<Bytes>, i: nat, cfg: CacheKey)
    requires i < |parts|
    ensures var cut, rest := Cut(parts[i]), Filter(LenientPieces(parts[i + 1..]), cfg);
      var p := Pair(Lenient(cut.k), Lenient(cut.v));
      Filter(LenientPieces(parts[i..]), cfg)
        == if parts[i] == [] || !IsAllowed(p.k, p.v, cfg) then rest else [p] + rest
  {
    hide IsAllowed;
    assert parts[i..][1..] == parts[i + 1..];
    var tail := LenientPieces(parts[i + 1..]);
    var cut := Cut(parts[i]);
    var p := Pair(Lenient(cut.k), Lenient(cut.v));
    assert ([p] + tail)[1..] == tail && [] + tail == tail;
    var rest := Filter(tail, cfg);
    assert [] + rest == rest;
  }

  lemma EncodeNothing()
    ensures Encode([]) == []
  {
  }

  /** The query part of the key, as the configuration asks. */
  function QueryPart(raw: Bytes, cfg: CacheKey): Bytes {
    if cfg.excludeQuery || raw == [] then []
    else if cfg.preserveQueryOrder then OrderedQuery(raw, cfg)
    else SortedQuery(raw, cfg)
  }

  /** A query part never holds a colon. */
  lemma QueryPartFree(raw: Bytes, cfg: CacheKey)
    ensures Free(QueryPart(raw, cfg), ':')
  {
    var a := Filter(LenientPieces(Split(raw, '&')), cfg);
    if a != [] { EncodeNonEmpty(a); }
    if ParseQuery(raw).Pairs? {
      var b := Sort(PAIR_ORDER, Allowed(raw, cfg));
      if b != [] { EncodeNonEmpty(b); }
    }
  }
}
