/** Which differences between request headers select another variant, told from the headers. */
module VariantRules {
  import opened Sorting
  import opened KeyBytes
  import opened QueryString
  import opened VariantKey

  // ---------- Names ----------

  /** `c` is `s` in small letters. */
  ghost predicate Small(c: Bytes, s: Bytes) {
    |c| == |s| && forall i :: 0 <= i < |s| ==> c[i] == if 'A' <= s[i] <= 'Z' then s[i] - 'A' + 'a' else s[i]
  }

  lemma SmallExactly(c: Bytes, s: Bytes)
    ensures Small(c, s) <==> c == ToLower(s)
  {
  }

  /** The headers looked at: those listed, blanks around and case left out, blank names left out. */
  ghost predicate LookedAt(ns: seq<Bytes>, c: Bytes) { exists n :: n in ns && TrimSpace(n) != [] && Small(c, TrimSpace(n)) }

  lemma NamesExactly(ns: seq<Bytes>, c: Bytes)
    ensures c in Names(ns) <==> LookedAt(ns, c)
  {
    hide Names, Small, TrimSpace;
    NamesMembers(ns);
    forall n ensures Canon(n) == c && c != [] <==> TrimSpace(n) != [] && Small(c, TrimSpace(n)) { SmallExactly(c, TrimSpace(n)); }
  }

  predicate Negotiates(c: Bytes) { c == "accept" || c == "accept-encoding" || c == "accept-language" }

  lemma {:induction false} TrimEnds(s: Bytes)
    ensures var t := TrimSpace(s); t == [] || (!IsSpace(t[0]) && !IsSpace(t[|t| - 1]))
    decreases |s|
  {
    if s != [] && IsSpace(s[0]) { TrimEnds(s[1..]); }
    else if s != [] && IsSpace(s[|s| - 1]) { TrimEnds(s[..|s| - 1]); }
  }

  /** Small letters without blanks around them are canonical. */
  lemma SmallIsCanon(c: Bytes, t: Bytes)
    requires Small(c, t) && t != [] && !IsSpace(t[0]) && !IsSpace(t[|t| - 1])
    ensures Canon(c) == c
  {
    assert !IsSpace(c[0]) && !IsSpace(c[|c| - 1]);
    assert TrimSpace(c) == c;
    SmallExactly(c, t);
    LowerTwice(t);
  }

  lemma NegotiatesExactly(ns: seq<Bytes>, c: Bytes)
    requires LookedAt(ns, c)
    ensures Sortable(c) <==> Negotiates(c)
  {
    hide Small, TrimSpace, ToLower, Canon;
    var n :| n in ns && TrimSpace(n) != [] && Small(c, TrimSpace(n));
    TrimEnds(n);
    SmallIsCanon(c, TrimSpace(n));
  }

  lemma LowerTwice(s: Bytes)
    ensures ToLower(ToLower(s)) == ToLower(s)
  {
  }

  // ---------- Values ----------

  /** A field lists the tokens: between commas, blanks around them left out. */
  ghost predicate Lists(v: Bytes, ts: seq<Bytes>) {
    |Split(v, ',')| == |ts| && forall i :: 0 <= i < |ts| ==> TrimSpace(Split(v, ',')[i]) == ts[i] && ts[i] != []
  }

  lemma {:induction false} NoneDropped(ps: seq<Bytes>)
    requires [] !in ps
    ensures NonEmpty(ps) == ps
  {
    if ps != [] { NoneDropped(ps[1..]); }
  }

  /** Several fields list the tokens of one after those of the other; an empty piece lists none. */
  lemma TokensRead(v: Bytes, ts: seq<Bytes>, rest: seq<Bytes>)
    requires Lists(v, ts) || (TrimSpace(v) == [] && Free(v, ',') && ts == [])
    ensures Tokens([v] + rest) == ts + Tokens(rest) && Tokens([]) == []
  {
    hide Split, TrimSpace;
    assert ([v] + rest)[1..] == rest;
    if Lists(v, ts) {
      assert TrimAll(Split(v, ',')) == ts;
      NoneDropped(ts);
    } else {
      SplitFree(v, ',');
      assert TrimAll([v]) == [[]];
      BlankDropped();
    }
  }

  lemma BlankDropped()
    ensures NonEmpty([[]]) == []
  {
  }

  // ---------- Variants ----------

  /** Both requests mean the same by a header: content negotiation by its tokens in any order and grouping, any other
      header by what its fields, sorted and trimmed, hold between commas. */
  ghost predicate MeansTheSame(c: Bytes, a: seq<Bytes>, b: seq<Bytes>) {
    if Negotiates(c) then multiset(Tokens(a)) == multiset(Tokens(b))
    else CommaPieces(TrimAll(Sort(BYTE_ORDER, a))) == CommaPieces(TrimAll(Sort(BYTE_ORDER, b)))
  }

  /** Without bars in values, two requests select the same variant exactly when they mean the same by every header that is
      looked at. */
  lemma SameVariantExactly(ns: seq<Bytes>, h1: Fields, h2: Fields)
    requires BarFree(h1) && BarFree(h2)
    ensures Key(ns, h1) == Key(ns, h2) <==>
      forall c :: LookedAt(ns, c) ==>
        MeansTheSame(c, if c in h1 then h1[c] else [], if c in h2 then h2[c] else [])
  {
    hide Key, Names, LookedAt, Normal, BarFree, Tokens, CommaPieces, Sort, MeansTheSame, Sortable;
    BarFreeKeysEqual(ns, ns, h1, h2);
    forall c ensures c in Names(ns) <==> LookedAt(ns, c) { NamesExactly(ns, c); }
    forall c | LookedAt(ns, c) ensures Normal(c, Values(h1, c)) == Normal(c, Values(h2, c)) <==> MeansTheSame(c, Values(h1, c), Values(h2, c)) {
      SameTextExactly(ns, c, Values(h1, c), Values(h2, c));
    }
  }

  lemma SameTextExactly(ns: seq<Bytes>, c: Bytes, a: seq<Bytes>, b: seq<Bytes>)
    requires LookedAt(ns, c)
    ensures Normal(c, a) == Normal(c, b) <==> MeansTheSame(c, a, b)
  {
    hide Normal, Tokens, CommaPieces, Sort, LookedAt, Sortable;
    NegotiatesExactly(ns, c);
    if Sortable(c) { TokensDecide(c, a, b); } else { ValuesDecide(c, a, b); }
  }
}
