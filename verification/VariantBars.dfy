/** Bars in header values: exactly when variant keys tell requests apart, and what a key says about its names. */
module VariantBars {
  import opened Sorting
  import opened KeyBytes
  import opened QueryString
  import opened VariantKey

  function Text(c: Bytes, h: Fields): Bytes { Normal(c, Values(h, c)) }

  const BAR: Bytes := "|"
  const EQUALS: Bytes := "="

  function Opening(c: Bytes): Bytes { BAR + c + EQUALS }

  ghost predicate NoBars(cs: seq<Bytes>) { forall c :: c in cs ==> Free(c, '|') }

  /** At the first header the requests disagree on, the text of `h2` is that of `h1` followed by the opening of the next
      header, and what it says after that is how the key of `h1` goes on. */
  ghost predicate Forges(cs: seq<Bytes>, h1: Fields, h2: Fields)
    decreases |cs|
  {
    |cs| >= 2 &&
    var n1, n2, next := Text(cs[0], h1), Text(cs[0], h2), cs[1];
    if n1 == n2 then Forges(cs[1..], h1, h2)
    else
      n1 + Opening(next) <= n2 &&
      Written(cs[1..], h1) == next + EQUALS + n2[|n1 + Opening(next)|..] + BAR + Written(cs[1..], h2)
  }

  // ---------- Texts run together ----------

  /** A longer text before a bar can only match by spelling out the opening of what follows. */
  lemma Shifted(n1: Bytes, w1: Bytes, n2: Bytes, w2: Bytes, c: Bytes)
    requires Free(c, '|') && c + EQUALS <= w1 && |n1| < |n2| && n1 + BAR + w1 == n2 + BAR + w2
    ensures n1 + Opening(c) <= n2 && w1 == c + EQUALS + n2[|n1 + Opening(c)|..] + BAR + w2
  {
    var k, t := n1 + BAR + w1, n2[|n1| + 1..];
    assert n2 == k[..|n2|] && k[..|n1| + 1] == n1 + BAR;
    assert n2 == n1 + BAR + t;
    assert w1 == k[|n1| + 1..] && k[|n1| + 1..] == t + BAR + w2;
    assert w1[|t|] == '|';
    assert forall i :: 0 <= i < |c| ==> w1[i] == (c + EQUALS)[i] == c[i];
    assert w1[|c|] == (c + EQUALS)[|c|] == '=';
    assert |t| > |c|;
    assert t == w1[..|t|] && t[..|c| + 1] == w1[..|c| + 1] == c + EQUALS;
    var x := t[|c| + 1..];
    assert t == c + EQUALS + x;
    assert n2 == n1 + Opening(c) + x;
    assert n2[|n1 + Opening(c)|..] == x;
  }

  lemma Unshifted(n1: Bytes, w1: Bytes, n2: Bytes, w2: Bytes, c: Bytes)
    requires n1 + Opening(c) <= n2 && w1 == c + EQUALS + n2[|n1 + Opening(c)|..] + BAR + w2
    ensures n1 + BAR + w1 == n2 + BAR + w2
  {
    var x := n2[|n1 + Opening(c)|..];
    assert n2 == n1 + Opening(c) + x;
  }

  lemma WrittenOpens(c: Bytes, cs: seq<Bytes>, h: Fields)
    ensures c + EQUALS <= Written([c] + cs, h)
  {
    hide Normal, Written;
    WrittenStep(c, cs, h);
  }

  /** One header and what follows it, without the common name. */
  lemma SameAfterName(c: Bytes, tl: seq<Bytes>, h1: Fields, h2: Fields)
    requires tl != []
    ensures Written([c] + tl, h1) == Written([c] + tl, h2) <==>
      Text(c, h1) + BAR + Written(tl, h1) == Text(c, h2) + BAR + Written(tl, h2)
  {
    hide Normal, Written;
    WrittenStep(c, tl, h1);
    WrittenStep(c, tl, h2);
    Grouped3(c, Text(c, h1), Written(tl, h1));
    Grouped3(c, Text(c, h2), Written(tl, h2));
    if Written([c] + tl, h1) == Written([c] + tl, h2) {
      SameFront(c + ['='], Text(c, h1) + BAR + Written(tl, h1), Text(c, h2) + BAR + Written(tl, h2));
    }
  }

  lemma Grouped3(c: Bytes, n: Bytes, w: Bytes)
    ensures c + ['='] + n + ['|'] + w == (c + ['=']) + (n + BAR + w)
  {
  }

  lemma SameLast(c: Bytes, h1: Fields, h2: Fields)
    ensures Written([c], h1) == Written([c], h2) <==> Text(c, h1) == Text(c, h2)
  {
    hide Normal, Written;
    assert [c] == [c] + [];
    WrittenStep(c, [], h1);
    WrittenStep(c, [], h2);
    if Written([c], h1) == Written([c], h2) { SameFront(c + ['='], Text(c, h1), Text(c, h2)); }
  }

  /** Where the first texts differ, the keys are equal exactly when the longer one spells out the rest. */
  lemma DifferExactly(c: Bytes, tl: seq<Bytes>, h1: Fields, h2: Fields)
    requires tl != [] && NoBars([c] + tl) && Text(c, h1) != Text(c, h2)
    ensures Written([c] + tl, h1) == Written([c] + tl, h2) <==> Forges([c] + tl, h1, h2) || Forges([c] + tl, h2, h1)
  {
    hide Normal, Written;
    SameAfterName(c, tl, h1, h2);
    var next, n1, n2, w1, w2 := tl[0], Text(c, h1), Text(c, h2), Written(tl, h1), Written(tl, h2);
    assert tl == [next] + tl[1..] && ([c] + tl)[1..] == tl && ([c] + tl)[1] == next && next in [c] + tl;
    WrittenOpens(next, tl[1..], h1);
    WrittenOpens(next, tl[1..], h2);
    if n1 + BAR + w1 == n2 + BAR + w2 {
      SameLengths(n1, w1, n2, w2);
      if |n1| < |n2| { Shifted(n1, w1, n2, w2, next); } else { Shifted(n2, w2, n1, w1, next); }
    }
    if Forges([c] + tl, h1, h2) { Unshifted(n1, w1, n2, w2, next); }
    if Forges([c] + tl, h2, h1) { Unshifted(n2, w2, n1, w1, next); }
  }

  lemma SameLengths(n1: Bytes, w1: Bytes, n2: Bytes, w2: Bytes)
    requires n1 + BAR + w1 == n2 + BAR + w2
    ensures |n1| == |n2| ==> n1 == n2 && w1 == w2
  {
    var k := n1 + BAR + w1;
    assert n1 == k[..|n1|] && n2 == k[..|n2|] && w1 == k[|n1| + 1..] && w2 == k[|n2| + 1..];
  }

  lemma ForgesOn(c: Bytes, tl: seq<Bytes>, h1: Fields, h2: Fields)
    requires Text(c, h1) == Text(c, h2)
    ensures Forges([c] + tl, h1, h2) <==> Forges(tl, h1, h2)
    ensures Agree([c] + tl, h1, h2) <==> Agree(tl, h1, h2)
  {
    hide Normal, Written;
    assert ([c] + tl)[1..] == tl;
  }

  /** Two requests write the same text exactly when they agree on every header, or one spells out how the other goes
      on. */
  lemma {:induction false} WrittenEqualExactly(cs: seq<Bytes>, h1: Fields, h2: Fields)
    requires NoBars(cs)
    ensures Written(cs, h1) == Written(cs, h2) <==> Agree(cs, h1, h2) || Forges(cs, h1, h2) || Forges(cs, h2, h1)
  {
    hide Normal, Written;
    if cs == [] {
      WrittenNone(h1);
      WrittenNone(h2);
    } else {
      var c, tl := cs[0], cs[1..];
      assert cs == [c] + tl;
      assert c in cs;
      if tl == [] {
        SameLast(c, h1, h2);
        assert cs == [c];
      } else if Text(c, h1) == Text(c, h2) {
        WrittenEqualExactly(tl, h1, h2);
        ForgesOn(c, tl, h1, h2);
        ForgesOn(c, tl, h2, h1);
        SameAfterName(c, tl, h1, h2);
        if Written(cs, h1) == Written(cs, h2) { SameFront(Text(c, h1) + BAR, Written(tl, h1), Written(tl, h2)); }
      } else {
        DifferExactly(c, tl, h1, h2);
      }
    }
  }

  /** Two requests select the same variant exactly when they agree on every header the origin varies on, or one spells
      out how the other's key goes on. */
  lemma KeysEqualExactly(n1: seq<Bytes>, n2: seq<Bytes>, h1: Fields, h2: Fields)
    requires multiset(n1) == multiset(n2) && NoBars(Names(n1))
    ensures Key(n1, h1) == Key(n2, h2) <==>
      Agree(Names(n1), h1, h2) || Forges(NameList(n1), h1, h2) || Forges(NameList(n1), h2, h1)
  {
    hide Sort, Written, Normal, Names, Forges;
    ByteOrderTotal();
    SortCanonical(BYTE_ORDER, n1, n2);
    NameListMembers(n1);
    WrittenEqualExactly(NameList(n1), h1, h2);
  }

  // ---------- Short lists ----------

  lemma OneName(n: Bytes, h: Fields)
    requires Canon(n) != []
    ensures NameList([n]) == [Canon(n)] && Key([n], h) == Canon(n) + ['='] + Text(Canon(n), h)
  {
    hide Written, Normal, Canon;
    assert [n][1..] == [];
    assert Sort(BYTE_ORDER, [n]) == [n];
    NamesNone();
    WrittenStep(Canon(n), [], h);
    assert [Canon(n)] + [] == [Canon(n)];
  }

  lemma TwoNames(n: Bytes, m: Bytes, h: Fields)
    requires Canon(n) != [] && Canon(m) != [] && Leq(n, m)
    ensures Key([n, m], h) == Canon(n) + ['='] + Text(Canon(n), h) + ['|'] + (Canon(m) + ['='] + Text(Canon(m), h))
  {
    hide Written, Normal, Canon, Leq;
    SortedPair(n, m);
    NamesPair(n, m);
    WrittenStep(Canon(n), [Canon(m)], h);
    WrittenStep(Canon(m), [], h);
    assert [Canon(m)] + [] == [Canon(m)] && [Canon(n)] + [Canon(m)] == [Canon(n), Canon(m)];
  }

  lemma SortedPair(n: Bytes, m: Bytes)
    requires Leq(n, m)
    ensures Sort(BYTE_ORDER, [n, m]) == [n, m]
  {
    hide Leq;
    assert [n, m][1..] == [m] && [m][1..] == [];
    assert Sort(BYTE_ORDER, [m]) == [m];
  }

  lemma NamesPair(n: Bytes, m: Bytes)
    requires Canon(n) != [] && Canon(m) != []
    ensures Names([n, m]) == [Canon(n), Canon(m)]
  {
    hide Canon;
    assert [n, m][1..] == [m] && [m][1..] == [];
    assert Names([m]) == [Canon(m)];
    assert Names([n, m]) == [Canon(n)] + Names([m]);
  }

  // ---------- Conditions on a request ----------

  ghost predicate Contains(s: Bytes, t: Bytes) { exists i :: 0 <= i <= |s| && t <= s[i..] }

  /** No header's text holds the opening of the header after it. */
  ghost predicate Harmless(cs: seq<Bytes>, h: Fields) {
    forall i :: 0 <= i < |cs| - 1 ==> !Contains(Text(cs[i], h), Opening(cs[i + 1]))
  }

  lemma {:induction false} HarmlessForgesNot(cs: seq<Bytes>, h1: Fields, h2: Fields)
    requires Harmless(cs, h2)
    ensures !Forges(cs, h1, h2)
    decreases |cs|
  {
    hide Normal, Written, Contains;
    if |cs| >= 2 {
      var n1, n2, next := Text(cs[0], h1), Text(cs[0], h2), cs[1];
      if n1 == n2 {
        forall i | 0 <= i < |cs[1..]| - 1 ensures !Contains(Text(cs[1..][i], h2), Opening(cs[1..][i + 1])) {
          assert cs[1..][i] == cs[i + 1] && cs[1..][i + 1] == cs[i + 1 + 1];
        }
        HarmlessForgesNot(cs[1..], h1, h2);
      } else {
        assert !Contains(n2, Opening(cs[0 + 1]));
        if n1 + Opening(next) <= n2 { HoldsAfter(n1, Opening(next), n2); }
      }
    }
  }

  lemma HoldsAfter(a: Bytes, o: Bytes, s: Bytes)
    requires a + o <= s
    ensures Contains(s, o)
  {
    assert s[|a|..][..|o|] == o;
    assert o <= s[|a|..];
  }

  /** Keys of harmless requests determine the headers; a single header is always harmless, and so are values without
      bars. */
  lemma HarmlessKeysDecode(n1: seq<Bytes>, n2: seq<Bytes>, h1: Fields, h2: Fields)
    requires multiset(n1) == multiset(n2) && NoBars(Names(n1)) && Harmless(NameList(n1), h1) && Harmless(NameList(n1), h2)
    ensures Key(n1, h1) == Key(n2, h2) <==> Agree(Names(n1), h1, h2)
  {
    hide Key, Names, NameList, Agree, Harmless, Forges;
    KeysEqualExactly(n1, n2, h1, h2);
    HarmlessForgesNot(NameList(n1), h1, h2);
    HarmlessForgesNot(NameList(n1), h2, h1);
  }

  lemma BarFreeHarmless(cs: seq<Bytes>, h: Fields)
    requires BarFree(h) || |cs| <= 1
    ensures Harmless(cs, h)
  {
    hide Normal;
    if |cs| > 1 {
      forall i | 0 <= i < |cs| - 1 ensures !Contains(Text(cs[i], h), Opening(cs[i + 1])) {
        NormalFree(cs[i], Values(h, cs[i]));
        FreeHoldsNot(Text(cs[i], h), cs[i + 1]);
      }
    }
  }

  lemma FreeHoldsNot(s: Bytes, c: Bytes)
    requires Free(s, '|')
    ensures !Contains(s, Opening(c))
  {
    forall i | 0 <= i <= |s| ensures !(Opening(c) <= s[i..]) {
      assert Opening(c)[0] == '|';
      assert forall j :: 0 <= j < |s[i..]| ==> s[i..][j] != '|';
    }
  }

  // ---------- The collision ----------

  /** A value without commas that nothing trims is its own normal text. */
  lemma OwnText(c: Bytes, v: Bytes)
    requires v != [] && Free(v, ',') && TrimSpace(v) == v
    ensures Normal(c, [v]) == v && Normal(c, []) == []
  {
    hide TrimSpace, Sort;
    SortNone();
    SortOne(v);
    if Sortable(c) {
      OneToken(v);
      TokensNone();
    } else {
      SingleNormal(c, [v]);
    }
  }

  lemma SortOne(v: Bytes)
    ensures Sort(BYTE_ORDER, [v]) == [v]
  {
    assert [v][1..] == [];
  }

  lemma OneToken(v: Bytes)
    requires v != [] && Free(v, ',') && TrimSpace(v) == v
    ensures Tokens([v]) == [v]
  {
    hide TrimSpace, Split;
    SplitFree(v, ',');
    assert [v][1..] == [];
    assert TrimAll([v]) == [v];
    assert NonEmpty([v]) == [v];
    TokensNone();
  }

  lemma OpeningTrimmed(c: Bytes)
    ensures TrimSpace(Opening(c)) == Opening(c) && Opening(c) != []
  {
    assert Opening(c)[0] == '|' && Opening(c)[|Opening(c)| - 1] == '=';
  }

  /** For any two headers: a value that spells the opening of the second, sent as the first or as the second, gives the
      same key. */
  lemma BarForges(names: seq<Bytes>, a: Bytes, b: Bytes)
    requires NameList(names) == [a, b] && a != b && Free(b, ',')
    ensures var first: Fields, last: Fields := map[a := [Opening(b)]], map[b := [Opening(b)]];
      Key(names, first) == Key(names, last) && !Agree(Names(names), first, last)
  {
    hide Sort, Normal, Written, Names;
    var v := Opening(b);
    var first: Fields, last: Fields := map[a := [v]], map[b := [v]];
    OpeningTrimmed(b);
    OwnText(a, v);
    OwnText(b, v);
    NameListMembers(names);
    assert a in NameList(names);
    assert [a, b] == [a] + [b] && [b] == [b] + [];
    WrittenStep(a, [b], first);
    WrittenStep(a, [b], last);
    WrittenStep(b, [], first);
    WrittenStep(b, [], last);
    ForgedText(a, b);
  }

  lemma ForgedText(a: Bytes, b: Bytes)
    ensures (a + ['='] + Opening(b)) + ['|'] + (b + ['='] + []) == (a + ['='] + []) + ['|'] + (b + ['='] + Opening(b))
  {
    assert Opening(b) == ['|'] + (b + ['=']);
  }

  // ---------- Names ----------

  /** Names that hold neither of the key's delimiters. */
  ghost predicate Clear(cs: seq<Bytes>) { forall c :: c in cs ==> Free(c, '|') && Free(c, '=') }

  lemma NameEnds(c: Bytes, x: Bytes, d: Bytes, y: Bytes)
    requires Free(c, '=') && Free(d, '=') && c + EQUALS + x == d + EQUALS + y
    ensures c == d && x == y
  {
    var k := c + EQUALS + x;
    assert k[|c|] == '=' && k[|d|] == '=';
    assert forall i :: 0 <= i < |c| ==> k[i] == c[i];
    assert forall i :: 0 <= i < |d| ==> k[i] == d[i];
    assert |c| == |d|;
    assert c == k[..|c|] && d == k[..|d|] && x == k[|c| + 1..] && y == k[|d| + 1..];
  }

  /** The key's first header ends at its first bar. */
  lemma SectionEnds(c: Bytes, tl: seq<Bytes>, h: Fields)
    requires BarFree(h) && Free(c, '|')
    ensures Free(Section(c, h), '|')
    ensures tl == [] ==> Written([c] + tl, h) == Section(c, h)
    ensures tl != [] ==> Written([c] + tl, h) == Section(c, h) + ['|'] + Written(tl, h)
  {
    hide Normal, Written;
    NormalFree(c, Values(h, c));
    WrittenStep(c, tl, h);
  }

  lemma SectionName(c: Bytes, h: Fields, d: Bytes, g: Fields)
    requires Free(c, '=') && Free(d, '=') && Section(c, h) == Section(d, g)
    ensures c == d
  {
    hide Normal;
    NameEnds(c, Text(c, h), d, Text(d, g));
  }

  /** Without bars in values, equal keys are written from equal name lists. */
  lemma {:induction false} SameNames(cs: seq<Bytes>, ds: seq<Bytes>, h: Fields, g: Fields)
    requires Clear(cs) && Clear(ds) && BarFree(h) && BarFree(g) && Written(cs, h) == Written(ds, g)
    ensures cs == ds
  {
    hide Normal, Written, BarFree, Section;
    if cs == [] || ds == [] {
      WrittenNone(h);
      WrittenNone(g);
      if cs != [] { assert cs == [cs[0]] + cs[1..]; WrittenOpens(cs[0], cs[1..], h); }
      if ds != [] { assert ds == [ds[0]] + ds[1..]; WrittenOpens(ds[0], ds[1..], g); }
    } else {
      var c, tl, d, dl := cs[0], cs[1..], ds[0], ds[1..];
      assert cs == [c] + tl && ds == [d] + dl && c in cs && d in ds;
      SectionEnds(c, tl, h);
      SectionEnds(d, dl, g);
      assert tl == [] <==> dl == [] by { OneBar(Section(c, h), Written(tl, h), tl != [], Section(d, g), Written(dl, g), dl != []); }
      if tl != [] {
        FirstBar(Section(c, h), Written(tl, h), Section(d, g), Written(dl, g));
        SameNames(tl, dl, h, g);
      }
      SectionName(c, h, d, g);
    }
  }

  lemma OneBar(x: Bytes, a: Bytes, more: bool, y: Bytes, b: Bytes, more': bool)
    requires Free(x, '|') && Free(y, '|')
    requires (if more then x + ['|'] + a else x) == (if more' then y + ['|'] + b else y)
    ensures more == more'
  {
    if more { assert (x + ['|'] + a)[|x|] == '|'; }
    if more' { assert (y + ['|'] + b)[|y|] == '|'; }
  }

  lemma KeysNameTheSame(n1: seq<Bytes>, n2: seq<Bytes>, h1: Fields, h2: Fields)
    requires Clear(Names(n1)) && Clear(Names(n2)) && BarFree(h1) && BarFree(h2)
    ensures Key(n1, h1) == Key(n2, h2) <==> NameList(n1) == NameList(n2) && Agree(Names(n1), h1, h2)
  {
    hide Sort, Written, Normal, Names, BarFree;
    NameListMembers(n1);
    NameListMembers(n2);
    if Key(n1, h1) == Key(n2, h2) { SameNames(NameList(n1), NameList(n2), h1, h2); }
    if NameList(n1) == NameList(n2) { WrittenExactly(NameList(n1), h1, h2); }
  }
}
