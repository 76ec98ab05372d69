/** The key of a variant: which stored response answers which request headers. */
module VariantKey {
  import opened Sorting
  import opened KeyBytes
  import opened QueryString

  /** Request header values by lower-case name. */
  type Fields = map<Bytes, seq<Bytes>>

  function Values(h: Fields, name: Bytes): seq<Bytes> { if name in h then h[name] else [] }

  lemma {:induction false} TrimFree(s: Bytes, c: Byte)
    requires Free(s, c)
    ensures Free(TrimSpace(s), c)
    decreases |s|
  {
    if s != [] && IsSpace(s[0]) { TrimFree(s[1..], c); }
    else if s != [] && IsSpace(s[|s| - 1]) { TrimFree(s[..|s| - 1], c); }
  }

  function Canon(name: Bytes): Bytes { ToLower(TrimSpace(name)) }

  /** Content-negotiation headers, whose tokens may be reordered. */
  predicate Sortable(name: Bytes) {
    var n := Canon(name);
    n == "accept-encoding" || n == "accept-language" || n == "accept"
  }

  // ---------- The normal text of one header ----------

  function NonEmpty(ps: seq<Bytes>): (r: seq<Bytes>)
    ensures forall x :: x in r <==> x in ps && x != []
  {
    if ps == [] then [] else (if ps[0] != [] then [ps[0]] else []) + NonEmpty(ps[1..])
  }

  function Tokens(vals: seq<Bytes>): seq<Bytes> {
    if vals == [] then [] else NonEmpty(TrimAll(Split(vals[0], ','))) + Tokens(vals[1..])
  }

  function List(ps: seq<Bytes>): Bytes { if ps == [] then [] else Join(ps, ',') }

  function Normal(name: Bytes, vals: seq<Bytes>): Bytes {
    if Sortable(name) then List(Sort(BYTE_ORDER, Tokens(vals))) else List(TrimAll(Sort(BYTE_ORDER, vals)))
  }

  ghost predicate AllFree(ps: seq<Bytes>, c: Byte) { forall x :: x in ps ==> Free(x, c) }

  lemma PiecesFree(v: Bytes, c: Byte)
    requires Free(v, c)
    ensures AllFree(NonEmpty(TrimAll(Split(v, ','))), c)
  {
    hide Split, TrimSpace;
    FreePieces(v, ',', c);
    var ps := Split(v, ',');
    forall i | 0 <= i < |ps| ensures Free(TrimSpace(ps[i]), c) { TrimFree(ps[i], c); }
    assert AllFree(TrimAll(ps), c);
  }

  lemma PiecesApart(v: Bytes)
    ensures AllFree(NonEmpty(TrimAll(Split(v, ','))), ',')
  {
    hide Split, TrimSpace;
    SplitApart(v, ',');
    var ps := Split(v, ',');
    forall i | 0 <= i < |ps| ensures Free(TrimSpace(ps[i]), ',') { TrimFree(ps[i], ','); }
    assert AllFree(TrimAll(ps), ',');
  }

  lemma {:induction false} TokensApart(vals: seq<Bytes>)
    ensures AllFree(Tokens(vals), ',') && forall x :: x in Tokens(vals) ==> x != []
  {
    if vals != [] {
      PiecesApart(vals[0]);
      TokensApart(vals[1..]);
    }
  }

  lemma {:induction false} TokensFree(vals: seq<Bytes>, c: Byte)
    requires AllFree(vals, c)
    ensures AllFree(Tokens(vals), c)
  {
    if vals != [] {
      assert vals[0] in vals;
      PiecesFree(vals[0], c);
      TokensFree(vals[1..], c);
    }
  }

  lemma SortMembers(s: seq<Bytes>)
    ensures forall x :: x in Sort(BYTE_ORDER, s) <==> x in s
  {
    forall x ensures x in Sort(BYTE_ORDER, s) <==> x in s { SortedMembers(s, x); }
  }

  lemma NormalFree(name: Bytes, vals: seq<Bytes>)
    requires AllFree(vals, '|')
    ensures Free(Normal(name, vals), '|')
  {
    hide Sort, Tokens, TrimSpace;
    var ts := if Sortable(name) then Sort(BYTE_ORDER, Tokens(vals)) else TrimAll(Sort(BYTE_ORDER, vals));
    if Sortable(name) {
      TokensFree(vals, '|');
      SortMembers(Tokens(vals));
    } else {
      SortMembers(vals);
      var ss := Sort(BYTE_ORDER, vals);
      forall i | 0 <= i < |ss| ensures Free(TrimSpace(ss[i]), '|') { assert ss[i] in vals; TrimFree(ss[i], '|'); }
    }
    assert AllFree(ts, '|');
    assert forall i :: 0 <= i < |ts| ==> ts[i] in ts;
    if ts != [] { JoinFree(ts, ',', '|'); }
  }

  lemma ListInjective(a: seq<Bytes>, b: seq<Bytes>)
    requires AllFree(a, ',') && AllFree(b, ',') && [] !in a && [] !in b
    requires List(a) == List(b)
    ensures a == b
  {
    hide Join;
    if a != [] { JoinNonEmpty(a); }
    if b != [] { JoinNonEmpty(b); }
    if a != [] && b != [] {
      assert forall i :: 0 <= i < |a| ==> a[i] in a;
      assert forall i :: 0 <= i < |b| ==> b[i] in b;
      JoinInjective(a, b, ',');
    }
  }

  lemma JoinNonEmpty(ps: seq<Bytes>)
    requires |ps| > 0 && [] !in ps
    ensures Join(ps, ',') != []
  {
    assert ps[0] in ps;
  }

  /** Negotiation headers agree exactly when they list the same tokens, in any order and grouping. */
  lemma TokensDecide(name: Bytes, a: seq<Bytes>, b: seq<Bytes>)
    requires Sortable(name)
    ensures Normal(name, a) == Normal(name, b) <==> multiset(Tokens(a)) == multiset(Tokens(b))
  {
    hide Sort, Tokens, List;
    ByteOrderTotal();
    SortCanonical(BYTE_ORDER, Tokens(a), Tokens(b));
    TokensApart(a);
    TokensApart(b);
    SortMembers(Tokens(a));
    SortMembers(Tokens(b));
    if Normal(name, a) == Normal(name, b) {
      ListInjective(Sort(BYTE_ORDER, Tokens(a)), Sort(BYTE_ORDER, Tokens(b)));
    }
  }

  /** What stands between the commas of some values written one after the other; no value reads like an empty one. */
  function CommaPieces(vs: seq<Bytes>): seq<Bytes> {
    if |vs| == 0 then [[]] else if |vs| == 1 then Split(vs[0], ',') else Split(vs[0], ',') + CommaPieces(vs[1..])
  }

  lemma {:induction false} ListPieces(vs: seq<Bytes>)
    ensures Split(List(vs), ',') == CommaPieces(vs)
  {
    hide Split;
    if vs == [] {
      SplitNone(',');
    } else if |vs| > 1 {
      ListPieces(vs[1..]);
      SplitConcat(vs[0], ',', Join(vs[1..], ','));
    }
  }

  lemma ListsEqualExactly(a: seq<Bytes>, b: seq<Bytes>)
    ensures List(a) == List(b) <==> CommaPieces(a) == CommaPieces(b)
  {
    hide List, Split, CommaPieces, Join;
    ListPieces(a);
    ListPieces(b);
    JoinSplit(List(a), ',');
    JoinSplit(List(b), ',');
  }

  /** Other headers: repeated fields may come in any order, and a single field is compared trimmed. In general the
      fields, sorted and then trimmed, must hold the same pieces between commas; if each holds text and no comma, that
      is the same fields. */
  lemma ValuesDecide(name: Bytes, a: seq<Bytes>, b: seq<Bytes>)
    requires !Sortable(name)
    ensures Normal(name, a) == Normal(name, b) <==>
      CommaPieces(TrimAll(Sort(BYTE_ORDER, a))) == CommaPieces(TrimAll(Sort(BYTE_ORDER, b)))
    ensures multiset(a) == multiset(b) ==> Normal(name, a) == Normal(name, b)
    ensures |a| == 1 && |b| == 1 ==> (Normal(name, a) == Normal(name, b) <==> TrimSpace(a[0]) == TrimSpace(b[0]))
    ensures Worded(a) && Worded(b) ==>
      (Normal(name, a) == Normal(name, b) <==> TrimAll(Sort(BYTE_ORDER, a)) == TrimAll(Sort(BYTE_ORDER, b)))
  {
    hide TrimSpace, Sort, List, CommaPieces;
    ByteOrderTotal();
    SortCanonical(BYTE_ORDER, a, b);
    ListsEqualExactly(TrimAll(Sort(BYTE_ORDER, a)), TrimAll(Sort(BYTE_ORDER, b)));
    if |a| == 1 { SingleNormal(name, a); }
    if |b| == 1 { SingleNormal(name, b); }
    if Worded(a) && Worded(b) {
      WordedTrims(a);
      WordedTrims(b);
      if Normal(name, a) == Normal(name, b) { ListInjective(TrimAll(Sort(BYTE_ORDER, a)), TrimAll(Sort(BYTE_ORDER, b))); }
    }
  }

  /** Every value holds text and no comma. */
  ghost predicate Worded(vs: seq<Bytes>) { forall v :: v in vs ==> Free(v, ',') && TrimSpace(v) != [] }

  lemma WordedTrims(a: seq<Bytes>)
    requires Worded(a)
    ensures var ts := TrimAll(Sort(BYTE_ORDER, a)); AllFree(ts, ',') && [] !in ts
  {
    hide TrimSpace, Sort;
    SortMembers(a);
    var s := Sort(BYTE_ORDER, a);
    forall i | 0 <= i < |s| ensures Free(TrimSpace(s[i]), ',') && TrimSpace(s[i]) != [] { assert s[i] in a; TrimFree(s[i], ','); }
  }

  lemma SingleNormal(name: Bytes, a: seq<Bytes>)
    requires !Sortable(name) && |a| == 1
    ensures Normal(name, a) == TrimSpace(a[0])
  {
    hide TrimSpace;
    assert a[1..] == [];
    assert Sort(BYTE_ORDER, a) == a;
  }

  // ---------- The key ----------

  function Names(ns: seq<Bytes>): seq<Bytes> {
    if ns == [] then [] else (if Canon(ns[0]) != [] then [Canon(ns[0])] else []) + Names(ns[1..])
  }

  function Section(c: Bytes, h: Fields): Bytes { c + ['='] + Normal(c, Values(h, c)) }

  function Sections(cs: seq<Bytes>, h: Fields): (r: seq<Bytes>)
    ensures |r| == |cs|
  {
    if cs == [] then [] else [Section(cs[0], h)] + Sections(cs[1..], h)
  }

  function Written(cs: seq<Bytes>, h: Fields): Bytes {
    if cs == [] then [] else Join(Sections(cs, h), '|')
  }

  function Key(names: seq<Bytes>, h: Fields): Bytes { Written(Names(Sort(BYTE_ORDER, names)), h) }

  /** The request headers agree on every listed header, each in normal form. */
  ghost predicate Agree(cs: seq<Bytes>, h1: Fields, h2: Fields) {
    forall c :: c in cs ==> Normal(c, Values(h1, c)) == Normal(c, Values(h2, c))
  }

  ghost predicate BarFree(h: Fields) { forall c :: c in h ==> AllFree(h[c], '|') }

  lemma WrittenStep(c: Bytes, cs: seq<Bytes>, h: Fields)
    ensures Written([c] + cs, h)
         == if cs == [] then Section(c, h) else Section(c, h) + ['|'] + Written(cs, h)
  {
    hide Normal;
    assert ([c] + cs)[1..] == cs;
    var all := Sections([c] + cs, h);
    assert all == [Section(c, h)] + Sections(cs, h);
    assert all[1..] == Sections(cs, h);
  }

  lemma FirstBar(x: Bytes, a: Bytes, y: Bytes, b: Bytes)
    requires Free(x, '|') && Free(y, '|') && x + ['|'] + a == y + ['|'] + b
    ensures x == y && a == b
  {
    assert (x + ['|'] + a)[|x|] == '|' && (y + ['|'] + b)[|y|] == '|';
    assert forall i :: 0 <= i < |x| ==> (x + ['|'] + a)[i] == x[i];
    assert forall i :: 0 <= i < |y| ==> (y + ['|'] + b)[i] == y[i];
    assert |x| == |y|;
    assert x == (x + ['|'] + a)[..|x|] && y == (y + ['|'] + b)[..|y|];
    assert a == (x + ['|'] + a)[|x| + 1..] && b == (y + ['|'] + b)[|y| + 1..];
  }

  lemma SameFront(p: Bytes, a: Bytes, b: Bytes)
    requires p + a == p + b
    ensures a == b
  {
    assert a == (p + a)[|p|..] && b == (p + b)[|p|..];
  }

  lemma {:induction false} WrittenExactly(cs: seq<Bytes>, h1: Fields, h2: Fields)
    requires BarFree(h1) && BarFree(h2)
    ensures Written(cs, h1) == Written(cs, h2) <==> Agree(cs, h1, h2)
  {
    hide Normal, Written;
    if cs == [] {
      WrittenNone(h1);
      WrittenNone(h2);
    } else {
      var c, tl := cs[0], cs[1..];
      assert cs == [c] + tl;
      WrittenExactly(tl, h1, h2);
      WrittenStep(c, tl, h1);
      WrittenStep(c, tl, h2);
      NormalFree(c, Values(h1, c));
      NormalFree(c, Values(h2, c));
      if Written(cs, h1) == Written(cs, h2) {
        SameSections(c, Normal(c, Values(h1, c)), Normal(c, Values(h2, c)), tl != [], Written(tl, h1), Written(tl, h2));
      }
    }
  }

  lemma SameSections(c: Bytes, n1: Bytes, n2: Bytes, more: bool, w1: Bytes, w2: Bytes)
    requires Free(n1, '|') && Free(n2, '|')
    requires more ==> c + ['='] + n1 + ['|'] + w1 == c + ['='] + n2 + ['|'] + w2
    requires !more ==> c + ['='] + n1 == c + ['='] + n2
    ensures n1 == n2 && (more ==> w1 == w2)
  {
    if more {
      assert c + ['='] + n1 + ['|'] + w1 == (c + ['=']) + (n1 + ['|'] + w1);
      assert c + ['='] + n2 + ['|'] + w2 == (c + ['=']) + (n2 + ['|'] + w2);
      SameFront(c + ['='], n1 + ['|'] + w1, n2 + ['|'] + w2);
      FirstBar(n1, w1, n2, w2);
    } else {
      SameFront(c + ['='], n1, n2);
    }
  }

  lemma WrittenNone(h: Fields)
    ensures Written([], h) == []
  {
  }

  /** The names a key is written from, in order. */
  function NameList(names: seq<Bytes>): seq<Bytes> { Names(Sort(BYTE_ORDER, names)) }

  lemma NameListMembers(names: seq<Bytes>)
    ensures forall c :: c in NameList(names) <==> c in Names(names)
  {
    hide Sort, Canon;
    var s := Sort(BYTE_ORDER, names);
    SortMembers(names);
    NamesMembers(s);
    NamesMembers(names);
    forall c ensures c in Names(s) <==> c in Names(names) {
      if c in Names(s) { var x :| x in s && Canon(x) == c && c != []; assert x in names; }
      if c in Names(names) { var x :| x in names && Canon(x) == c && c != []; assert x in s; }
    }
  }

  /** Without bars in values, two requests select the same variant exactly when they agree on every header the origin
      varies on; the order in which the names were listed does not matter. */
  lemma BarFreeKeysEqual(n1: seq<Bytes>, n2: seq<Bytes>, h1: Fields, h2: Fields)
    requires multiset(n1) == multiset(n2) && BarFree(h1) && BarFree(h2)
    ensures Key(n1, h1) == Key(n2, h2) <==> Agree(Names(n1), h1, h2)
  {
    hide Sort, Written, Normal, Names;
    ByteOrderTotal();
    SortCanonical(BYTE_ORDER, n1, n2);
    NameListMembers(n1);
    WrittenExactly(NameList(n1), h1, h2);
  }

  lemma {:induction false} NamesMembers(ns: seq<Bytes>)
    ensures forall c :: c in Names(ns) <==> c != [] && exists x :: x in ns && Canon(x) == c
  {
    if ns != [] {
      NamesMembers(ns[1..]);
      forall c ensures c in Names(ns) <==> c != [] && exists x :: x in ns && Canon(x) == c {
        if x :| x in ns && Canon(x) == c && c != [] {
          assert x == ns[0] || x in ns[1..];
        }
        if c in Names(ns) && c !in Names(ns[1..]) { assert ns[0] in ns && Canon(ns[0]) == c; }
      }
    }
  }

  lemma SortNone()
    ensures Sort(BYTE_ORDER, []) == []
  {
  }

  /** A written key is never mistaken for the default one. */
  lemma KeyNeverDefault(names: seq<Bytes>, h: Fields)
    ensures Key(names, h) != "default"
  {
    hide Sort, Normal, Written, Names;
    var cs := Names(Sort(BYTE_ORDER, names));
    if cs == [] {
      WrittenNone(h);
    } else {
      assert cs == [cs[0]] + cs[1..];
      WrittenStep(cs[0], cs[1..], h);
      assert Key(names, h)[|cs[0]|] == '=';
    }
  }

  // ---------- Writing it ----------

  method CollectTokens(vals: seq<Bytes>) returns (tokens: seq<Bytes>)
    ensures tokens == Tokens(vals)
  {
    hide Tokens, Split, TrimAll, NonEmpty;
    tokens := [];
    for i := 0 to |vals|
      invariant tokens + Tokens(vals[i..]) == Tokens(vals)
    {
      TokensStep(vals, i);
      var own := Pieces(vals[i]);
      tokens := tokens + own;
    }
    TokensNone();
    assert vals[|vals|..] == [];
  }

  method Pieces(v: Bytes) returns (own: seq<Bytes>)
    ensures own == NonEmpty(TrimAll(Split(v, ',')))
  {
    hide Split, TrimSpace, TrimAll, NonEmpty;
    var parts := Split(v, ',');
    own := [];
    for j := 0 to |parts|
      invariant own + NonEmpty(TrimAll(parts[j..])) == NonEmpty(TrimAll(parts))
    {
      PickStep(parts, j);
      var trimmed := TrimSpace(parts[j]);
      if trimmed != [] { own := own + [trimmed]; }
    }
    PickNone(parts);
  }

  lemma TokensStep(vals: seq<Bytes>, i: nat)
    requires i < |vals|
    ensures Tokens(vals[i..]) == NonEmpty(TrimAll(Split(vals[i], ','))) + Tokens(vals[i + 1..])
  {
    hide Split, TrimAll, NonEmpty;
    assert vals[i..][1..] == vals[i + 1..];
  }

  lemma TokensNone()
    ensures Tokens([]) == []
  {
  }

  lemma PickStep(ps: seq<Bytes>, j: nat)
    requires j < |ps|
    ensures NonEmpty(TrimAll(ps[j..])) == (if TrimSpace(ps[j]) != [] then [TrimSpace(ps[j])] else []) + NonEmpty(TrimAll(ps[j + 1..]))
  {
    hide TrimSpace;
    assert ps[j..][1..] == ps[j + 1..];
    assert TrimAll(ps[j..])[1..] == TrimAll(ps[j + 1..]);
  }

  lemma PickNone(ps: seq<Bytes>)
    ensures NonEmpty(TrimAll(ps[|ps|..])) == []
  {
  }

  /** Write a list with commas between its elements. */
  method WriteList(items: seq<Bytes>) returns (buf: Bytes)
    ensures buf == List(items)
  {
    hide Join;
    buf := [];
    for i := 0 to |items|
      invariant buf == List(items[..i])
    {
      assert items[..i + 1] == items[..i] + [items[i]];
      if i > 0 { JoinSnoc(items[..i], items[i], ','); } else { JoinOne(items[0]); assert items[..1] == [items[0]]; }
      if i > 0 { buf := buf + [',']; }
      buf := buf + items[i];
    }
    assert items[..|items|] == items;
  }

  lemma JoinOne(x: Bytes)
    ensures forall sep :: Join([x], sep) == x
  {
  }

  method NormalText(name: Bytes, vals: seq<Bytes>) returns (text: Bytes)
    ensures text == Normal(name, vals)
  {
    hide Sort, Tokens, List;
    if Sortable(name) {
      var tokens := CollectTokens(vals);
      text := WriteList(Sort(BYTE_ORDER, tokens));
    } else {
      text := WriteList(TrimAll(Sort(BYTE_ORDER, vals)));
    }
  }

  method GenerateVariantKey(h: Fields, names: seq<Bytes>) returns (key: Bytes)
    ensures key == Key(names, h)
  {
    hide Sort, Normal, Canon, Written, Names;
    var headers := Sort(BYTE_ORDER, names);
    var first := true;
    key := [];
    ghost var done: seq<Bytes> := [];
    WrittenNone(h);
    NamesNone();
    assert headers[..0] == [];
    for i := 0 to |headers|
      invariant done == Names(headers[..i]) && key == Written(done, h) && (first <==> done == [])
    {
      NamesSnoc(headers[..i], headers[i]);
      assert headers[..i + 1] == headers[..i] + [headers[i]];
      var name := Canon(headers[i]);
      if name != [] {
        WrittenSnoc(done, name, h);
        if !first { key := key + ['|']; }
        var text := NormalText(name, Values(h, name));
        key := key + name + ['='] + text;
        first := false;
        done := done + [name];
      }
    }
    assert headers[..|headers|] == headers;
  }

  lemma NamesNone()
    ensures Names([]) == []
  {
  }

  lemma {:induction false} NamesSnoc(ns: seq<Bytes>, x: Bytes)
    ensures Names(ns + [x]) == Names(ns) + if Canon(x) != [] then [Canon(x)] else []
  {
    hide Canon;
    if ns == [] {
      assert ns + [x] == [x] && [x][1..] == [];
    } else {
      assert (ns + [x])[1..] == ns[1..] + [x];
      NamesSnoc(ns[1..], x);
    }
  }

  lemma {:induction false} WrittenSnoc(cs: seq<Bytes>, c: Bytes, h: Fields)
    ensures Written(cs + [c], h)
         == (if cs == [] then [] else Written(cs, h) + ['|']) + c + ['='] + Normal(c, Values(h, c))
  {
    hide Written, Normal;
    if cs == [] {
      assert cs + [c] == [c] + [];
      WrittenStep(c, [], h);
    } else {
      var hd, tl := cs[0], cs[1..];
      assert cs == [hd] + tl && cs + [c] == [hd] + (tl + [c]);
      WrittenSnoc(tl, c, h);
      WrittenStep(hd, tl, h);
      WrittenStep(hd, tl + [c], h);
      SnocText(Section(hd, h), tl != [], Written(tl, h), c, Normal(c, Values(h, c)));
    }
  }

  lemma SnocText(first: Bytes, more: bool, rest: Bytes, c: Bytes, n: Bytes)
    ensures first + ['|'] + ((if more then rest + ['|'] else []) + c + ['='] + n)
         == (if more then first + ['|'] + rest else first) + ['|'] + c + ['='] + n
  {
    if more {
      assert first + ['|'] + (rest + ['|'] + c + ['='] + n) == first + ['|'] + rest + ['|'] + c + ['='] + n;
    } else {
      assert first + ['|'] + ([] + c + ['='] + n) == first + ['|'] + c + ['='] + n;
    }
  }
}
