/** Byte strings as cache keys use them: byte order, splitting and joining. */
module KeyBytes {
  import opened Sorting

  type Byte = c: char | c as int < 256 witness 'a'
  type Bytes = seq<Byte>

  // ---------- Order ----------

  /** Byte-wise lexicographic order, as `slices.Sort` uses on strings. */
  predicate Leq(a: Bytes, b: Bytes) {
    a == [] || (b != [] && (a[0] < b[0] || (a[0] == b[0] && Leq(a[1..], b[1..]))))
  }

  lemma LeqRefl(a: Bytes)
    ensures Leq(a, a)
  {
  }

  lemma LeqTotal(a: Bytes, b: Bytes)
    ensures Leq(a, b) || Leq(b, a)
  {
  }

  lemma {:induction false} LeqAntisym(a: Bytes, b: Bytes)
    requires Leq(a, b) && Leq(b, a)
    ensures a == b
  {
    if a != [] && b != [] {
      LeqAntisym(a[1..], b[1..]);
      assert a == [a[0]] + a[1..] && b == [b[0]] + b[1..];
    }
  }

  lemma LeqTrans(a: Bytes, b: Bytes, c: Bytes)
    requires Leq(a, b) && Leq(b, c)
    ensures Leq(a, c)
  {
  }

  const BYTE_ORDER: (Bytes, Bytes) -> bool := (a, b) => Leq(a, b)

  lemma ByteOrderTotal()
    ensures TotalOrder(BYTE_ORDER)
  {
    forall a, b ensures BYTE_ORDER(a, a) && (BYTE_ORDER(a, b) || BYTE_ORDER(b, a)) { LeqRefl(a); LeqTotal(a, b); }
    forall a, b | BYTE_ORDER(a, b) && BYTE_ORDER(b, a) ensures a == b { LeqAntisym(a, b); }
    forall a, b, c | BYTE_ORDER(a, b) && BYTE_ORDER(b, c) ensures BYTE_ORDER(a, c) { LeqTrans(a, b, c); }
  }

  // ---------- Split and join ----------

  ghost predicate Free(s: Bytes, c: Byte) { forall i :: 0 <= i < |s| ==> s[i] != c }

  /** The pieces of `s` between occurrences of `sep`; always at least one. */
  function Split(s: Bytes, sep: Byte): (r: seq<Bytes>)
    ensures |r| > 0
  {
    if s == [] then [[]]
    else
      var r := Split(s[1..], sep);
      if s[0] == sep then [[]] + r else [[s[0]] + r[0]] + r[1..]
  }

  function Join(ps: seq<Bytes>, sep: Byte): Bytes
    requires |ps| > 0
  {
    if |ps| == 1 then ps[0] else ps[0] + [sep] + Join(ps[1..], sep)
  }

  lemma {:induction false} JoinSplit(s: Bytes, sep: Byte)
    ensures Join(Split(s, sep), sep) == s
  {
    if s != [] {
      JoinSplit(s[1..], sep);
      var r := Split(s[1..], sep);
      if s[0] == sep {
        assert ([[]] + r)[1..] == r;
      } else {
        assert ([[s[0]] + r[0]] + r[1..])[1..] == r[1..];
        assert s == [s[0]] + s[1..];
      }
    }
  }

  lemma {:induction false} SplitFree(s: Bytes, sep: Byte)
    requires Free(s, sep)
    ensures Split(s, sep) == [s]
  {
    if s != [] {
      SplitFree(s[1..], sep);
      assert s == [s[0]] + s[1..];
    }
  }

  lemma SplitCons(c: Byte, s: Bytes, sep: Byte)
    ensures Split([c] + s, sep)
         == if c == sep then [[]] + Split(s, sep) else [[c] + Split(s, sep)[0]] + Split(s, sep)[1..]
  {
    assert ([c] + s)[1..] == s;
  }

  lemma SplitNone(sep: Byte)
    ensures Split([], sep) == [[]]
  {
  }

  lemma SplitPrepend(c: Byte, s: Bytes, r: seq<Bytes>, q: seq<Bytes>, sep: Byte)
    requires Split(s, sep) == r + q && |r| > 0
    ensures Split([c] + s, sep) == (if c == sep then [[]] + r else [[c] + r[0]] + r[1..]) + q
  {
    hide Split;
    SplitCons(c, s, sep);
    assert (r + q)[0] == r[0] && (r + q)[1..] == r[1..] + q;
  }

  lemma {:induction false} SplitConcat(a: Bytes, sep: Byte, b: Bytes)
    ensures Split(a + [sep] + b, sep) == Split(a, sep) + Split(b, sep)
  {
    hide Split;
    if a == [] {
      assert a + [sep] + b == [sep] + b;
      SplitCons(sep, b, sep);
      SplitNone(sep);
    } else {
      var c, tl := a[0], a[1..];
      SplitConcat(tl, sep, b);
      assert a + [sep] + b == [c] + (tl + [sep] + b) && a == [c] + tl;
      SplitPrepend(c, tl + [sep] + b, Split(tl, sep), Split(b, sep), sep);
      SplitCons(c, tl, sep);
    }
  }

  /** Joining pieces free of the separator can be undone. */
  lemma {:induction false} SplitJoin(ps: seq<Bytes>, sep: Byte)
    requires |ps| > 0 && forall i :: 0 <= i < |ps| ==> Free(ps[i], sep)
    ensures Split(Join(ps, sep), sep) == ps
  {
    SplitFree(ps[0], sep);
    if |ps| > 1 {
      SplitJoin(ps[1..], sep);
      SplitConcat(ps[0], sep, Join(ps[1..], sep));
    }
  }

  lemma {:induction false} JoinSnoc(ps: seq<Bytes>, x: Bytes, sep: Byte)
    requires |ps| > 0
    ensures Join(ps + [x], sep) == Join(ps, sep) + [sep] + x
  {
    assert (ps + [x])[1..] == ps[1..] + [x];
    if |ps| == 1 {
      assert ps[1..] + [x] == [x];
    } else {
      JoinSnoc(ps[1..], x, sep);
    }
  }

  lemma {:induction false} FreePieces(s: Bytes, sep: Byte, c: Byte)
    requires Free(s, c)
    ensures forall i :: 0 <= i < |Split(s, sep)| ==> Free(Split(s, sep)[i], c)
  {
    if s != [] { FreePieces(s[1..], sep, c); }
  }

  lemma JoinInjective(a: seq<Bytes>, b: seq<Bytes>, sep: Byte)
    requires |a| > 0 && |b| > 0
    requires forall i :: 0 <= i < |a| ==> Free(a[i], sep)
    requires forall i :: 0 <= i < |b| ==> Free(b[i], sep)
    requires Join(a, sep) == Join(b, sep)
    ensures a == b
  {
    SplitJoin(a, sep);
    SplitJoin(b, sep);
  }

  lemma {:induction false} SplitApart(s: Bytes, sep: Byte)
    ensures forall i :: 0 <= i < |Split(s, sep)| ==> Free(Split(s, sep)[i], sep)
  {
    if s != [] { SplitApart(s[1..], sep); }
  }

  lemma {:induction false} JoinFree(ps: seq<Bytes>, sep: Byte, c: Byte)
    requires |ps| > 0 && c != sep && forall i :: 0 <= i < |ps| ==> Free(ps[i], c)
    ensures Free(Join(ps, sep), c)
  {
    if |ps| > 1 { JoinFree(ps[1..], sep, c); }
  }

  lemma SortedMembers(s: seq<Bytes>, x: Bytes)
    ensures x in Sort(BYTE_ORDER, s) <==> x in s
  {
    assert x in s <==> x in multiset(s);
    assert x in Sort(BYTE_ORDER, s) <==> x in multiset(Sort(BYTE_ORDER, s));
  }

  // ---------- Trimming ----------

  predicate IsSpace(c: Byte) {
    c == ' ' || c == '\t' || c == '\n' || c == '\r' || c == '\U{0B}' || c == '\U{0C}'
  }

  function TrimSpace(s: Bytes): Bytes {
    if s != [] && IsSpace(s[0]) then TrimSpace(s[1..])
    else if s != [] && IsSpace(s[|s| - 1]) then TrimSpace(s[..|s| - 1])
    else s
  }

  function TrimAll(vs: seq<Bytes>): (r: seq<Bytes>)
    ensures |r| == |vs| && forall i :: 0 <= i < |vs| ==> r[i] == TrimSpace(vs[i])
  {
    if vs == [] then [] else [TrimSpace(vs[0])] + TrimAll(vs[1..])
  }
}
