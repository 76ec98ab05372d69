/** Header names and lists of them: what is stored, and what a response varies on. */
module HeaderRules {
  import opened KeyBytes
  import opened StoreState
  import opened Handler
  import CacheAnswers
  import VariantKey

  // ---------- Canonical names ----------

  ghost predicate TokenByte(c: Byte) {
    || 'a' <= c <= 'z' || 'A' <= c <= 'Z' || '0' <= c <= '9'
    || c == '!' || c == '#' || c == '$' || c == '%' || c == '&' || c == '\'' || c == '*' || c == '+' || c == '-' || c == '.'
    || c == '^' || c == '_' || c == '`' || c == '|' || c == '~'
  }

  ghost predicate IsName(s: Bytes) { forall i :: 0 <= i < |s| ==> TokenByte(s[i]) }

  /** The i-th byte of a name as it is written: a capital at the start and after every hyphen, a small letter elsewhere. */
  function Written(s: Bytes, i: nat): Byte
    requires i < |s|
  {
    if i == 0 || s[i - 1] == '-' then (if 'a' <= s[i] <= 'z' then s[i] - 'a' + 'A' else s[i])
    else if 'A' <= s[i] <= 'Z' then s[i] - 'A' + 'a' else s[i]
  }

  /** `r` is how the name `s` is written; a text that is no name stays as it is. */
  ghost predicate Capitalised(r: Bytes, s: Bytes) {
    if IsName(s) then |r| == |s| && forall i :: 0 <= i < |s| ==> r[i] == Written(s, i) else r == s
  }

  lemma TokensExactly(c: Byte)
    ensures Token(c) <==> TokenByte(c)
  {
    var t := "!#$%&'*+-.^_`|~";
    assert t[0] == '!' && t[1] == '#' && t[2] == '$' && t[3] == '%' && t[4] == '&' && t[5] == '\'' && t[6] == '*' && t[7] == '+'
      && t[8] == '-' && t[9] == '.' && t[10] == '^' && t[11] == '_' && t[12] == '`' && t[13] == '|' && t[14] == '~';
  }

  lemma {:induction false} CasedBytes(s: Bytes, upper: bool)
    ensures |Cased(s, upper)| == |s|
    ensures forall i :: 0 <= i < |s| ==>
      Cased(s, upper)[i] == (if (i == 0 && upper) || (i > 0 && s[i - 1] == '-') then (if 'a' <= s[i] <= 'z' then s[i] - 'a' + 'A' else s[i])
                             else if 'A' <= s[i] <= 'Z' then s[i] - 'A' + 'a' else s[i])
  {
    if s != [] {
      var c: Byte := if upper && 'a' <= s[0] <= 'z' then s[0] - 'a' + 'A'
                     else if !upper && 'A' <= s[0] <= 'Z' then s[0] - 'A' + 'a' else s[0];
      CasedBytes(s[1..], c == '-');
      assert c == '-' <==> s[0] == '-';
    }
  }

  lemma CanonicalExactly(s: Bytes)
    ensures Capitalised(Canonical(s), s)
  {
    hide Token, TokenByte, Cased;
    forall i | 0 <= i < |s| ensures Token(s[i]) <==> TokenByte(s[i]) { TokensExactly(s[i]); }
    assert (forall i :: 0 <= i < |s| ==> Token(s[i])) <==> IsName(s);
    CasedBytes(s, true);
  }

  lemma CapitalisedOnce(a: Bytes, b: Bytes, s: Bytes)
    requires Capitalised(a, s) && Capitalised(b, s)
    ensures a == b
  {
    hide IsName, Written;
    if IsName(s) {
      forall i | 0 <= i < |a| ensures a[i] == b[i] { assert a[i] == Written(s, i); }
    }
  }

  // ---------- Lists of names ----------

  /** Between the commas of `v`, blanks around it left out, stands a name whose canonical form is `n`. */
  ghost predicate Mentions(v: Bytes, n: Bytes) {
    exists i :: 0 <= i < |Split(v, ',')| && TrimSpace(Split(v, ',')[i]) != [] && Capitalised(n, TrimSpace(Split(v, ',')[i]))
  }

  lemma {:induction false} CanonicalMembers(ps: seq<Bytes>, n: Bytes)
    ensures n in CanonicalAll(ps) <==> exists i :: 0 <= i < |ps| && Capitalised(n, ps[i])
  {
    hide Canonical, Capitalised;
    if ps != [] {
      CanonicalMembers(ps[1..], n);
      CanonicalExactly(ps[0]);
      if Capitalised(n, ps[0]) { CapitalisedOnce(n, Canonical(ps[0]), ps[0]); }
      if i :| 0 <= i < |ps[1..]| && Capitalised(n, ps[1..][i]) { assert Capitalised(n, ps[i + 1]); }
      if i :| 0 <= i < |ps| && Capitalised(n, ps[i]) { if i > 0 { assert Capitalised(n, ps[1..][i - 1]); } }
    }
  }

  lemma ListMembers(v: Bytes, n: Bytes)
    ensures n in CanonicalAll(VariantKey.NonEmpty(TrimAll(Split(v, ',')))) <==> Mentions(v, n)
  {
    hide Canonical, Capitalised, Split, TrimSpace, CanonicalAll, VariantKey.NonEmpty;
    var parts := Split(v, ',');
    var ts := TrimAll(parts);
    var ps := VariantKey.NonEmpty(ts);
    CanonicalMembers(ps, n);
    NonEmptyMembers(ts);
    if n in CanonicalAll(ps) {
      var i :| 0 <= i < |ps| && Capitalised(n, ps[i]);
      assert ps[i] in ps;
      var j :| 0 <= j < |ts| && ts[j] == ps[i];
      assert TrimSpace(parts[j]) != [] && Capitalised(n, TrimSpace(parts[j]));
    }
    if Mentions(v, n) {
      var i :| 0 <= i < |parts| && TrimSpace(parts[i]) != [] && Capitalised(n, TrimSpace(parts[i]));
      assert ts[i] in ts && ts[i] in ps;
      var j :| 0 <= j < |ps| && ps[j] == ts[i];
    }
  }

  lemma NonEmptyMembers(ts: seq<Bytes>)
    ensures forall x :: x in VariantKey.NonEmpty(ts) <==> x in ts && x != []
  {
  }

  // ---------- What is stored ----------

  /** The fields stored with a response: all but those of the connection, those it names, and cookies; unchanged. */
  ghost predicate StoredFrom(stored: Headers, h: Headers) {
    forall k ::
      && (k in stored <==>
            && k in h && !CacheAnswers.HopByHop(k) && k != "Set-Cookie"
            && !("Connection" in h && h["Connection"] != [] && Mentions(h["Connection"][0], k)))
      && (k in stored ==> stored[k] == h[k])
  }

  lemma StoredExactly(h: Headers)
    ensures StoredFrom(StoredHeaders(h), h)
  {
    hide Mentions, Split, CanonicalAll, VariantKey.NonEmpty, TrimAll;
    forall k ensures k in ConnectionTokens(h) <==> "Connection" in h && h["Connection"] != [] && Mentions(h["Connection"][0], k) {
      ListMembers(Get(h, CONNECTION), k);
      NothingMentioned(k);
    }
    hide ConnectionTokens;
  }

  lemma NothingMentioned(n: Bytes)
    ensures !Mentions([], n)
  {
    assert Split([], ',') == [[]] && TrimSpace([]) == [];
  }

  // ---------- What a response varies on ----------

  lemma {:induction false} TokenMembers(vs: seq<Bytes>, n: Bytes)
    ensures n in CanonicalAll(VariantKey.Tokens(vs)) <==> exists i :: 0 <= i < |vs| && Mentions(vs[i], n)
  {
    hide Mentions, Split, TrimAll, Canonical, VariantKey.NonEmpty;
    if vs != [] {
      TokenMembers(vs[1..], n);
      ListMembers(vs[0], n);
      var own := VariantKey.NonEmpty(TrimAll(Split(vs[0], ',')));
      CanonicalConcat(own, VariantKey.Tokens(vs[1..]));
      if i :| 0 <= i < |vs[1..]| && Mentions(vs[1..][i], n) { assert Mentions(vs[i + 1], n); }
      if i :| 0 <= i < |vs| && Mentions(vs[i], n) { if i > 0 { assert Mentions(vs[1..][i - 1], n); } }
    }
  }

  lemma {:induction false} CanonicalConcat(a: seq<Bytes>, b: seq<Bytes>)
    ensures CanonicalAll(a + b) == CanonicalAll(a) + CanonicalAll(b)
  {
    hide Canonical;
    if a == [] {
      assert a + b == b;
    } else {
      assert (a + b)[1..] == a[1..] + b && (a + b)[0] == a[0];
      CanonicalConcat(a[1..], b);
    }
  }

  lemma {:induction false} DedupedExactly(ps: seq<Bytes>)
    ensures forall x :: x in Deduped(ps) <==> x in ps
    ensures forall i, j :: 0 <= i < j < |Deduped(ps)| ==> Deduped(ps)[i] != Deduped(ps)[j]
    decreases |ps|
  {
    if ps != [] {
      DedupedExactly(ps[..|ps| - 1]);
      assert ps == ps[..|ps| - 1] + [ps[|ps| - 1]];
    }
  }

  /** A response varies on exactly the names its Vary fields mention, each once. */
  lemma VaryExactly(h: Headers)
    ensures forall n :: n in VaryNames(h) <==> "Vary" in h && exists i :: 0 <= i < |h["Vary"]| && Mentions(h["Vary"][i], n)
    ensures forall i, j :: 0 <= i < j < |VaryNames(h)| ==> VaryNames(h)[i] != VaryNames(h)[j]
  {
    hide Mentions, VariantKey.Tokens, CanonicalAll, Deduped;
    var vs := if VARY in h then h[VARY] else [];
    DedupedExactly(CanonicalAll(VariantKey.Tokens(vs)));
    forall n ensures n in CanonicalAll(VariantKey.Tokens(vs)) <==> exists i :: 0 <= i < |vs| && Mentions(vs[i], n) { TokenMembers(vs, n); }
  }
}
