/** A changed Vary served across, on one-letter headers. */
module VaryInstance {
  import opened KeyBytes
  import opened StoreState
  import opened Freshness
  import opened Handler
  import opened CacheRuns
  import opened VaryChange
  import VariantKey
  import VariantBars

  const HOUR := Parsed(Some(Directives(-1, 3600, -1, -1, false, false, false, false, false, false)), None, 0, NoExpires, false, false, false)

  /** A cache that takes every response for fresh during one hour and stores bodies as they are. */
  const PLAIN := Config((h: Headers) => HOUR, (b: Bytes) => None, (b: Bytes) => 0, (h: Headers) => [], (h: Headers) => false,
                        (h: Headers) => h, (b: Bytes) => false, map[NO_CODEC := IDENTITY], NO_CODEC, false, false)

  const NAME_A: Bytes := "A"
  const NAME_B: Bytes := "B"
  const LOWER_A: Bytes := "a"
  const LOWER_B: Bytes := "b"
  const VARY_A: Headers := map[VARY := [NAME_A]]
  const VARY_AB: Headers := map[VARY := [NAME_A, NAME_B]]

  function Asking(pk: Key, fields: VariantKey.Fields): Request { Request(pk, fields, false, false, false, false) }

  function AllAt(t: Time, h: Headers): Env {
    Env(t, t, t, t, t, t, t, t, Reply(200, h, []), false, false, false, false, Proceed)
  }

  function OnlyA(a: Bytes): VariantKey.Fields { map[LOWER_A := [a]] }

  function Both(a: Bytes, b: Bytes): VariantKey.Fields { map[LOWER_A := [a], LOWER_B := [b]] }

  predicate Letter(a: Bytes) { |a| == 1 && 'A' <= a[0] <= 'Z' }

  lemma LetterCanonical(a: Bytes)
    requires Letter(a)
    ensures Canonical(a) == a
  {
    assert a == [a[0]] && a[1..] == [];
    assert Cased(a, true) == [a[0]] + Cased([], false);
    assert Token(a[0]);
  }

  /** A Vary field of one letter, or two fields of one letter each. */
  lemma LettersVaried(a: Bytes, b: Bytes)
    requires Letter(a) && Letter(b) && a != b
    ensures VaryNames(map[VARY := [a]]) == [a] && VaryNames(map[VARY := [a, b]]) == [a, b]
  {
    hide VariantKey.Tokens, CanonicalAll, Deduped;
    VariantBars.OneToken(a);
    VariantBars.OneToken(b);
    TwoTokens(a, b);
    LettersCanonical(a, b);
    LettersDeduped(a, b);
  }

  lemma LettersCanonical(a: Bytes, b: Bytes)
    requires Letter(a) && Letter(b)
    ensures CanonicalAll([a]) == [a] && CanonicalAll([a, b]) == [a, b]
  {
    hide Canonical, Letter;
    LetterCanonical(a);
    LetterCanonical(b);
    CanonicalFirst(b, []);
    CanonicalFirst(a, []);
    CanonicalFirst(a, [b]);
    assert [a] + [b] == [a, b] && [a] + [] == [a] && [b] + [] == [b];
  }

  lemma CanonicalFirst(a: Bytes, rest: seq<Bytes>)
    ensures CanonicalAll([a] + rest) == [Canonical(a)] + CanonicalAll(rest) && CanonicalAll([]) == []
  {
    hide Canonical;
    assert ([a] + rest)[1..] == rest;
  }

  lemma LettersDeduped(a: Bytes, b: Bytes)
    requires a != b
    ensures Deduped([a]) == [a] && Deduped([a, b]) == [a, b]
  {
    assert [a, b][..1] == [a] && [a][..0] == [];
    assert Deduped([]) == [];
    assert Deduped([a]) == [a];
  }

  lemma TwoTokens(a: Bytes, b: Bytes)
    requires VariantKey.Tokens([a]) == [a] && VariantKey.Tokens([b]) == [b]
    ensures VariantKey.Tokens([a, b]) == [a, b]
  {
    hide VariantKey.Tokens, TrimAll, Split, VariantKey.NonEmpty;
    VariantKey.TokensStep([a, b], 0);
    VariantKey.TokensStep([a], 0);
    VariantKey.TokensNone();
    assert [a, b][0..] == [a, b] && [a, b][1..] == [b] && [a][0..] == [a] && [a][1..] == [];
  }

  lemma LetterText(c: Bytes, f: VariantKey.Fields, v: Bytes)
    requires if c in f then f[c] == [v] && Letter(v) else v == []
    ensures VariantBars.Text(c, f) == v
  {
    hide VariantKey.Normal;
    if v == [] { VariantBars.OwnText(c, "-"); } else { VariantBars.OwnText(c, v); }
  }

  lemma LetterNames()
    ensures VariantKey.Canon(NAME_A) == LOWER_A && VariantKey.Canon(NAME_B) == LOWER_B && Leq(NAME_A, NAME_B)
    ensures LOWER_B in VariantKey.Names([NAME_A, NAME_B])
  {
    assert NAME_A[1..] == [] && NAME_B[1..] == [];
    assert VariantKey.Canon(NAME_A) == LOWER_A && VariantKey.Canon(NAME_B) == LOWER_B;
    hide VariantKey.Canon;
    VariantKey.NamesMembers([NAME_A, NAME_B]);
  }

  /** The keys of a request with these values. */
  lemma LetterKeys(f: VariantKey.Fields, a: Bytes, b: Bytes)
    requires VariantBars.Text(LOWER_A, f) == a && VariantBars.Text(LOWER_B, f) == b
    ensures VariantKey.Key([NAME_A], f) == LOWER_A + ['='] + a
    ensures VariantKey.Key([NAME_A, NAME_B], f) == LOWER_A + ['='] + a + ['|'] + (LOWER_B + ['='] + b)
  {
    hide VariantKey.Key, VariantKey.Normal, VariantKey.Canon, Leq;
    LetterNames();
    VariantBars.OneName(NAME_A, f);
    VariantBars.TwoNames(NAME_A, NAME_B, f);
  }

  lemma InstanceKeys()
    ensures var a, b := [NAME_A], [NAME_A, NAME_B];
      var k0, k1 := VariantKey.Key(a, OnlyA("X")), VariantKey.Key(a, Both("Y", "P"));
      && k0 != [] && k1 != [] && k0 != k1
      && VariantKey.Key(b, OnlyA("Z")) !in {[], k0, k1} && VariantKey.Key(a, Both("Y", "Q")) == k1
  {
    hide VariantKey.Normal, VariantKey.Key;
    var f0, f1, f2, f3 := OnlyA("X"), Both("Y", "P"), OnlyA("Z"), Both("Y", "Q");
    LetterText(LOWER_A, f0, "X");
    LetterText(LOWER_B, f0, []);
    LetterText(LOWER_A, f1, "Y");
    LetterText(LOWER_B, f1, "P");
    LetterText(LOWER_A, f2, "Z");
    LetterText(LOWER_B, f2, []);
    LetterText(LOWER_A, f3, "Y");
    LetterText(LOWER_B, f3, "Q");
    LetterKeys(f0, "X", []);
    LetterKeys(f1, "Y", "P");
    LetterKeys(f2, "Z", []);
    LetterKeys(f3, "Y", "Q");
    KeysApart();
  }

  lemma KeysApart()
    ensures var x, y: Bytes := LOWER_A + ['='] + "X", LOWER_A + ['='] + "Y";
      var z: Bytes := LOWER_A + ['='] + "Z" + ['|'] + (LOWER_B + ['='] + []);
      x != [] && y != [] && x != y && z !in {[], x, y}
  {
    var x, y: Bytes := LOWER_A + ['='] + "X", LOWER_A + ['='] + "Y";
    assert x[2] == 'X' && y[2] == 'Y';
    assert |LOWER_A + ['='] + "Z" + ['|'] + (LOWER_B + ['='] + [])| > 3;
  }

  lemma InstanceDiffers()
    ensures !VariantKey.Agree(VariantKey.Names([NAME_A, NAME_B]), Both("Y", "Q"), Both("Y", "P"))
  {
    hide VariantKey.Normal, VariantKey.Names;
    LetterNames();
    LetterText(LOWER_B, Both("Y", "P"), "P");
    LetterText(LOWER_B, Both("Y", "Q"), "Q");
    assert ['P'] != ['Q'];
  }

  lemma InstanceSmooth(t: Time)
    ensures Cacheable(PLAIN, VARY_A, t) && Cacheable(PLAIN, VARY_AB, t)
    ensures Smooth(AllAt(t, VARY_A), t, VARY_A) && Smooth(AllAt(t, VARY_AB), t, VARY_AB)
    ensures VaryNames(VARY_A) == [NAME_A] && VaryNames(VARY_AB) == [NAME_A, NAME_B]
  {
    hide VaryNames;
    LettersVaried(NAME_A, NAME_B);
  }

  /** The origin varies on A, once on A and B, then on A again: the response to `A: Y` with `B: P` answers `A: Y` with
      `B: Q`. */
  lemma ChangedVaryInstance(pk: Key, t: Time)
    ensures var w := Run(PLAIN, [Serving(Asking(pk, OnlyA("X")), AllAt(t, VARY_A)),
                                 Serving(Asking(pk, Both("Y", "P")), AllAt(t, VARY_AB)),
                                 Serving(Asking(pk, OnlyA("Z")), AllAt(t, VARY_A))]);
      var x := Serve(PLAIN, w, Asking(pk, Both("Y", "Q")), AllAt(t, VARY_A)).answer;
      && x.FromCache? && x.kind.HIT?
      && var saved := LastFull(w.log, pk, x.vk);
      && saved.Some? && saved.value.req.fields == Both("Y", "P") && saved.value.vary == [NAME_A, NAME_B]
  {
    hide Serve, Run, LastFull, VaryNames, VariantKey.Key, VariantKey.Names, VariantKey.Agree, Smooth, Cacheable, VARY_A, VARY_AB, PLAIN;
    var r0, r1, r2, r3 := Asking(pk, OnlyA("X")), Asking(pk, Both("Y", "P")), Asking(pk, OnlyA("Z")), Asking(pk, Both("Y", "Q"));
    InstanceSmooth(t);
    InstanceKeys();
    InstanceDiffers();
    ChangedVaryServesAcross(PLAIN, pk, VARY_A, VARY_AB, t, r0, AllAt(t, VARY_A), r1, AllAt(t, VARY_AB), r2, AllAt(t, VARY_A), r3, AllAt(t, VARY_A));
  }
}
