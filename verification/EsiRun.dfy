/** The executor as code: results filled in one by one, nested documents scanned and spliced, proved
    against the sequential resolution of `EsiExec`. */
module EsiRun {
  import opened EsiParse
  import opened EsiScan
  import opened EsiSplice
  import opened EsiExec
  import opened EsiConcurrent

  /** Whether two includes name the same URL, so that a flight group is needed. */
  method HasDuplicateUrls(fs: seq<Fragment>) returns (r: bool)
    ensures r <==> HasDuplicates(fs)
  {
    for i := 0 to |fs|
      invariant forall a, b :: 0 <= a < i && a < b < |fs| && fs[a].attrs.src != "" ==> fs[a].attrs.src != fs[b].attrs.src
    {
      if fs[i].attrs.src != "" {
        for j := i + 1 to |fs|
          invariant forall b :: i < b < j ==> fs[i].attrs.src != fs[b].attrs.src
        {
          if fs[i].attrs.src == fs[j].attrs.src { return true; }
        }
      }
    }
    return false;
  }

  lemma {:induction false} CookiesSnoc(rs: seq<Resolved>, r: Resolved)
    ensures CookiesOf(rs + [r]) == CookiesOf(rs) + r.cookies
  {
    if rs == [] {
      assert rs + [r] == [r] && [r][1..] == [];
    } else {
      assert (rs + [r])[1..] == rs[1..] + [r];
      CookiesSnoc(rs[1..], r);
    }
  }

  /** Cookies of all results, in document order. */
  method CollectCookies(results: seq<Resolved>) returns (cookies: seq<string>)
    ensures cookies == CookiesOf(results)
  {
    cookies := [];
    for i := 0 to |results|
      invariant cookies == CookiesOf(results[..i])
    {
      assert results[..i + 1] == results[..i] + [results[i]];
      CookiesSnoc(results[..i], results[i]);
      if |results[i].cookies| > 0 { cookies := cookies + results[i].cookies; }
    }
    assert results[..|results|] == results;
  }

  /** Fill the results slot by slot; the shortcut for a single fragment gives the same. */
  method ExecuteFragments(cfg: EsiExec.Config, o: Origin, parent: string, fs: seq<Fragment>, lv: Level, at: seq<nat>)
    returns (rs: seq<Resolved>, cookies: seq<string>)
    ensures rs == ResolveAll(cfg, o, parent, fs, 0, lv, at) && cookies == CookiesOf(rs)
    decreases Left(lv), 1, 0
  {
    hide Resolve;
    var results := new Resolved[|fs|](_ => Resolved("", [], []));
    ghost var want := ResolveAll(cfg, o, parent, fs, 0, lv, at);
    for i := 0 to |fs|
      invariant forall j :: 0 <= j < i ==> results[j] == want[j]
    {
      var r := ExecuteFragment(cfg, o, parent, fs[i], lv, at + [i]);
      results[i] := r;
    }
    rs := results[..];
    assert rs == want;
    cookies := CollectCookies(rs);
  }

  /** One fragment: limits, `src`, `alt`, fallback. */
  method ExecuteFragment(cfg: EsiExec.Config, o: Origin, parent: string, f: Fragment, lv: Level, at: seq<nat>)
    returns (res: Resolved)
    ensures res == Resolve(cfg, o, parent, f, lv, at)
    decreases Left(lv), 0, 0
  {
    hide Expand;
    var fallback := Fallback(cfg, parent, f);
    res := Resolved(fallback, [], []);
    if f.attrs.src == "" { return; }
    var limit := lv.maxDepth;
    if f.attrs.maxDepth > 0 && f.attrs.maxDepth < limit { limit := f.attrs.maxDepth; }
    if lv.depth >= limit { return; }
    if f.attrs.src in lv.visited { return; }
    var asked := [Asked(f, f.attrs.src, false, lv)];
    var got := o(at + [0], f.attrs.src);
    if got.Got? {
      var e := ExpandNested(cfg, o, got.body, got.cookies, Child(f, f.attrs.src, lv), at + [0]);
      return Settle(e, fallback, asked);
    }
    res := res.(log := asked);
    if f.attrs.alt != "" {
      asked := asked + [Asked(f, f.attrs.alt, true, lv)];
      got := o(at + [1], f.attrs.alt);
      if got.Got? {
        var e := ExpandNested(cfg, o, got.body, got.cookies, Child(f, f.attrs.alt, lv), at + [1]);
        return Settle(e, fallback, asked);
      }
      res := res.(log := asked);
    }
  }

  /** Scan a fetched body, resolve its fragments and splice them in. */
  method ExpandNested(cfg: EsiExec.Config, o: Origin, body: string, cookies: seq<string>, lv: Level, at: seq<nat>)
    returns (e: Expansion)
    ensures e == Expand(cfg, o, body, cookies, lv, at)
    decreases Left(lv), 2, 0
  {
    hide Frags, RunsOff, ResolveAll, Spliced;
    var scan := Scan(body);
    if scan.Panicked? { return Died; }
    var fs := scan.fragments;
    if fs == [] { return Expanded(body, cookies, []); }
    var rs, nested := ExecuteFragments(cfg, o, body, fs, lv, at);
    var out, reserved, skipped := SpliceFragments(body, fs, BodiesOf(rs));
    return Expanded(out, cookies + nested, LogOf(rs));
  }
}
