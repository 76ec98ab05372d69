/** What an include shows, told from the origin's answers. */
module EsiMeaning {
  import opened EsiBytes
  import opened EsiParse
  import opened EsiScan
  import opened EsiSplice
  import opened EsiFlight
  import opened EsiExec
  import EsiTags
  import EsiPrint

  // ---------- What a fetched body becomes ----------

  /** A fetch may be made: the depth is below the limit in force and the tag's own, and the URL is not on the way here. */
  ghost predicate MayFetch(f: Fragment, lv: Level) {
    && f.attrs.src != "" && lv.depth < lv.maxDepth && (f.attrs.maxDepth == 0 || lv.depth < f.attrs.maxDepth)
    && forall i :: 0 <= i < |lv.visited| ==> lv.visited[i] != f.attrs.src
  }

  lemma MayFetchExactly(f: Fragment, lv: Level)
    ensures MayFetch(f, lv) <==> f.attrs.src != "" && Allowed(f, lv)
  {
  }

  /** One level down, under the stricter of the two limits. */
  function Below(f: Fragment, url: string, lv: Level): Level {
    Level(lv.depth + 1, if f.attrs.maxDepth != 0 && f.attrs.maxDepth <= lv.maxDepth then f.attrs.maxDepth else lv.maxDepth,
          [url] + lv.visited, lv.limits + [f.attrs.maxDepth])
  }

  /** The result of a tag whose fetched body expanded to `e`, or whose scan died. */
  ghost predicate Shows(r: Resolved, e: Expansion, asked: seq<Fetch>) {
    e.Expanded? ==> r.body == e.body && r.cookies == e.cookies && r.log == asked + e.log
  }

  function AskedFor(url: string, alt: bool, f: Fragment, lv: Level): Fetch {
    Fetch(url, alt, lv.depth, lv.visited, lv.limits + [f.attrs.maxDepth])
  }

  /** An include that may be fetched shows what its source answers, expanded one level down; if the source fails, what
      the alternative answers. */
  lemma IncludeShows(cfg: Config, o: Origin, parent: string, f: Fragment, lv: Level, at: seq<nat>)
    requires MayFetch(f, lv)
    ensures var r := Resolve(cfg, o, parent, f, lv, at);
      var src, alt := o(at + [0], f.attrs.src), o(at + [1], f.attrs.alt);
      var first, second := AskedFor(f.attrs.src, false, f, lv), AskedFor(f.attrs.alt, true, f, lv);
      && (src.Got? ==> Shows(r, Expand(cfg, o, src.body, src.cookies, Below(f, f.attrs.src, lv), at + [0]), [first]))
      && (src.Failed? && f.attrs.alt != "" && alt.Got? ==>
            Shows(r, Expand(cfg, o, alt.body, alt.cookies, Below(f, f.attrs.alt, lv), at + [1]), [first, second]))
  {
    hide Expand, Fallback;
    MayFetchExactly(f, lv);
    assert [AskedFor(f.attrs.src, false, f, lv)] + [AskedFor(f.attrs.alt, true, f, lv)]
      == [AskedFor(f.attrs.src, false, f, lv), AskedFor(f.attrs.alt, true, f, lv)];
  }

  /** A body without tags stays as it is. */
  lemma PlainStays(cfg: Config, o: Origin, body: string, cookies: seq<string>, lv: Level, at: seq<nat>)
    requires EsiTags.Unmarked(body)
    ensures Expand(cfg, o, body, cookies, lv, at) == Expanded(body, cookies, [])
  {
    hide RunsOff, Parse;
    UnmarkedHasNoTags(body, 0);
    assert body[0..] == body;
  }

  /** An include whose source answers a body without tags shows exactly that body and hands on its cookies. */
  lemma PlainIncludeShown(cfg: Config, o: Origin, parent: string, f: Fragment, lv: Level, at: seq<nat>, body: string, cookies: seq<string>)
    requires MayFetch(f, lv) && EsiTags.Unmarked(body)
    requires var src := o(at + [0], f.attrs.src);
      src == Got(body, cookies) || (src == Failed && f.attrs.alt != "" && o(at + [1], f.attrs.alt) == Got(body, cookies))
    ensures var r := Resolve(cfg, o, parent, f, lv, at); r.body == body && r.cookies == cookies
  {
    hide Expand, Resolve, EsiTags.Unmarked, MayFetch;
    IncludeShows(cfg, o, parent, f, lv, at);
    PlainStays(cfg, o, body, cookies, Below(f, f.attrs.src, lv), at + [0]);
    PlainStays(cfg, o, body, cookies, Below(f, f.attrs.alt, lv), at + [1]);
  }

  // ---------- When nothing can be shown ----------

  /** `continue`, in letters of either case. */
  ghost predicate SaysContinue(s: string) {
    |s| == 8 && forall i :: 0 <= i < 8 ==> s[i] == "continue"[i] || s[i] == "CONTINUE"[i]
  }

  lemma ContinueExactly(s: string)
    ensures SaysContinue(s) <==> EqualFold(s, "continue")
  {
    var c, u := "continue", "CONTINUE";
    assert |c| == 8;
    assert forall i :: 0 <= i < 8 ==> 'a' <= c[i] <= 'z' && u[i] == c[i] - 'a' + 'A';
    forall i, x: char | 0 <= i < 8 ensures Lower(x) == Lower(c[i]) <==> x == c[i] || x == u[i] {}
  }

  /** The content a tag encloses. */
  ghost predicate Encloses(parent: string, f: Fragment, inner: string) {
    if f.innerStartPos == 0 || f.innerEndPos <= f.innerStartPos || f.innerEndPos > |parent| then inner == ""
    else inner == parent[f.innerStartPos..f.innerEndPos]
  }

  /** Nothing to fetch, nothing that may be fetched, or every fetch failed or brought a document that cannot be read. */
  ghost predicate NothingCame(o: Origin, f: Fragment, lv: Level, at: seq<nat>) {
    !MayFetch(f, lv) ||
    var src, alt := o(at + [0], f.attrs.src), o(at + [1], f.attrs.alt);
    if src.Got? then RunsOff(src.body)
    else f.attrs.alt == "" || alt.Failed? || RunsOff(alt.body)
  }

  /** Then the tag shows the content it encloses if there is any, nothing under `onerror=continue`, and otherwise the
      configured marker; it hands on no cookies. */
  lemma FallbackShown(cfg: Config, o: Origin, parent: string, f: Fragment, lv: Level, at: seq<nat>, inner: string)
    requires NothingCame(o, f, lv, at) && Encloses(parent, f, inner)
    ensures var r := Resolve(cfg, o, parent, f, lv, at);
      r.cookies == [] && r.body == if inner != "" then inner else if SaysContinue(f.attrs.onError) then "" else cfg.marker
  {
    hide RunsOff, EqualFold, SaysContinue, MayFetch, Expand, Allowed;
    MayFetchExactly(f, lv);
    ContinueExactly(f.attrs.onError);
    var src, alt := o(at + [0], f.attrs.src), o(at + [1], f.attrs.alt);
    if src.Got? { UnreadableDies(cfg, o, src.body, src.cookies, Child(f, f.attrs.src, lv), at + [0]); }
    if alt.Got? { UnreadableDies(cfg, o, alt.body, alt.cookies, Child(f, f.attrs.alt, lv), at + [1]); }
  }

  lemma UnreadableDies(cfg: Config, o: Origin, body: string, cookies: seq<string>, lv: Level, at: seq<nat>)
    ensures RunsOff(body) ==> Expand(cfg, o, body, cookies, lv, at) == Died
  {
    hide RunsOff, Frags, ResolveAll;
  }

  // ---------- Whole documents ----------

  function Flatten<T>(ss: seq<seq<T>>): seq<T> { if ss == [] then [] else ss[0] + Flatten(ss[1..]) }

  lemma {:induction false} CookiesFlatten(rs: seq<Resolved>, cs: seq<seq<string>>, ls: seq<seq<Fetch>>)
    requires |rs| == |cs| == |ls| && forall k :: 0 <= k < |rs| ==> cs[k] == rs[k].cookies && ls[k] == rs[k].log
    ensures CookiesOf(rs) == Flatten(cs) && LogOf(rs) == Flatten(ls)
  {
    if rs != [] { CookiesFlatten(rs[1..], cs[1..], ls[1..]); }
  }

  /** A document expands to its text with every tag replaced by what the tag shows; the cookies of the document come
      first, then those of the tags in document order, and so for the fetches. */
  lemma ExpandShows(cfg: Config, o: Origin, body: string, cookies: seq<string>, lv: Level, at: seq<nat>)
    requires !RunsOff(body)
    ensures var n := TagCount(Parse(body));
      && |Frags(body)| == n
      && var shown := seq(n, k requires 0 <= k < n => Resolve(cfg, o, body, Frags(body)[k], lv, at + [k]));
      Expand(cfg, o, body, cookies, lv, at) ==
        Expanded(Render(Parse(body), seq(n, k requires 0 <= k < n => shown[k].body)),
                 cookies + Flatten(seq(n, k requires 0 <= k < n => shown[k].cookies)),
                 Flatten(seq(n, k requires 0 <= k < n => shown[k].log)))
  {
    hide RunsOff, Parse, Resolve, Spliced, Layout, Render;
    var fs := Frags(body);
    var n := |fs|;
    LayoutCount(Parse(body), 0);
    var rs := ResolveAll(cfg, o, body, fs, 0, lv, at);
    hide ResolveAll;
    assert seq(n, k requires 0 <= k < n => Resolve(cfg, o, body, fs[k], lv, at + [k])) == rs;
    assert seq(n, k requires 0 <= k < n => rs[k].body) == BodiesOf(rs);
    var cs, ls := seq(n, k requires 0 <= k < n => rs[k].cookies), seq(n, k requires 0 <= k < n => rs[k].log);
    CookiesFlatten(rs, cs, ls);
    SpliceAgreesWithReading(body, BodiesOf(rs));
    if fs == [] { NothingSpliced(body, BodiesOf(rs)); }
  }

  lemma NothingSpliced(body: string, bodies: seq<string>)
    requires Frags(body) == [] && bodies == []
    ensures Spliced(body, Frags(body), bodies, 0) == body
  {
  }

  /** From end to end: a page with one include, below the depth limit, comes out with the source's body in the place of
      the tag. */
  lemma PageWithInclude(cfg: Config, o: Origin, before: string, src: string, after: string, lv: Level, at: seq<nat>,
                        body: string, cookies: seq<string>)
    requires EsiTags.Unmarked(before) && EsiTags.Unmarked(after) && EsiTags.Unmarked(body)
    requires src != "" && EsiPrint.CleanValue(src) && lv.depth < lv.maxDepth && src !in lv.visited
    requires o(at + [0] + [0], src) == Got(body, cookies)
    ensures var page := before + (EsiPrint.SelfClosing([EsiPrint.Attr("src", src)]) + after);
      Expand(cfg, o, page, [], lv, at) == Expanded(before + (body + after), cookies, [Fetch(src, false, lv.depth, lv.visited, lv.limits + [0])])
  {
    hide Expand, Resolve, RunsOff, Parse, Frags, Spliced, EsiTags.Unmarked, EsiPrint.SelfClosing, EsiPrint.CleanValue;
    var tag := EsiPrint.SelfClosing([EsiPrint.Attr("src", src)]);
    var page := before + (tag + after);
    var f := Fragment(|before|, |before| + |tag|, Attrs(src, "", "", 0, ""), 0, 0);
    PageIndex(before, src, after);
    IncludeShows(cfg, o, page, f, lv, at + [0]);
    PlainStays(cfg, o, body, cookies, Below(f, src, lv), at + [0] + [0]);
    OneResolved(cfg, o, page, f, lv, at);
    SplicedOnce(before, tag, after, f, body);
  }

  lemma SplicedOnce(before: string, tag: string, after: string, f: Fragment, body: string)
    requires f.startPos == |before| && f.endPos == |before| + |tag|
    ensures Spliced(before + (tag + after), [f], [body], 0) == before + (body + after)
  {
    var page := before + (tag + after);
    assert page[0..|before|] == before && page[|before| + |tag|..] == after;
    assert [f][1..] == [] && [body][1..] == [];
    assert Spliced(page, [], [], f.endPos) == after;
  }

  lemma OneResolved(cfg: Config, o: Origin, page: string, f: Fragment, lv: Level, at: seq<nat>)
    requires !RunsOff(page) && Frags(page) == [f]
    ensures var r := Resolve(cfg, o, page, f, lv, at + [0]);
      Expand(cfg, o, page, [], lv, at) == Expanded(Spliced(page, [f], [r.body], 0), r.cookies, r.log)
  {
    hide RunsOff, Frags, Spliced, Resolve;
    var rs := ResolveAll(cfg, o, page, [f], 0, lv, at);
    hide ResolveAll;
    var r := rs[0];
    assert rs == [r];
    assert BodiesOf(rs) == [r.body] && [r][1..] == [];
    assert CookiesOf(rs) == r.cookies && LogOf(rs) == r.log;
  }

  lemma PageIndex(before: string, src: string, after: string)
    requires EsiTags.Unmarked(before) && EsiTags.Unmarked(after) && EsiPrint.CleanValue(src)
    ensures var tag := EsiPrint.SelfClosing([EsiPrint.Attr("src", src)]);
      var page := before + (tag + after);
      Frags(page) == [Fragment(|before|, |before| + |tag|, Attrs(src, "", "", 0, ""), 0, 0)] && !RunsOff(page)
  {
    hide RunsOff, Parse, Frags, EsiTags.Unmarked, EsiPrint.Meaning, EsiPrint.Header, EsiPrint.Clean, EsiPrint.CleanValue, Lex, EsiTags.ShiftedBy;
    var attrs := [EsiPrint.Attr("src", src)];
    var tag := EsiPrint.SelfClosing(attrs);
    var page := before + (tag + after);
    SourceAlone(src);
    EsiPrint.SelfClosingRoundTrip(before, attrs, after);
    NoTags(after);
    EsiPrint.SelfClosingReads(attrs, after);
    EsiPrint.HeaderFirst(attrs);
    EsiTags.Around(before, tag, after);
    EsiTags.UnmarkedSkipped(before, tag + after, 0);
    StepInc(page, |before|, |tag|, EsiPrint.Meaning(attrs), 0, 0);
  }

  lemma NoTags(s: string)
    requires EsiTags.Unmarked(s)
    ensures !RunsOff(s) && forall d :: EsiTags.ShiftedBy(Frags(s), d) == []
  {
    hide RunsOff, Parse;
    assert s[0..] == s;
    UnmarkedHasNoTags(s, 0);
  }

  lemma SourceAlone(src: string)
    requires EsiPrint.CleanValue(src)
    ensures var attrs := [EsiPrint.Attr("src", src)]; EsiPrint.Clean(attrs) && EsiPrint.Meaning(attrs) == Attrs(src, "", "", 0, "")
  {
    hide EsiPrint.CleanValue;
    EsiPrint.NamesClean();
    hide EsiPrint.CleanName;
    hide EsiPrint.Lookup;
    LookedUp(src, "src");
    LookedUp(src, "alt");
    LookedUp(src, "onerror");
    LookedUp(src, "max-depth");
    LookedUp(src, "timeout");
    assert "alt"[0] == 'a' && "src"[0] == 's' && "onerror"[0] == 'o' && "max-depth"[0] == 'm' && "timeout"[0] == 't';
    assert TrimSpace("") == "" && ParseDepth("") == 0;
  }

  lemma LookedUp(src: string, name: string)
    ensures EsiPrint.Lookup([EsiPrint.Attr("src", src)], name) == if name == "src" then src else ""
  {
    EsiPrint.LookupCons(EsiPrint.Attr("src", src), [], name);
    assert [EsiPrint.Attr("src", src)] + [] == [EsiPrint.Attr("src", src)];
  }
}
