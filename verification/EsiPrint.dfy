/** Printing an include tag and compiling it back. */
module EsiPrint {
  import opened EsiBytes
  import opened EsiParse
  import opened EsiScan
  import opened EsiTags

  datatype Attr = Attr(name: string, value: string)

  ghost predicate CleanName(n: string) {
    n != "" && NoWs(n) && Lacks(n, '=') && Lacks(n, '"') && Lacks(n, '\'') && Lacks(n, '>')
  }

  ghost predicate CleanValue(v: string) { NoWs(v) && Lacks(v, '"') }

  ghost predicate Clean(attrs: seq<Attr>) {
    forall i :: 0 <= i < |attrs| ==> CleanName(attrs[i].name) && CleanValue(attrs[i].value)
  }

  function PrintAttr(a: Attr): (s: string)
    ensures |s| == 4 + |a.name| + |a.value|
  {
    " " + a.name + "=\"" + a.value + "\""
  }

  function PrintAttrs(attrs: seq<Attr>): string {
    if attrs == [] then "" else PrintAttr(attrs[0]) + PrintAttrs(attrs[1..])
  }

  /** Value of the first attribute called `name`, or empty. */
  function Lookup(attrs: seq<Attr>, name: string): string {
    if attrs == [] then "" else if attrs[0].name == name then attrs[0].value else Lookup(attrs[1..], name)
  }

  function Header(attrs: seq<Attr>): string { INCLUDE_OPEN + PrintAttrs(attrs) }

  // ---------- Attributes read back ----------

  /** The bytes of an attribute printed at offset `o` of `h`. */
  ghost predicate PrintedAt(h: string, o: nat, a: Attr) {
    var n, v := |a.name|, |a.value|;
    && o + n + v + 4 <= |h|
    && h[o] == ' ' && h[o + 1..o + 1 + n] == a.name && h[o + 1 + n] == '=' && h[o + 2 + n] == '"'
    && h[o + 3 + n..o + 3 + n + v] == a.value && h[o + 3 + n + v] == '"'
  }

  lemma PrintsAt(h: string, o: nat, a: Attr)
    requires o <= |h| && PrintAttr(a) <= h[o..]
    ensures PrintedAt(h, o, a)
  {
    var n, v, p := |a.name|, |a.value|, PrintAttr(a);
    assert p[0] == ' ' && p[1..1 + n] == a.name && p[1 + n] == '=' && p[2 + n] == '"'
      && p[3 + n..3 + n + v] == a.value && p[3 + n + v] == '"';
    forall i | 0 <= i < |p| ensures h[o + i] == p[i] { assert h[o..][i] == h[o + i]; }
    assert h[o + 1..o + 1 + n] == p[1..1 + n] && h[o + 3 + n..o + 3 + n + v] == p[3 + n..3 + n + v];
  }

  /** The first attribute of a printed list, and what follows it. */
  lemma PrintsFirst(h: string, o: nat, attrs: seq<Attr>)
    requires attrs != [] && o <= |h| && PrintAttrs(attrs) <= h[o..]
    ensures PrintedAt(h, o, attrs[0])
    ensures var o' := o + |PrintAttr(attrs[0])|;
      o' <= |h| && PrintAttrs(attrs[1..]) <= h[o'..] && |PrintAttrs(attrs)| == o' - o + |PrintAttrs(attrs[1..])|
  {
    var p, q, s := PrintAttr(attrs[0]), PrintAttrs(attrs[1..]), h[o..];
    hide PrintAttr;
    assert s[..|p + q|] == p + q;
    assert p == s[..|p|];
    assert s[|p|..|p| + |q|] == q;
    assert h[o + |p|..] == s[|p|..];
    PrintsAt(h, o, attrs[0]);
  }

  lemma PrintsNothing()
    ensures PrintAttrs([]) == ""
  {
  }

  lemma WrongHead(h: string, name: string, p: nat)
    requires name != "" && p < |h| && h[p] != name[0]
    ensures !At(h, name, p)
  {
    if p + |name| <= |h| { assert h[p..p + |name|][0] == h[p]; }
  }

  lemma NoSkip(h: string, q: nat)
    requires q < |h| && !IsWs(h[q])
    ensures SkipWs(h, q) == q
  {
  }

  lemma QuotedValue(h: string, q: nat, v: string)
    requires q + 2 + |v| < |h| && h[q + 1] == '"' && h[q + 2..q + 2 + |v|] == v && h[q + 2 + |v|] == '"' && Lacks(v, '"')
    ensures ValueAfter(h, q) == v
  {
    hide Index, BareEnd, SkipWs;
    NoSkip(h, q + 1);
    QuoteFound(h, q + 2, v);
  }

  lemma ValueReadBack(h: string, o: nat, a: Attr)
    requires PrintedAt(h, o, a) && CleanName(a.name) && CleanValue(a.value)
    ensures AttrAt(h, a.name, o + 1)
    ensures ValueAfter(h, SkipWs(h, o + 1 + |a.name|)) == a.value
  {
    hide SkipWs, ValueAfter, NoWs;
    var q := o + 1 + |a.name|;
    NoSkip(h, q);
    QuotedValue(h, q, a.value);
  }

  lemma QuoteFound(h: string, p: nat, v: string)
    requires p + |v| < |h| && h[p..p + |v|] == v && h[p + |v|] == '"' && Lacks(v, '"')
    ensures Index(h[p..], "\"") == |v|
  {
    hide Index;
    var t := h[p..];
    assert t[|v|..|v| + 1] == [h[p + |v|]];
    assert At(t, "\"", |v|);
    forall k | 0 <= k < |v| ensures !At(t, "\"", k) {
      assert t[k] == h[p..p + |v|][k] == v[k];
      assert t[k..k + 1] == [v[k]];
    }
  }

  /** An attribute printed under another name is not mistaken for `name`, and neither its name
      nor its value hides the start of an attribute. */
  lemma OtherAttrSkipped(h: string, o: nat, a: Attr, name: string, p: nat)
    requires PrintedAt(h, o, a) && CleanName(a.name) && CleanValue(a.value) && CleanName(name)
    requires a.name != name && o <= p < o + 4 + |a.name| + |a.value|
    ensures !AttrAt(h, name, p)
  {
    var n, v := |a.name|, |a.value|;
    if p == o {
      WrongHead(h, name, p);
    } else if p == o + 1 {
      if At(h, name, p) {
        NameDiffers(h, p, a.name, name);
        assert SkipWs(h, p + |name|) == p + |name|;
      }
    } else if p - 1 < o + 1 + n {
      assert h[p - 1] == h[o + 1..o + 1 + n][p - 2 - o];
    } else if o + 3 + n <= p - 1 < o + 3 + n + v {
      assert h[p - 1] == h[o + 3 + n..o + 3 + n + v][p - 4 - o - n];
    }
  }

  lemma NameDiffers(h: string, p: nat, actual: string, name: string)
    requires p + |actual| < |h| && h[p..p + |actual|] == actual && h[p + |actual|] == '='
    requires At(h, name, p) && name != actual && CleanName(actual) && CleanName(name)
    ensures |name| < |actual| && h[p + |name|] == actual[|name|]
  {
    assert forall i :: 0 <= i < |name| ==> name[i] == h[p + i];
    assert forall i :: 0 <= i < |actual| ==> actual[i] == h[p + i];
  }

  lemma {:induction false} AttrsReadBack(h: string, o: nat, attrs: seq<Attr>, name: string)
    requires Clean(attrs) && CleanName(name)
    requires o + |PrintAttrs(attrs)| == |h| && PrintAttrs(attrs) <= h[o..]
    ensures AttrFrom(h, name, o) == Lookup(attrs, name)
    decreases |attrs|
  {
    hide PrintAttr, PrintAttrs, AttrAt, ValueAfter, AttrFrom;
    if attrs == [] {
      PrintsNothing();
      AttrNone(h, name);
    } else {
      PrintsFirst(h, o, attrs);
      var a, o' := attrs[0], o + |PrintAttr(attrs[0])|;
      if a.name == name {
        ValueReadBack(h, o, a);
        FirstAttr(h, name, o);
      } else {
        forall p | o <= p < o' ensures !AttrAt(h, name, p) { OtherAttrSkipped(h, o, a, name, p); }
        NoAttrBetween(h, name, o, o');
        AttrsReadBack(h, o', attrs[1..], name);
      }
    }
  }

  lemma FirstAttr(h: string, name: string, o: nat)
    requires o + 1 < |h| && name != "" && h[o] != name[0] && AttrAt(h, name, o + 1)
    ensures AttrFrom(h, name, o) == ValueAfter(h, SkipWs(h, o + 1 + |name|))
  {
    WrongHead(h, name, o);
    AttrHere(h, name, o + 1);
  }

  lemma HeaderReadBack(attrs: seq<Attr>, name: string)
    requires Clean(attrs) && CleanName(name) && name[0] != '<'
    ensures AttrFrom(Header(attrs), name, 0) == Lookup(attrs, name)
  {
    var h := Header(attrs);
    forall p | 0 <= p < |INCLUDE_OPEN| ensures !AttrAt(h, name, p) {
      assert h[..|INCLUDE_OPEN|] == INCLUDE_OPEN;
      if p == 0 {
        WrongHead(h, name, 0);
      } else {
        assert !IsWs(INCLUDE_OPEN[p - 1]);
      }
    }
    NoAttrBetween(h, name, 0, |INCLUDE_OPEN|);
    assert h[|INCLUDE_OPEN|..] == PrintAttrs(attrs);
    AttrsReadBack(h, |INCLUDE_OPEN|, attrs, name);
  }

  // ---------- The end of the header ----------

  lemma {:induction false} PlainRun(s: string, i: nat, j: nat)
    requires i <= j <= |s|
    requires forall k :: i <= k < j ==> s[k] != '"' && s[k] != '\'' && s[k] != '>'
    ensures HeaderEnd(s, i, '\0') == HeaderEnd(s, j, '\0')
    decreases j - i
  {
    if i < j { PlainRun(s, i + 1, j); }
  }

  lemma {:induction false} QuotedRun(s: string, i: nat, j: nat)
    requires i <= j <= |s|
    requires forall k :: i <= k < j ==> s[k] != '"'
    ensures HeaderEnd(s, i, '"') == HeaderEnd(s, j, '"')
    decreases j - i
  {
    if i < j { QuotedRun(s, i + 1, j); }
  }

  lemma PastName(s: string, o: nat, name: string)
    requires CleanName(name) && o + 2 + |name| <= |s| && s[o] == ' ' && s[o + 1..o + 1 + |name|] == name && s[o + 1 + |name|] == '='
    ensures HeaderEnd(s, o, '\0') == HeaderEnd(s, o + 2 + |name|, '\0')
  {
    hide HeaderEnd;
    var n := |name|;
    forall k | o <= k < o + 2 + n ensures s[k] != '"' && s[k] != '\'' && s[k] != '>' {
      if o < k < o + 1 + n { assert s[k] == s[o + 1..o + 1 + n][k - o - 1]; }
    }
    PlainRun(s, o, o + 2 + n);
  }

  lemma PastValue(s: string, q: nat, v: string)
    requires Lacks(v, '"') && q + 2 + |v| <= |s| && s[q] == '"' && s[q + 1..q + 1 + |v|] == v && s[q + 1 + |v|] == '"'
    ensures HeaderEnd(s, q, '\0') == HeaderEnd(s, q + 2 + |v|, '\0')
  {
    hide HeaderEnd;
    QuoteTurns(s, q);
    forall k | q + 1 <= k < q + 1 + |v| ensures s[k] != '"' { assert s[k] == s[q + 1..q + 1 + |v|][k - q - 1]; }
    QuotedRun(s, q + 1, q + 1 + |v|);
    QuoteTurns(s, q + 1 + |v|);
  }

  lemma HeaderPastAttr(s: string, o: nat, a: Attr)
    requires PrintedAt(s, o, a) && CleanName(a.name) && CleanValue(a.value)
    ensures HeaderEnd(s, o, '\0') == HeaderEnd(s, o + 4 + |a.name| + |a.value|, '\0')
  {
    hide HeaderEnd, CleanName;
    PastName(s, o, a.name);
    PastValue(s, o + 2 + |a.name|, a.value);
  }

  lemma QuoteTurns(s: string, i: nat)
    requires i < |s| && s[i] == '"'
    ensures HeaderEnd(s, i, '\0') == HeaderEnd(s, i + 1, '"')
    ensures HeaderEnd(s, i, '"') == HeaderEnd(s, i + 1, '\0')
  {
  }

  lemma {:induction false} HeaderPastAttrs(s: string, o: nat, attrs: seq<Attr>)
    requires Clean(attrs) && o <= |s| && PrintAttrs(attrs) <= s[o..]
    ensures HeaderEnd(s, o, '\0') == HeaderEnd(s, o + |PrintAttrs(attrs)|, '\0')
    decreases |attrs|
  {
    hide PrintAttr, PrintAttrs, HeaderEnd, PrintedAt;
    if attrs == [] {
      PrintsNothing();
    } else {
      PrintsFirst(s, o, attrs);
      HeaderPastAttr(s, o, attrs[0]);
      HeaderPastAttrs(s, o + |PrintAttr(attrs[0])|, attrs[1..]);
    }
  }

  /** The header of a printed tag ends right where its attributes do. */
  lemma HeaderEndsAt(attrs: seq<Attr>, tail: string)
    requires Clean(attrs)
    ensures var s := Header(attrs) + tail; HeaderEnd(s, 1, '\0') == HeaderEnd(s, |Header(attrs)|, '\0')
  {
    hide PrintAttrs, HeaderEnd;
    var s := Header(attrs) + tail;
    assert s == INCLUDE_OPEN + PrintAttrs(attrs) + tail;
    forall k | 1 <= k < |INCLUDE_OPEN| ensures s[k] != '"' && s[k] != '\'' && s[k] != '>' {
      assert s[k] == INCLUDE_OPEN[k];
    }
    PlainRun(s, 1, |INCLUDE_OPEN|);
    assert s[|INCLUDE_OPEN|..] == PrintAttrs(attrs) + tail;
    HeaderPastAttrs(s, |INCLUDE_OPEN|, attrs);
  }

  // ---------- Whole tags ----------

  /** What the compiler should read from the printed attributes. */
  function Meaning(attrs: seq<Attr>): Attrs {
    Attrs(Lookup(attrs, "src"), Lookup(attrs, "alt"), Lookup(attrs, "onerror"),
          ParseDepth(Lookup(attrs, "max-depth")), Lookup(attrs, "timeout"))
  }

  lemma MeaningReadBack(attrs: seq<Attr>)
    requires Clean(attrs)
    ensures ReadAttrs(Header(attrs)) == Meaning(attrs)
  {
    hide AttrFrom, Lookup, ParseDepth;
    HeaderReadBack(attrs, "src");
    HeaderReadBack(attrs, "alt");
    HeaderReadBack(attrs, "onerror");
    HeaderReadBack(attrs, "max-depth");
    HeaderReadBack(attrs, "timeout");
  }

  function SelfClosing(attrs: seq<Attr>): string { Header(attrs) + "/>" }

  function Paired(attrs: seq<Attr>, inner: string): string { Header(attrs) + (">" + (inner + INCLUDE_CLOSE)) }

  lemma HeaderOpens(attrs: seq<Attr>, tail: string)
    requires tail != "" && (tail[0] == '/' || tail[0] == '>')
    ensures var s := Header(attrs) + tail;
      Opens(s, INCLUDE_OPEN, true) && Lex(s) == LexInclude(s)
  {
    hide LexInclude;
    var s := Header(attrs) + tail;
    assert s[..|INCLUDE_OPEN|] == INCLUDE_OPEN;
    assert s[1] == INCLUDE_OPEN[1];
    if attrs == [] {
      assert s[|INCLUDE_OPEN|] == tail[0];
    } else {
      assert s[|INCLUDE_OPEN|] == PrintAttrs(attrs)[0] == ' ';
    }
  }

  lemma EndsHere(s: string, i: nat)
    requires i < |s| && s[i] == '>'
    ensures HeaderEnd(s, i, '\0') == i + 1
  {
  }

  lemma SelfClosingReads(attrs: seq<Attr>, rest: string)
    requires Clean(attrs)
    ensures var tag := SelfClosing(attrs);
      Lex(tag + rest) == Inc(|tag|, Meaning(attrs), 0, 0)
  {
    hide ReadAttrs, Lex, Meaning, Header, Index, HeaderEnd, LexInclude, Clean;
    var h := Header(attrs);
    var s := SelfClosing(attrs) + rest;
    assert s == h + ("/>" + rest);
    HeaderOpens(attrs, "/>" + rest);
    HeaderEndsAt(attrs, "/>" + rest);
    PlainRun(s, |h|, |h| + 1);
    EndsHere(s, |h| + 1);
    assert s[..|h|] == h;
    MeaningReadBack(attrs);
    ClosedInclude(s, |h| + 2);
  }

  lemma ClosedInclude(s: string, e: nat)
    requires Opens(s, INCLUDE_OPEN, true) && HeaderEnd(s, 1, '\0') == e && 2 <= e <= |s| && s[e - 2] == '/'
    ensures LexInclude(s) == Inc(e, ReadAttrs(s[..e - 2]), 0, 0)
  {
    hide HeaderEnd, ReadAttrs;
  }

  lemma HeaderLast(attrs: seq<Attr>)
    ensures Header(attrs) != ""
    ensures Header(attrs)[|Header(attrs)| - 1] != '/'
  {
    if attrs != [] { PrintedLast(attrs); }
  }

  lemma PrintedLast(attrs: seq<Attr>)
    requires attrs != []
    ensures var p := PrintAttrs(attrs); p != "" && p[|p| - 1] == '"'
  {
    if |attrs| > 1 { PrintedLast(attrs[1..]); }
  }

  lemma PairedReads(attrs: seq<Attr>, inner: string, rest: string)
    requires Clean(attrs) && !Holds(inner, INCLUDE_CLOSE)
    ensures var tag, h := Paired(attrs, inner), Header(attrs);
      Lex(tag + rest) == Inc(|tag|, Meaning(attrs), |h| + 1, |h| + 1 + |inner|)
  {
    hide ReadAttrs, Lex, Meaning, Index, Header, HeaderEnd, Holds;
    var h := Header(attrs);
    var body := inner + (INCLUDE_CLOSE + rest);
    var s := Paired(attrs, inner) + rest;
    assert s == h + (">" + body);
    HeaderOpens(attrs, ">" + body);
    HeaderEndsAt(attrs, ">" + body);
    EndsHere(s, |h|);
    HeaderLast(attrs);
    assert s[|h| - 1] == h[|h| - 1];
    assert s[..|h|] == h && s[|h| + 1..] == body;
    MeaningReadBack(attrs);
    ClosesEndOnce(INCLUDE_CLOSE);
    CloseFound(inner, INCLUDE_CLOSE, rest);
  }

  /** A tag that reads as an include, after text without tags, is the first fragment. */
  lemma FirstInclude(before: string, tag: string, after: string, a: Attrs, i: nat, j: nat)
    requires Unmarked(before) && tag != "" && tag[0] == '<' && Lex(tag + after) == Inc(|tag|, a, i, j)
    ensures var end := |before| + |tag|;
      Frags(before + (tag + after)) == [Place(tag, a, i, j, |before|)] + ShiftedBy(Frags(after), end)
  {
    hide Lex, Frags, Rest, Place, RunsOff, Unmarked, ShiftedBy;
    var b, p := before + (tag + after), |before|;
    Around(before, tag, after);
    UnmarkedSkipped(before, tag + after, 0);
    StepInc(b, p, |tag|, a, i, j);
    Middle(before, tag, after);
    RestIs(b, p + |tag|, after);
    WholeRest(b);
  }

  lemma Middle(before: string, tag: string, after: string)
    ensures (before + (tag + after))[|before|..|before| + |tag|] == tag
  {
  }

  lemma HeaderFirst(attrs: seq<Attr>)
    ensures Header(attrs) != "" && Header(attrs)[0] == '<'
  {
  }

  /** A printed tag compiles to exactly its own range and values, wherever text puts it. */
  lemma SelfClosingRoundTrip(before: string, attrs: seq<Attr>, after: string)
    requires Clean(attrs) && Unmarked(before)
    ensures var tag := SelfClosing(attrs); var end := |before| + |tag|;
      Frags(before + (tag + after)) == [Fragment(|before|, end, Meaning(attrs), 0, 0)] + ShiftedBy(Frags(after), end)
  {
    hide Lex, Meaning, Header, Clean, Frags, Unmarked, ShiftedBy;
    HeaderFirst(attrs);
    SelfClosingReads(attrs, after);
    FirstInclude(before, SelfClosing(attrs), after, Meaning(attrs), 0, 0);
  }

  lemma PairedRoundTrip(before: string, attrs: seq<Attr>, inner: string, after: string)
    requires Clean(attrs) && Unmarked(before) && !Holds(inner, INCLUDE_CLOSE)
    ensures var tag := Paired(attrs, inner);
      var end, start := |before| + |tag|, |before| + |Header(attrs)| + 1;
      Frags(before + (tag + after))
        == [Fragment(|before|, end, Meaning(attrs), start, start + |inner|)] + ShiftedBy(Frags(after), end)
  {
    hide Lex, Meaning, Header, Clean, Frags, Unmarked, ShiftedBy, Holds;
    HeaderFirst(attrs);
    PairedReads(attrs, inner, after);
    var i := |Header(attrs)| + 1;
    FirstInclude(before, Paired(attrs, inner), after, Meaning(attrs), i, i + |inner|);
  }

  /** A tag that is neither closed by itself nor by a closing tag is its header alone. */
  lemma UnpairedRoundTrip(before: string, attrs: seq<Attr>, after: string)
    requires Clean(attrs) && Unmarked(before) && !Holds(after, INCLUDE_CLOSE)
    ensures var tag := Header(attrs) + ">"; var end := |before| + |tag|;
      Frags(before + (tag + after)) == [Fragment(|before|, end, Meaning(attrs), 0, 0)] + ShiftedBy(Frags(after), end)
  {
    hide Lex, Meaning, Header, Clean, Frags, Unmarked, ShiftedBy, Holds;
    HeaderFirst(attrs);
    UnpairedReads(attrs, after);
    FirstInclude(before, Header(attrs) + ">", after, Meaning(attrs), 0, 0);
  }

  lemma UnpairedReads(attrs: seq<Attr>, rest: string)
    requires Clean(attrs) && !Holds(rest, INCLUDE_CLOSE)
    ensures var tag := Header(attrs) + ">"; Lex(tag + rest) == Inc(|tag|, Meaning(attrs), 0, 0)
  {
    hide ReadAttrs, Lex, Meaning, Index, Header, HeaderEnd;
    var h := Header(attrs);
    var s := h + ">" + rest;
    assert s == h + (">" + rest);
    HeaderOpens(attrs, ">" + rest);
    HeaderEndsAt(attrs, ">" + rest);
    EndsHere(s, |h|);
    HeaderLast(attrs);
    assert s[|h| - 1] == h[|h| - 1];
    assert s[..|h|] == h && s[|h| + 1..] == rest;
    MeaningReadBack(attrs);
  }

  /** An include whose header does not end is text. */
  lemma UnendedIncludeIsText(before: string, t: string)
    requires Unmarked(before) && StillOpen(INCLUDE_OPEN + t, |INCLUDE_OPEN + t|)
    ensures Frags(before + (INCLUDE_OPEN + t)) == ShiftedBy(Frags(t), |before| + |INCLUDE_OPEN|)
  {
    hide Lex, Frags, Unmarked, ShiftedBy, LexComment, LexRemove, HeaderEnd, Index, StillOpen;
    var s := INCLUDE_OPEN + t;
    Opened(INCLUDE_OPEN, t);
    HeaderEndExactly(s, |s|);
    FirstText(before, INCLUDE_OPEN, t);
  }

  // ---------- Other ways to write an attribute ----------

  ghost predicate Blank(s: string) { forall i :: 0 <= i < |s| ==> IsWs(s[i]) }

  lemma {:induction false} BlankSkipped(h: string, i: nat, j: nat)
    requires i <= j < |h| && !IsWs(h[j]) && forall k :: i <= k < j ==> IsWs(h[k])
    ensures SkipWs(h, i) == j
    decreases j - i
  {
    if i < j { BlankSkipped(h, i + 1, j); }
  }

  lemma {:induction false} BareRun(h: string, i: nat, j: nat)
    requires i <= j <= |h| && (j == |h| || IsWs(h[j]) || h[j] == '>')
    requires forall k :: i <= k < j ==> !IsWs(h[k]) && h[k] != '>'
    requires i < j && h[j - 1] == '/' ==> j < |h| && h[j] != '>'
    ensures BareEnd(h, i) == j
    decreases j - i
  {
    if i < j { BareRun(h, i + 1, j); }
  }

  lemma QuoteCloses(t: string, v: string, q: char, post: string)
    requires t == v + ([q] + post) && Lacks(v, q)
    ensures Index(t, [q]) == |v|
  {
    hide Index;
    assert t[|v|..|v| + 1] == [q];
    assert At(t, [q], |v|);
    forall k | 0 <= k < |v| ensures !At(t, [q], k) { assert t[k..k + 1] == [v[k]]; }
  }

  /** A value written without quotes: up to a blank or the end, and not up to the slash of `/>`. */
  ghost predicate BareValue(v: string, post: string) {
    && v != "" && NoWs(v) && Lacks(v, '>') && v[0] != '"' && v[0] != '\''
    && (post == "" || IsWs(post[0]) || post[0] == '>') && (v[|v| - 1] == '/' ==> post != "" && post[0] != '>')
  }

  /** Past the blanks after an equal sign. */
  lemma PastBlanks(h: string, e: nat, b: string, rest: string)
    requires e < |h| && h[e + 1..] == b + rest && Blank(b) && rest != "" && !IsWs(rest[0])
    ensures var p := e + 1 + |b|; p < |h| && SkipWs(h, e + 1) == p && h[p..] == rest && h[p] == rest[0]
  {
    hide SkipWs;
    var p := e + 1 + |b|;
    forall k | e + 1 <= k < p ensures IsWs(h[k]) { assert h[e + 1..][k - e - 1] == b[k - e - 1]; }
    assert h[p..] == h[e + 1..][|b|..] == rest;
    assert h[p] == h[p..][0];
    BlankSkipped(h, e + 1, p);
  }

  lemma QuotedAfter(h: string, e: nat, b: string, q: char, v: string, post: string)
    requires e < |h| && h[e + 1..] == b + ([q] + (v + ([q] + post))) && Blank(b) && (q == '"' || q == '\'') && Lacks(v, q)
    ensures ValueAfter(h, e) == v
  {
    hide Index, BareEnd, SkipWs, Blank;
    var p, t := e + 1 + |b|, v + ([q] + post);
    PastBlanks(h, e, b, [q] + t);
    assert h[p + 1..] == h[p..][1..] == t;
    QuoteCloses(t, v, q, post);
    assert h[p + 1..p + 1 + |v|] == t[..|v|] == v;
  }

  lemma BareAfter(h: string, e: nat, b: string, v: string, post: string)
    requires e < |h| && h[e + 1..] == b + (v + post) && Blank(b) && BareValue(v, post)
    ensures ValueAfter(h, e) == v
  {
    hide Index, BareEnd, SkipWs, Blank;
    var p := e + 1 + |b|;
    PastBlanks(h, e, b, v + post);
    forall k | 0 <= k < |v| ensures h[p + k] == v[k] { assert h[p..][k] == v[k]; }
    assert post != "" ==> h[p + |v|] == h[p..][|v|] == post[0];
    BareRun(h, p, p + |v|);
    assert h[p..p + |v|] == v;
  }

  /** An attribute may have blanks around its equal sign and either quotes or none; the leftmost one counts. */
  lemma StyledAttribute(h: string, pre: string, name: string, b1: string, b2: string, text: string, v: string, post: string)
    requires h == pre + (name + (b1 + ("=" + (b2 + (text + post)))))
    requires name != "" && (pre == "" || IsWs(pre[|pre| - 1])) && (forall k :: 0 <= k < |pre| ==> !AttrAt(h, name, k))
    requires Blank(b1) && Blank(b2)
    requires (text == "\"" + (v + "\"") && Lacks(v, '"')) || (text == "'" + (v + "'") && Lacks(v, '\'')) || (text == v && BareValue(v, post))
    ensures AttrFrom(h, name, 0) == v
  {
    hide AttrFrom, ValueAfter, SkipWs, Blank, BareValue;
    var p := |pre|;
    var e := p + |name| + |b1|;
    assert h[p..p + |name|] == name;
    assert h[e] == '=' && h[e + 1..] == b2 + (text + post);
    assert p > 0 ==> h[p - 1] == pre[p - 1];
    BlankBefore(h, p + |name|, b1, e);
    assert AttrAt(h, name, p);
    NoAttrBetween(h, name, 0, p);
    AttrHere(h, name, p);
    if text == "\"" + (v + "\"") && Lacks(v, '"') {
      assert text + post == ['"'] + (v + (['"'] + post));
      QuotedAfter(h, e, b2, '"', v, post);
    } else if text == "'" + (v + "'") && Lacks(v, '\'') {
      assert text + post == ['\''] + (v + (['\''] + post));
      QuotedAfter(h, e, b2, '\'', v, post);
    } else {
      BareAfter(h, e, b2, v, post);
    }
  }

  lemma BlankBefore(h: string, i: nat, b: string, e: nat)
    requires e == i + |b| && e < |h| && h[i..e] == b && Blank(b) && !IsWs(h[e])
    ensures SkipWs(h, i) == e
  {
    hide SkipWs;
    forall k | i <= k < e ensures IsWs(h[k]) { assert h[k] == b[k - i]; }
    BlankSkipped(h, i, e);
  }

  // ---------- Numbers ----------

  function Digits(n: nat): (s: string)
    ensures s != ""
  {
    var d := ['0' + (n % 10) as char];
    if n < 10 then d else Digits(n / 10) + d
  }

  lemma {:induction false} DigitsReadBack(n: nat)
    ensures AllDigits(Digits(n)) && Decimal(Digits(n)) == n
  {
    if n >= 10 { DigitsReadBack(n / 10); }
    var s := Digits(n);
    assert s[..|s| - 1] == if n < 10 then "" else Digits(n / 10);
  }

  lemma TrimKeeps(s: string)
    requires s == "" || (!IsTrimmed(s[0]) && !IsTrimmed(s[|s| - 1]))
    ensures TrimSpace(s) == s
  {
  }

  ghost predicate Trims(s: string) { forall i :: 0 <= i < |s| ==> IsTrimmed(s[i]) }

  lemma {:induction false} TrimsAround(l: string, s: string, r: string)
    requires Trims(l) && Trims(r) && s != "" && !IsTrimmed(s[0]) && !IsTrimmed(s[|s| - 1])
    ensures TrimSpace(l + s + r) == s
    decreases |l| + |r|
  {
    var t := l + s + r;
    if l != "" {
      assert t[0] == l[0] && t[1..] == l[1..] + s + r;
      TrimsAround(l[1..], s, r);
    } else if r != "" {
      assert t[0] == s[0] && t[|t| - 1] == r[|r| - 1] && t[..|t| - 1] == l + s + r[..|r| - 1];
      TrimsAround(l, s, r[..|r| - 1]);
    } else {
      assert t == s;
    }
  }

  lemma {:induction false} TrimKeepsByte(s: string, i: nat)
    requires i < |s| && !IsTrimmed(s[i])
    ensures s[i] in TrimSpace(s)
    decreases |s|
  {
    if IsTrimmed(s[0]) {
      assert s[1..][i - 1] == s[i];
      TrimKeepsByte(s[1..], i - 1);
    } else if IsTrimmed(s[|s| - 1]) {
      assert s[..|s| - 1][i] == s[i];
      TrimKeepsByte(s[..|s| - 1], i);
    }
  }

  /** A max-depth is a decimal number below 2^32, with blanks around it ignored; any other byte makes it none. */
  lemma DepthExactly(l: string, n: nat, r: string, raw: string, i: nat)
    requires Trims(l) && Trims(r) && i < |raw| && !IsTrimmed(raw[i]) && !IsDigit(raw[i])
    ensures ParseDepth(l + Digits(n) + r) == if n < 0x1_0000_0000 then n else 0
    ensures ParseDepth(raw) == 0
  {
    hide TrimSpace, Digits, Decimal;
    DigitsReadBack(n);
    TrimsAround(l, Digits(n), r);
    TrimKeepsByte(raw, i);
  }

  /** Every attribute value comes back, the depth as a number. */
  lemma AttributesRoundTrip(a: Attrs, before: string, after: string)
    requires CleanValue(a.src) && CleanValue(a.alt) && CleanValue(a.onError) && CleanValue(a.timeout)
    requires a.maxDepth < 0x1_0000_0000 && Unmarked(before)
    ensures var tag := SelfClosing(PrintOrder(a)); var end := |before| + |tag|;
      Frags(before + (tag + after)) == [Fragment(|before|, end, a, 0, 0)] + ShiftedBy(Frags(after), end)
  {
    hide Meaning, SelfClosing, PrintOrder, Digits, ParseDepth, CleanValue, Clean, Frags, Unmarked, ShiftedBy;
    DepthReadBack(a.maxDepth);
    PrintOrderMeans(a);
    SelfClosingRoundTrip(before, PrintOrder(a), after);
  }

  lemma DepthReadBack(n: nat)
    requires n < 0x1_0000_0000
    ensures AllDigits(Digits(n)) && ParseDepth(Digits(n)) == n
  {
    DigitsReadBack(n);
    TrimKeeps(Digits(n));
  }

  function PrintOrder(a: Attrs): seq<Attr> {
    [Attr("src", a.src)] + ([Attr("alt", a.alt)] + ([Attr("onerror", a.onError)] +
      ([Attr("max-depth", Digits(a.maxDepth))] + [Attr("timeout", a.timeout)])))
  }

  lemma LookupCons(a: Attr, rest: seq<Attr>, name: string)
    ensures Lookup([a] + rest, name) == if a.name == name then a.value else Lookup(rest, name)
  {
    assert ([a] + rest)[1..] == rest;
  }

  /** Names told apart by their first letter. */
  lemma LookupPrinted(a: Attrs, name: string)
    requires name != ""
    ensures name == "src" ==> Lookup(PrintOrder(a), name) == a.src
    ensures name == "alt" ==> Lookup(PrintOrder(a), name) == a.alt
    ensures name == "onerror" ==> Lookup(PrintOrder(a), name) == a.onError
    ensures name == "max-depth" ==> Lookup(PrintOrder(a), name) == Digits(a.maxDepth)
    ensures name == "timeout" ==> Lookup(PrintOrder(a), name) == a.timeout
  {
    hide Lookup, Digits;
    var l4 := [Attr("timeout", a.timeout)];
    var l3 := [Attr("max-depth", Digits(a.maxDepth))] + l4;
    var l2 := [Attr("onerror", a.onError)] + l3;
    var l1 := [Attr("alt", a.alt)] + l2;
    LookupCons(Attr("src", a.src), l1, name);
    LookupCons(Attr("alt", a.alt), l2, name);
    LookupCons(Attr("onerror", a.onError), l3, name);
    LookupCons(Attr("max-depth", Digits(a.maxDepth)), l4, name);
    LookupCons(Attr("timeout", a.timeout), [], name);
    assert l4 == [Attr("timeout", a.timeout)] + [];
    assert "src"[0] == 's' && "alt"[0] == 'a' && "onerror"[0] == 'o' && "max-depth"[0] == 'm' && "timeout"[0] == 't';
  }

  lemma CleanCons(a: Attr, rest: seq<Attr>)
    requires CleanName(a.name) && CleanValue(a.value) && Clean(rest)
    ensures Clean([a] + rest)
  {
  }

  lemma NamesClean()
    ensures CleanName("src") && CleanName("alt") && CleanName("onerror") && CleanName("max-depth") && CleanName("timeout")
  {
  }

  lemma PrintOrderClean(a: Attrs)
    requires CleanValue(a.src) && CleanValue(a.alt) && CleanValue(a.onError) && CleanValue(a.timeout)
    requires AllDigits(Digits(a.maxDepth))
    ensures Clean(PrintOrder(a))
  {
    hide Digits, CleanName, Clean;
    NamesClean();
    var l4 := [Attr("timeout", a.timeout)];
    var l3 := [Attr("max-depth", Digits(a.maxDepth))] + l4;
    var l2 := [Attr("onerror", a.onError)] + l3;
    var l1 := [Attr("alt", a.alt)] + l2;
    assert Clean([]) by { CleanNone(); }
    CleanCons(Attr("timeout", a.timeout), []);
    assert l4 == [Attr("timeout", a.timeout)] + [];
    CleanCons(Attr("max-depth", Digits(a.maxDepth)), l4);
    CleanCons(Attr("onerror", a.onError), l3);
    CleanCons(Attr("alt", a.alt), l2);
    CleanCons(Attr("src", a.src), l1);
  }

  lemma CleanNone()
    ensures Clean([])
  {
  }

  lemma PrintOrderMeans(a: Attrs)
    requires CleanValue(a.src) && CleanValue(a.alt) && CleanValue(a.onError) && CleanValue(a.timeout)
    requires AllDigits(Digits(a.maxDepth)) && ParseDepth(Digits(a.maxDepth)) == a.maxDepth
    ensures Clean(PrintOrder(a)) && Meaning(PrintOrder(a)) == a
  {
    hide ParseDepth, Digits, Lookup;
    PrintOrderClean(a);
    hide PrintOrder, Clean;
    LookupPrinted(a, "src");
    LookupPrinted(a, "alt");
    LookupPrinted(a, "onerror");
    LookupPrinted(a, "max-depth");
    LookupPrinted(a, "timeout");
  }
}
