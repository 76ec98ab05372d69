/** The ESI compiler: one pass over the bytes that records where each tag lies. */
module EsiScan {
  import opened EsiBytes
  import opened EsiParse

  /** A compiled tag: its byte range, attributes, and the byte range of its fallback content. */
  datatype Fragment = Fragment(startPos: nat, endPos: nat, attrs: Attrs, innerStartPos: nat, innerEndPos: nat)

  /** A scan either indexes the document or dies reading one byte past its end. */
  datatype ScanResult = Scanned(fragments: seq<Fragment>) | Panicked

  // ---------- Where the tags of a parsed document lie ----------

  function Place(raw: string, a: Attrs, i: nat, j: nat, off: nat): Fragment {
    if i > 0 then Fragment(off, off + |raw|, a, off + i, off + j)
    else Fragment(off, off + |raw|, a, 0, 0)
  }

  /** Offsets of the tags of a parsed text that starts at byte `off`. */
  function Layout(d: Doc, off: nat): seq<Fragment> {
    match d
    case End => []
    case Text(_, rest) => Layout(rest, off + 1)
    case Tag(raw, a, i, j, rest) => [Place(raw, a, i, j, off)] + Layout(rest, off + |raw|)
  }

  /** The index of a whole document. */
  function Frags(doc: string): seq<Fragment> { Layout(Parse(doc), 0) }

  lemma {:induction false} LayoutAppend(d: Doc, e: Doc, off: nat)
    ensures Layout(Append(d, e), off) == Layout(d, off) + Layout(e, off + |Raw(d)|)
  {
    match d
    case End =>
    case Text(_, rest) => LayoutAppend(rest, e, off + 1);
    case Tag(raw, a, i, j, rest) => LayoutAppend(rest, e, off + |raw|);
  }

  function Moved(f: Fragment, d: nat): Fragment {
    if f.innerStartPos > 0
    then Fragment(f.startPos + d, f.endPos + d, f.attrs, f.innerStartPos + d, f.innerEndPos + d)
    else Fragment(f.startPos + d, f.endPos + d, f.attrs, f.innerStartPos, f.innerEndPos)
  }

  /** Shifting the index of an inner block gives the index of the block in place. */
  lemma {:induction false} LayoutMoved(doc: Doc, off: nat, d: nat)
    ensures |Layout(doc, off + d)| == |Layout(doc, off)|
    ensures forall i :: 0 <= i < |Layout(doc, off)| ==> Layout(doc, off + d)[i] == Moved(Layout(doc, off)[i], d)
  {
    match doc
    case End =>
    case Text(_, rest) => LayoutMoved(rest, off + 1, d);
    case Tag(raw, a, i, j, rest) => LayoutMoved(rest, off + |raw|, d);
  }

  lemma LayoutCount(d: Doc, off: nat)
    ensures |Layout(d, off)| == TagCount(d)
  {
  }

  // ---------- One scanning step ----------

  /** Index of `b[p..]`, a suffix of the document, in document offsets. */
  function Rest(b: string, p: nat): seq<Fragment>
    requires p <= |b|
  {
    Layout(Parse(b[p..]), p)
  }

  lemma StepPlain(b: string, p: nat)
    requires p < |b| && Lex(b[p..]).Plain?
    ensures Rest(b, p) == Rest(b, p + 1)
    ensures RunsOff(b[p..]) <==> b[p..] in OPEN_NAMES || RunsOff(b[p + 1..])
  {
    hide Lex;
    assert b[p..][1..] == b[p + 1..];
  }

  lemma StepCut(b: string, p: nat, n: nat)
    requires p < |b| && Lex(b[p..]) == Cut(n)
    ensures p + n <= |b|
    ensures Rest(b, p) == [Fragment(p, p + n, NO_ATTRS, 0, 0)] + Rest(b, p + n)
    ensures RunsOff(b[p..]) <==> RunsOff(b[p + n..])
  {
    hide Lex;
    assert b[p..][n..] == b[p + n..];
  }

  lemma StepInc(b: string, p: nat, n: nat, a: Attrs, i: nat, j: nat)
    requires p < |b| && Lex(b[p..]) == Inc(n, a, i, j)
    ensures p + n <= |b|
    ensures Rest(b, p) == [Place(b[p..p + n], a, i, j, p)] + Rest(b, p + n)
    ensures RunsOff(b[p..]) <==> RunsOff(b[p + n..])
  {
    hide Lex;
    assert b[p..][n..] == b[p + n..];
  }

  lemma UnwrapLayout(open: string, content: string, close: string, rest: Doc, p: nat)
    requires |open| == 7 && |close| == 3
    ensures Layout(Strip(open, Append(Parse(content), Strip(close, rest))), p)
         == [Fragment(p, p + 7, NO_ATTRS, 0, 0)] + (Layout(Parse(content), p + 7)
            + ([Fragment(p + 7 + |content|, p + 10 + |content|, NO_ATTRS, 0, 0)] + Layout(rest, p + 10 + |content|)))
  {
    hide Parse;
    ParseLossless(content);
    LayoutAppend(Parse(content), Strip(close, rest), p + 7);
  }

  lemma StepUnwrap(b: string, p: nat, c: nat)
    requires p < |b| && Lex(b[p..]) == Unwrap(c)
    ensures p + c + 10 <= |b|
    ensures Rest(b, p) == [Fragment(p, p + 7, NO_ATTRS, 0, 0)] + (Layout(Parse(b[p + 7..p + 7 + c]), p + 7)
                          + ([Fragment(p + 7 + c, p + 10 + c, NO_ATTRS, 0, 0)] + Rest(b, p + 10 + c)))
    ensures RunsOff(b[p..]) <==> RunsOff(b[p + 7..p + 7 + c]) || RunsOff(b[p + 10 + c..])
  {
    hide Lex, Layout;
    var s := b[p..];
    assert s[7..7 + c] == b[p + 7..p + 7 + c];
    assert s[10 + c..] == b[p + 10 + c..];
    UnwrapLayout(s[..7], s[7..7 + c], s[7 + c..10 + c], Parse(s[10 + c..]), p);
  }

  // ---------- Tag headers ----------

  /** End of the tag header that starts at `tagStart`, and whether it closes itself. */
  method ScanTagHeaderEnd(b: string, tagStart: nat) returns (endOffset: int, selfClosing: bool)
    requires tagStart < |b|
    ensures var e := HeaderEnd(b[tagStart..], 1, '\0');
      endOffset == (if e == -1 then -1 else tagStart + e)
    ensures endOffset != -1 ==> tagStart + 2 <= endOffset <= |b| && (selfClosing <==> b[endOffset - 2] == '/')
  {
    ghost var s := b[tagStart..];
    var i := tagStart + 1;
    var inQuote := '\0';
    while i < |b|
      invariant tagStart < i <= |b|
      invariant HeaderEnd(s, 1, '\0') == HeaderEnd(s, i - tagStart, inQuote)
    {
      var c := b[i];
      assert c == s[i - tagStart];
      if inQuote != '\0' {
        if c == inQuote { inQuote := '\0'; }
        i := i + 1;
        continue;
      }
      if c == '"' || c == '\'' {
        inQuote := c;
        i := i + 1;
        continue;
      }
      if c == '>' {
        return i + 1, i > 0 && b[i - 1] == '/';
      }
      i := i + 1;
    }
    return -1, false;
  }

  lemma {:induction false} NoAttrBetween(h: string, name: string, i: nat, j: nat)
    requires i <= j <= |h|
    requires forall p :: i <= p < j ==> !AttrAt(h, name, p)
    ensures AttrFrom(h, name, i) == AttrFrom(h, name, j)
    decreases j - i
  {
    if i < j {
      NoAttrBetween(h, name, i + 1, j);
    }
  }

  /** Past an occurrence of `name` that is no attribute nothing is missed: an attribute cannot
      start inside the occurrence, because `name` holds no whitespace. */
  lemma SkipOccurrence(h: string, name: string, i: nat, p: nat)
    requires NoWs(name) && name != ""
    requires i <= p && At(h, name, p) && !AttrAt(h, name, p)
    requires forall k :: i <= k < p ==> !At(h, name, k)
    ensures AttrFrom(h, name, i) == AttrFrom(h, name, p + |name|)
  {
    forall k | i <= k < p + |name| ensures !AttrAt(h, name, k) {
      if k > p {
        assert h[p..p + |name|][k - 1 - p] == h[k - 1];
      }
    }
    NoAttrBetween(h, name, i, p + |name|);
  }

  /** The first occurrence of `name` at or after `idx`, or -1. */
  method IndexFrom(h: string, name: string, idx: nat) returns (p: int)
    requires idx <= |h|
    ensures p == -1 ==> forall k :: idx <= k ==> !At(h, name, k)
    ensures p != -1 ==> idx <= p && At(h, name, p) && forall k :: idx <= k < p ==> !At(h, name, k)
  {
    var r := Index(h[idx..], name);
    forall k | idx <= k ensures At(h, name, k) <==> At(h[idx..], name, k - idx) { AtDrop(h, name, idx, k); }
    return if r == -1 then -1 else idx + r;
  }

  lemma AttrHere(h: string, name: string, p: nat)
    requires p < |h| && AttrAt(h, name, p)
    ensures AttrFrom(h, name, p) == ValueAfter(h, SkipWs(h, p + |name|))
  {
  }

  lemma AttrNone(h: string, name: string)
    ensures AttrFrom(h, name, |h|) == ""
  {
  }

  /** Value of the attribute `name` in a tag header: the leftmost one on a word boundary. */
  method ExtractAttribute(h: string, name: string) returns (value: string)
    requires name != "" && NoWs(name)
    ensures value == AttrFrom(h, name, 0)
  {
    hide AttrFrom, ValueAfter;
    var idx := 0;
    while idx < |h|
      invariant 0 <= idx <= |h|
      invariant AttrFrom(h, name, 0) == AttrFrom(h, name, idx)
    {
      var attrStart := IndexFrom(h, name, idx);
      if attrStart == -1 {
        NoAttrBetween(h, name, idx, |h|);
        AttrNone(h, name);
        return "";
      }
      var validBefore := attrStart == 0 || IsWs(h[attrStart - 1]);
      var afterIdx := attrStart + |name|;
      if !validBefore || afterIdx >= |h| {
        SkipOccurrence(h, name, idx, attrStart);
        idx := afterIdx;
        continue;
      }
      var curr := SkipBlanks(h, afterIdx);
      if curr >= |h| || h[curr] != '=' {
        SkipOccurrence(h, name, idx, attrStart);
        idx := afterIdx;
        continue;
      }
      NoAttrBetween(h, name, idx, attrStart);
      AttrHere(h, name, attrStart);
      value := ReadValue(h, curr);
      return;
    }
    AttrNone(h, name);
    return "";
  }

  method SkipBlanks(h: string, start: nat) returns (curr: nat)
    requires start <= |h|
    ensures curr == SkipWs(h, start)
  {
    curr := start;
    while curr < |h| && IsWs(h[curr])
      invariant start <= curr <= |h|
      invariant SkipWs(h, start) == SkipWs(h, curr)
    {
      curr := curr + 1;
    }
  }

  /** The value after the `=` at `eq`: quoted by either quote, or bare. */
  method ReadValue(h: string, eq: nat) returns (value: string)
    requires eq < |h|
    ensures value == ValueAfter(h, eq)
  {
    var curr := SkipBlanks(h, eq + 1);
    if curr >= |h| {
      return "";
    }
    var quote := h[curr];
    if quote == '"' || quote == '\'' {
      var valEndRel := Index(h[curr + 1..], [quote]);
      if valEndRel == -1 {
        return h[curr + 1..];
      }
      return h[curr + 1..curr + 1 + valEndRel];
    }
    var valStart := curr;
    while curr < |h| && !IsWs(h[curr]) && h[curr] != '>'
      invariant valStart <= curr <= |h|
      invariant BareEnd(h, valStart) == BareEnd(h, curr)
    {
      if h[curr] == '/' && (curr + 1 >= |h| || h[curr + 1] == '>') {
        break;
      }
      curr := curr + 1;
    }
    return h[valStart..curr];
  }

  method ReadAttributes(h: string) returns (a: Attrs)
    ensures a == ReadAttrs(h)
  {
    var src := ExtractAttribute(h, "src");
    var alt := ExtractAttribute(h, "alt");
    var timeout := ExtractAttribute(h, "timeout");
    var maxDepthRaw := ExtractAttribute(h, "max-depth");
    var onError := ExtractAttribute(h, "onerror");
    a := Attrs(src, alt, onError, ParseDepth(maxDepthRaw), timeout);
  }

  // ---------- The scanning loop ----------

  /** The include tag at `tagStart`: self-closing, paired with its closing tag, or unclosed. */
  method ParseInclude(b: string, tagStart: nat) returns (t: Token)
    requires tagStart < |b| && Opens(b[tagStart..], INCLUDE_OPEN, true)
    ensures t == LexInclude(b[tagStart..])
  {
    hide HeaderEnd, ReadAttrs, Index;
    var tagEndOffset, selfClosing := ScanTagHeaderEnd(b, tagStart);
    if tagEndOffset == -1 {
      return Plain;
    }
    ghost var s := b[tagStart..];
    ghost var e := tagEndOffset - tagStart;
    assert s[e - 2] == b[tagEndOffset - 2];
    assert s[..e - 2] == b[tagStart..tagEndOffset - 2];
    assert s[..e - 1] == b[tagStart..tagEndOffset - 1];
    assert s[e..] == b[tagEndOffset..];
    var header := if selfClosing then b[tagStart..tagEndOffset - 2] else b[tagStart..tagEndOffset - 1];
    var attrs := ReadAttributes(header);
    if selfClosing {
      return Inc(tagEndOffset - tagStart, attrs, 0, 0);
    }
    var closeIdx := Index(b[tagEndOffset..], INCLUDE_CLOSE);
    if closeIdx != -1 {
      var bodyEnd := tagEndOffset + closeIdx;
      return Inc(bodyEnd + |INCLUDE_CLOSE| - tagStart, attrs, tagEndOffset - tagStart, bodyEnd - tagStart);
    }
    return Inc(tagEndOffset - tagStart, attrs, 0, 0);
  }

  /** The comment tag at `tagStart`: self-closing, or paired with its closing tag. */
  method ParseComment(b: string, tagStart: nat) returns (t: Token)
    requires tagStart < |b|
    ensures t == LexComment(b[tagStart..])
  {
    var endOffset, selfClosing := ScanTagHeaderEnd(b, tagStart);
    if endOffset == -1 {
      return Plain;
    }
    ghost var s := b[tagStart..];
    assert s[endOffset - tagStart - 2] == b[endOffset - 2];
    assert s[endOffset - tagStart..] == b[endOffset..];
    if selfClosing {
      return Cut(endOffset - tagStart);
    }
    var closeIdx := Index(b[endOffset..], COMMENT_CLOSE);
    if closeIdx != -1 {
      return Cut(endOffset + closeIdx + |COMMENT_CLOSE| - tagStart);
    }
    return Plain;
  }

  /** `b` has tag name `name` at `p`. */
  predicate NameAt(b: string, p: nat, name: string) {
    p + |name| <= |b| && b[p..p + |name|] == name
  }

  lemma NameAtSuffix(b: string, p: nat, name: string)
    requires p <= |b|
    ensures NameAt(b, p, name) <==> name <= b[p..]
    ensures NameAt(b, p, name) && p + |name| == |b| <==> b[p..] == name
    ensures NameAt(b, p, name) && p + |name| < |b| ==> b[p + |name|] == b[p..][|name|]
  {
    if p + |name| <= |b| {
      assert b[p..p + |name|] == b[p..][..|name|];
    }
  }

  /** What stands at the `<` at `tagStart`; `panicked` when the byte after an open-tag name is
      read although the buffer ends there. */
  method ReadTag(b: string, tagStart: nat) returns (t: Token, panicked: bool)
    requires tagStart < |b|
    ensures panicked <==> b[tagStart..] in OPEN_NAMES
    ensures !panicked ==> t == Lex(b[tagStart..])
  {
    hide LexInclude, LexComment, LexRemove, LexInline;
    NameAtSuffix(b, tagStart, INLINE_OPEN);
    NameAtSuffix(b, tagStart, INCLUDE_OPEN);
    NameAtSuffix(b, tagStart, REMOVE_OPEN);
    NameAtSuffix(b, tagStart, COMMENT_OPEN);
    if NameAt(b, tagStart, INLINE_OPEN) {
      assert b[tagStart..][1] == INLINE_OPEN[1];
      t := ReadInline(b, tagStart);
      return t, false;
    }
    if NameAt(b, tagStart, INCLUDE_OPEN) {
      if tagStart + |INCLUDE_OPEN| >= |b| { return Plain, true; }
      if EndsName(b[tagStart + |INCLUDE_OPEN|], true) {
        t := ParseInclude(b, tagStart);
        return t, false;
      }
    }
    if NameAt(b, tagStart, REMOVE_OPEN) {
      if tagStart + |REMOVE_OPEN| >= |b| { return Plain, true; }
      if EndsName(b[tagStart + |REMOVE_OPEN|], false) {
        t := ReadRemove(b, tagStart);
        return t, false;
      }
    }
    if NameAt(b, tagStart, COMMENT_OPEN) {
      if tagStart + |COMMENT_OPEN| >= |b| { return Plain, true; }
      if EndsName(b[tagStart + |COMMENT_OPEN|], true) {
        t := ParseComment(b, tagStart);
        return t, false;
      }
    }
    return Plain, false;
  }

  method ReadInline(b: string, tagStart: nat) returns (t: Token)
    requires tagStart < |b| && INLINE_OPEN <= b[tagStart..]
    ensures t == LexInline(b[tagStart..])
  {
    var contentStart := tagStart + |INLINE_OPEN|;
    assert b[tagStart..][7..] == b[contentStart..];
    var closeIdx := Index(b[contentStart..], INLINE_CLOSE);
    return if closeIdx == -1 then Cut(|INLINE_OPEN|) else Unwrap(closeIdx);
  }

  method ReadRemove(b: string, tagStart: nat) returns (t: Token)
    requires tagStart < |b|
    ensures t == LexRemove(b[tagStart..])
  {
    var closeIdx := Index(b[tagStart..], REMOVE_CLOSE);
    return if closeIdx == -1 then Plain else Cut(closeIdx + |REMOVE_CLOSE|);
  }

  /** Bytes before the next `<` hold no tag. */
  lemma {:induction false} SkipText(b: string, p: nat, q: nat)
    requires p <= q <= |b|
    requires forall k :: p <= k < q ==> b[k] != '<'
    ensures Rest(b, p) == Rest(b, q)
    ensures RunsOff(b[p..]) <==> RunsOff(b[q..])
    decreases q - p
  {
    hide Lex;
    if p < q {
      assert b[p..][0] == b[p];
      StepPlain(b, p);
      NotAnOpenName(b[p..]);
      SkipText(b, p + 1, q);
    }
  }

  lemma NotAnOpenName(s: string)
    requires s != "" && s[0] != '<'
    ensures s !in OPEN_NAMES
  {
  }

  lemma UnmarkedIsPlain(s: string)
    requires s != "" && !("<esi:" <= s) && !(INLINE_OPEN <= s)
    ensures Lex(s).Plain? && s !in OPEN_NAMES
  {
    assert "<esi:" == INCLUDE_OPEN[..5] == REMOVE_OPEN[..5] == COMMENT_OPEN[..5];
    assert forall name: string :: 5 <= |name| && name <= s ==> name[..5] <= s;
  }

  /** The substring pre-check hides nothing: without `<esi:` or `<!--esi` there is no tag. */
  lemma {:induction false} UnmarkedHasNoTags(b: string, p: nat)
    requires p <= |b|
    requires forall k :: !At(b, "<esi:", k) && !At(b, INLINE_OPEN, k)
    ensures Rest(b, p) == [] && !RunsOff(b[p..])
    decreases |b| - p
  {
    hide Lex;
    if p < |b| {
      AtDrop(b, "<esi:", p, p);
      AtDrop(b, INLINE_OPEN, p, p);
      assert !At(b[p..], "<esi:", 0) && !At(b[p..], INLINE_OPEN, 0);
      UnmarkedIsPlain(b[p..]);
      StepPlain(b, p);
      UnmarkedHasNoTags(b, p + 1);
    }
  }

  /** Shift the index of an inner block to where the block lies. */
  method Shift(inner: seq<Fragment>, d: nat) returns (moved: seq<Fragment>)
    ensures |moved| == |inner| && forall i :: 0 <= i < |inner| ==> moved[i] == Moved(inner[i], d)
  {
    moved := [];
    for i := 0 to |inner|
      invariant |moved| == i && forall k :: 0 <= k < i ==> moved[k] == Moved(inner[k], d)
    {
      var f := inner[i];
      f := f.(startPos := f.startPos + d, endPos := f.endPos + d);
      if f.innerStartPos > 0 {
        f := f.(innerStartPos := f.innerStartPos + d, innerEndPos := f.innerEndPos + d);
      }
      moved := moved + [f];
    }
  }

  /** What one token at `p` contributes: the index of `b` from `p` on is `out` followed by the
      index from `next` on. */
  ghost predicate Contributes(b: string, p: nat, out: seq<Fragment>, next: nat) {
    p < next <= |b| && Rest(b, p) == out + Rest(b, next)
  }

  /** Compile a document: the byte ranges of its tags, in order, tags inside `<!--esi ... -->`
      included, shifted to document offsets. */
  method Scan(b: string) returns (r: ScanResult)
    ensures r.Panicked? <==> RunsOff(b)
    ensures r.Scanned? ==> r.fragments == Frags(b)
    decreases |b|, 1
  {
    hide Lex, Layout, RunsOff, Parse;
    assert b[0..] == b;
    if Index(b, "<esi:") == -1 && Index(b, INLINE_OPEN) == -1 {
      UnmarkedHasNoTags(b, 0);
      return Scanned([]);
    }
    var fragments: seq<Fragment> := [];
    var pos := 0;
    while pos < |b|
      invariant 0 <= pos <= |b|
      invariant RunsOff(b) <==> RunsOff(b[pos..])
      invariant Frags(b) == fragments + Rest(b, pos)
    {
      var nextIdx := Index(b[pos..], "<");
      if nextIdx == -1 {
        NoneFrom(b, pos);
        break;
      }
      var tagStart := pos + nextIdx;
      TextBefore(b, pos, nextIdx);
      SkipText(b, pos, tagStart);
      var t, panicked := ReadTag(b, tagStart);
      if panicked {
        OpenNameRunsOff(b[tagStart..]);
        return Panicked;
      }
      var out, next, dead := Consume(b, tagStart, t);
      if dead {
        return Panicked;
      }
      assert fragments + (out + Rest(b, next)) == fragments + out + Rest(b, next);
      fragments := fragments + out;
      pos := next;
    }
    NothingLeft(b);
    if pos < |b| {
      SkipText(b, pos, |b|);
    }
    return Scanned(fragments);
  }

  /** Fragments of the token at `tagStart` and where scanning resumes. */
  method Consume(b: string, tagStart: nat, t: Token) returns (out: seq<Fragment>, next: nat, dead: bool)
    requires tagStart < |b| && t == Lex(b[tagStart..]) && b[tagStart..] !in OPEN_NAMES
    ensures dead ==> RunsOff(b[tagStart..])
    ensures !dead ==> Contributes(b, tagStart, out, next)
    ensures !dead ==> (RunsOff(b[tagStart..]) <==> RunsOff(b[next..]))
    decreases |b|, 0
  {
    hide Lex, Layout, RunsOff, Parse;
    match t
    case Plain =>
      StepPlain(b, tagStart);
      return [], tagStart + 1, false;
    case Cut(n) =>
      StepCut(b, tagStart, n);
      return [Fragment(tagStart, tagStart + n, NO_ATTRS, 0, 0)], tagStart + n, false;
    case Inc(n, a, i, j) =>
      StepInc(b, tagStart, n, a, i, j);
      return [Place(b[tagStart..tagStart + n], a, i, j, tagStart)], tagStart + n, false;
    case Unwrap(c) =>
      StepUnwrap(b, tagStart, c);
      var contentStart := tagStart + |INLINE_OPEN|;
      var closeStart := contentStart + c;
      var open := Fragment(tagStart, contentStart, NO_ATTRS, 0, 0);
      var close := Fragment(closeStart, closeStart + |INLINE_CLOSE|, NO_ATTRS, 0, 0);
      var content := b[contentStart..closeStart];
      var inner := Scan(content);
      if inner.Panicked? {
        return [], 0, true;
      }
      var moved := Shift(inner.fragments, contentStart);
      LayoutMoved(Parse(content), 0, contentStart);
      assert moved == Layout(Parse(content), contentStart);
      next := closeStart + |INLINE_CLOSE|;
      out := [open] + moved + [close];
      Regroup([open], moved, [close], Rest(b, next));
      return out, next, false;
  }

  lemma Regroup(a: seq<Fragment>, b: seq<Fragment>, c: seq<Fragment>, d: seq<Fragment>)
    ensures a + (b + (c + d)) == a + b + c + d
  {
  }

  lemma OpenNameRunsOff(s: string)
    requires s in OPEN_NAMES
    ensures RunsOff(s)
  {
    OpenNameIsPlain(s);
    hide Lex;
  }

  lemma OpenNameIsPlain(s: string)
    requires s in OPEN_NAMES
    ensures s != "" && Lex(s).Plain?
  {
    hide LexInclude, LexRemove, LexComment, LexInline;
    assert s[1] == 'e' && INLINE_OPEN[1] == '!';
    assert s[5] == 'i' || s[5] == 'r' || s[5] == 'c';
    assert INCLUDE_OPEN[5] == 'i' && REMOVE_OPEN[5] == 'r' && COMMENT_OPEN[5] == 'c';
  }

  lemma NoneFrom(b: string, pos: nat)
    requires pos <= |b| && Index(b[pos..], "<") == -1
    ensures forall k :: pos <= k < |b| ==> b[k] != '<'
  {
    forall k | pos <= k < |b| ensures b[k] != '<' {
      assert !At(b[pos..], "<", k - pos);
      assert b[pos..][k - pos..k - pos + 1] == [b[k]];
    }
  }

  lemma TextBefore(b: string, pos: nat, n: nat)
    requires pos <= |b| && Index(b[pos..], "<") == n
    ensures pos + n < |b|
    ensures forall k :: pos <= k < pos + n ==> b[k] != '<'
  {
    forall k | pos <= k < pos + n ensures b[k] != '<' {
      assert !At(b[pos..], "<", k - pos);
      assert b[pos..][k - pos..k - pos + 1] == [b[k]];
    }
  }

  lemma NothingLeft(b: string)
    ensures Rest(b, |b|) == [] && !RunsOff(b[|b|..])
  {
  }
}
