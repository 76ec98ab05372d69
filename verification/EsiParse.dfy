/** What an ESI document means, read left to right with no offsets: the reference the
    offset-based compiler (EsiScan) and the splicer (EsiSplice) are proved against. */
module EsiParse {
  import opened EsiBytes

  const INCLUDE_OPEN := "<esi:include"
  const INCLUDE_CLOSE := "</esi:include>"
  const REMOVE_OPEN := "<esi:remove"
  const REMOVE_CLOSE := "</esi:remove>"
  const COMMENT_OPEN := "<esi:comment"
  const COMMENT_CLOSE := "</esi:comment>"
  const INLINE_OPEN := "<!--esi"
  const INLINE_CLOSE := "-->"

  /** Attributes of an include tag; `timeout` stays raw text. */
  datatype Attrs = Attrs(src: string, alt: string, onError: string, maxDepth: nat, timeout: string)
  const NO_ATTRS := Attrs("", "", "", 0, "")

  // ---------- Tag headers ----------

  /** Offset just past the first `>` of `s` at or after `i` that is outside quotes (`q` is the
      quote open at `i`, or NUL), or -1. */
  function HeaderEnd(s: string, i: nat, q: char): (r: int)
    ensures r == -1 || (i < r <= |s| && s[r - 1] == '>')
    decreases |s| - i
  {
    if i >= |s| then -1
    else if q != '\0' then HeaderEnd(s, i + 1, if s[i] == q then '\0' else q)
    else if s[i] == '"' || s[i] == '\'' then HeaderEnd(s, i + 1, s[i])
    else if s[i] == '>' then i + 1
    else HeaderEnd(s, i + 1, '\0')
  }

  /** First offset at or after `i` that is not whitespace, or `|h|`. */
  function SkipWs(h: string, i: nat): (r: nat)
    requires i <= |h|
    ensures i <= r <= |h|
    ensures forall k :: i <= k < r ==> IsWs(h[k])
    ensures r < |h| ==> !IsWs(h[r])
    decreases |h| - i
  {
    if i < |h| && IsWs(h[i]) then SkipWs(h, i + 1) else i
  }

  /** An attribute called `name` starts at `p`: on a word boundary and followed by `=`. */
  predicate AttrAt(h: string, name: string, p: nat) {
    && At(h, name, p)
    && (p == 0 || IsWs(h[p - 1]))
    && (var q := SkipWs(h, p + |name|); q < |h| && h[q] == '=')
  }

  /** End of an unquoted value that starts at or before `i`. */
  function BareEnd(h: string, i: nat): (r: nat)
    requires i <= |h|
    ensures i <= r <= |h|
    decreases |h| - i
  {
    if i == |h| || IsWs(h[i]) || h[i] == '>' || (h[i] == '/' && (i + 1 >= |h| || h[i + 1] == '>')) then i
    else BareEnd(h, i + 1)
  }

  /** The value that follows the `=` at offset `q`. */
  function ValueAfter(h: string, q: nat): string
    requires q < |h|
  {
    var v := SkipWs(h, q + 1);
    if v == |h| then ""
    else if h[v] == '"' || h[v] == '\'' then
      var e := Index(h[v + 1..], [h[v]]);
      if e < 0 then h[v + 1..] else h[v + 1..v + 1 + e]
    else h[v..BareEnd(h, v)]
  }

  /** Value of the leftmost attribute called `name` at or after `p`; empty when there is none. */
  function AttrFrom(h: string, name: string, p: nat): string
    decreases |h| - p
  {
    if p >= |h| then ""
    else if AttrAt(h, name, p) then ValueAfter(h, SkipWs(h, p + |name|))
    else AttrFrom(h, name, p + 1)
  }

  // ---------- Numbers ----------

  predicate IsDigit(c: char) { '0' <= c <= '9' }

  predicate AllDigits(s: string) { forall i :: 0 <= i < |s| ==> IsDigit(s[i]) }

  function Decimal(s: string): nat
    requires AllDigits(s)
  {
    if s == "" then 0 else 10 * Decimal(s[..|s| - 1]) + (s[|s| - 1] as int - '0' as int)
  }

  /** The six ASCII characters `bytes.TrimSpace` removes. */
  predicate IsTrimmed(c: char) { IsWs(c) || c == '\U{0B}' || c == '\U{0C}' }

  function TrimSpace(s: string): string {
    if s != "" && IsTrimmed(s[0]) then TrimSpace(s[1..])
    else if s != "" && IsTrimmed(s[|s| - 1]) then TrimSpace(s[..|s| - 1])
    else s
  }

  /** `strconv.ParseUint(s, 10, 32)`, with 0 standing for any error. */
  function ParseDepth(raw: string): (r: nat)
    ensures r < 0x1_0000_0000
  {
    var s := TrimSpace(raw);
    if s == "" || !AllDigits(s) || Decimal(s) >= 0x1_0000_0000 then 0 else Decimal(s)
  }

  function ReadAttrs(h: string): Attrs {
    Attrs(AttrFrom(h, "src", 0), AttrFrom(h, "alt", 0), AttrFrom(h, "onerror", 0),
          ParseDepth(AttrFrom(h, "max-depth", 0)), AttrFrom(h, "timeout", 0))
  }

  // ---------- Documents ----------

  /** What stands at the front of a non-empty text. */
  datatype Token =
    | Plain                                                      // one byte of ordinary text
    | Cut(len: nat)                                              // markup to strip
    | Inc(len: nat, attrs: Attrs, innerStart: nat, innerEnd: nat) // an include tag
    | Unwrap(content: nat)                                       // <!--esi, `content` bytes, -->

  predicate EndsName(c: char, slash: bool) {
    IsWs(c) || c == '>' || (slash && c == '/')
  }

  /** `s` opens with tag name `name` followed by a byte that ends a name. */
  predicate Opens(s: string, name: string, slash: bool) {
    |name| < |s| && name <= s && EndsName(s[|name|], slash)
  }

  function LexInclude(s: string): (t: Token)
    requires Opens(s, INCLUDE_OPEN, true)
    ensures t.Plain? || (t.Inc? && 2 <= t.len <= |s|)
    ensures t.Inc? ==> t.innerStart == t.innerEnd == 0 || 0 < t.innerStart <= t.innerEnd < t.len
  {
    var e := HeaderEnd(s, 1, '\0');
    if e == -1 then Plain
    else if s[e - 2] == '/' then Inc(e, ReadAttrs(s[..e - 2]), 0, 0)
    else
      var c := Index(s[e..], INCLUDE_CLOSE);
      if c < 0 then Inc(e, ReadAttrs(s[..e - 1]), 0, 0)
      else Inc(e + c + |INCLUDE_CLOSE|, ReadAttrs(s[..e - 1]), e, e + c)
  }

  function LexRemove(s: string): (t: Token)
    ensures t.Plain? || (t.Cut? && 0 < t.len <= |s|)
  {
    var c := Index(s, REMOVE_CLOSE);
    if c < 0 then Plain else Cut(c + |REMOVE_CLOSE|)
  }

  function LexComment(s: string): (t: Token)
    ensures t.Plain? || (t.Cut? && 0 < t.len <= |s|)
  {
    var e := HeaderEnd(s, 1, '\0');
    if e == -1 then Plain
    else if s[e - 2] == '/' then Cut(e)
    else
      var c := Index(s[e..], COMMENT_CLOSE);
      if c < 0 then Plain else Cut(e + c + |COMMENT_CLOSE|)
  }

  function LexInline(s: string): (t: Token)
    requires INLINE_OPEN <= s
    ensures t.Cut? || t.Unwrap?
    ensures t.Cut? ==> 0 < t.len <= |s|
    ensures t.Unwrap? ==> t.content + 10 <= |s| && s[7 + t.content..10 + t.content] == INLINE_CLOSE
  {
    var c := Index(s[7..], INLINE_CLOSE);
    if c < 0 then Cut(7) else
      assert s[7..][c..c + 3] == s[7 + c..10 + c];
      Unwrap(c)
  }

  function Lex(s: string): (t: Token)
    requires s != ""
    ensures t.Cut? ==> 0 < t.len <= |s|
    ensures t.Inc? ==> 2 <= t.len <= |s| && (t.innerStart == t.innerEnd == 0 || 0 < t.innerStart <= t.innerEnd < t.len)
    ensures t.Unwrap? ==> t.content + 10 <= |s| && INLINE_OPEN <= s && s[7 + t.content..10 + t.content] == INLINE_CLOSE
    ensures s[0] != '<' ==> t.Plain?
  {
    if INLINE_OPEN <= s then LexInline(s)
    else if Opens(s, INCLUDE_OPEN, true) then LexInclude(s)
    else if Opens(s, REMOVE_OPEN, false) then LexRemove(s)
    else if Opens(s, COMMENT_OPEN, true) then LexComment(s)
    else Plain
  }

  /** A parsed document is a list of text bytes and tags; a tag keeps its whole source text, its
      attributes, and where its fallback content lies inside that text (0, 0 if none). */
  datatype Doc =
    | End
    | Text(c: char, rest: Doc)
    | Tag(raw: string, attrs: Attrs, innerStart: nat, innerEnd: nat, rest: Doc)

  function Strip(raw: string, rest: Doc): Doc { Tag(raw, NO_ATTRS, 0, 0, rest) }

  function Append(d: Doc, e: Doc): Doc {
    match d
    case End => e
    case Text(c, rest) => Text(c, Append(rest, e))
    case Tag(raw, a, i, j, rest) => Tag(raw, a, i, j, Append(rest, e))
  }

  /** The left-to-right reading of a document. Content of `<!--esi ... -->` is read too. */
  function Parse(s: string): Doc
    decreases |s|
  {
    if s == "" then End else
    match Lex(s)
    case Plain => Text(s[0], Parse(s[1..]))
    case Cut(n) => Strip(s[..n], Parse(s[n..]))
    case Inc(n, a, i, j) => Tag(s[..n], a, i, j, Parse(s[n..]))
    case Unwrap(c) => Strip(s[..7], Append(Parse(s[7..7 + c]), Strip(s[7 + c..10 + c], Parse(s[10 + c..]))))
  }

  /** Source text of a parsed document. */
  function Raw(d: Doc): string {
    match d
    case End => ""
    case Text(c, rest) => [c] + Raw(rest)
    case Tag(raw, _, _, _, rest) => raw + Raw(rest)
  }

  lemma {:induction false} RawAppend(d: Doc, e: Doc)
    ensures Raw(Append(d, e)) == Raw(d) + Raw(e)
  {
    match d
    case End =>
    case Text(c, rest) =>
      RawAppend(rest, e);
      assert [c] + (Raw(rest) + Raw(e)) == [c] + Raw(rest) + Raw(e);
    case Tag(raw, _, _, _, rest) =>
      RawAppend(rest, e);
      assert raw + (Raw(rest) + Raw(e)) == raw + Raw(rest) + Raw(e);
  }

  lemma Reassemble(s: string, i: nat, j: nat, k: nat)
    requires i <= j <= k <= |s|
    ensures s[..i] + (s[i..j] + (s[j..k] + s[k..])) == s
  {
  }

  /** Parsing loses nothing: the source text of the nodes is the document. */
  lemma {:induction false} ParseLossless(s: string)
    ensures Raw(Parse(s)) == s
    decreases |s|
  {
    hide Lex;
    if s != "" {
      match Lex(s)
      case Plain => ParseLossless(s[1..]);
      case Cut(n) => ParseLossless(s[n..]);
      case Inc(n, a, i, j) => ParseLossless(s[n..]);
      case Unwrap(c) =>
        ParseLossless(s[7..7 + c]);
        ParseLossless(s[10 + c..]);
        RawAppend(Parse(s[7..7 + c]), Strip(s[7 + c..10 + c], Parse(s[10 + c..])));
        Reassemble(s, 7, 7 + c, 10 + c);
    }
  }

  /** Every tag is non-empty and its fallback range lies strictly inside it. */
  predicate WellFormed(d: Doc) {
    match d
    case End => true
    case Text(_, rest) => WellFormed(rest)
    case Tag(raw, _, i, j, rest) => |raw| > 0 && (i == j == 0 || 0 < i <= j < |raw|) && WellFormed(rest)
  }

  lemma WellFormedAppend(d: Doc, e: Doc)
    requires WellFormed(d) && WellFormed(e)
    ensures WellFormed(Append(d, e))
  {
  }

  lemma {:induction false} ParseWellFormed(s: string)
    ensures WellFormed(Parse(s))
    decreases |s|
  {
    hide Lex;
    if s != "" {
      match Lex(s)
      case Plain => ParseWellFormed(s[1..]);
      case Cut(n) => ParseWellFormed(s[n..]);
      case Inc(n, a, i, j) => ParseWellFormed(s[n..]);
      case Unwrap(c) =>
        ParseWellFormed(s[7..7 + c]);
        ParseWellFormed(s[10 + c..]);
        WellFormedAppend(Parse(s[7..7 + c]), Strip(s[7 + c..10 + c], Parse(s[10 + c..])));
    }
  }

  // ---------- Rendering ----------

  function TagCount(d: Doc): nat {
    match d
    case End => 0
    case Text(_, rest) => TagCount(rest)
    case Tag(_, _, _, _, rest) => 1 + TagCount(rest)
  }

  /** The document with its text copied and its k-th tag replaced by `bodies[k]`. */
  function Render(d: Doc, bodies: seq<string>): string
    requires |bodies| == TagCount(d)
  {
    match d
    case End => ""
    case Text(c, rest) => [c] + Render(rest, bodies)
    case Tag(_, _, _, _, rest) => bodies[0] + Render(rest, bodies[1..])
  }

  // ---------- Inputs on which the compiler reads past the end ----------

  const OPEN_NAMES := {INCLUDE_OPEN, REMOVE_OPEN, COMMENT_OPEN}

  ghost predicate EndsInOpenName(s: string) {
    exists k :: 0 <= k <= |s| && s[k..] in OPEN_NAMES
  }

  /** Contents of the `<!--esi ... -->` wrappers that a reading of `s` meets outside other tags. */
  function Wrapped(s: string): seq<string>
    decreases |s|
  {
    if s == "" then [] else
    match Lex(s)
    case Plain => Wrapped(s[1..])
    case Cut(n) => Wrapped(s[n..])
    case Inc(n, _, _, _) => Wrapped(s[n..])
    case Unwrap(c) => [s[7..7 + c]] + Wrapped(s[10 + c..])
  }

  /** The reading reaches an open-tag name that ends exactly at the end of the text being read. */
  predicate RunsOff(s: string)
    decreases |s|
  {
    s != "" &&
    match Lex(s)
    case Plain => s in OPEN_NAMES || RunsOff(s[1..])
    case Cut(n) => RunsOff(s[n..])
    case Inc(n, _, _, _) => RunsOff(s[n..])
    case Unwrap(c) => RunsOff(s[7..7 + c]) || RunsOff(s[10 + c..])
  }
}
