/** What each kind of tag covers, told from the text alone. */
module EsiTags {
  import opened EsiBytes
  import opened EsiParse
  import opened EsiScan

  /** An index moved to where the text it belongs to starts. */
  function ShiftedBy(fs: seq<Fragment>, d: nat): (r: seq<Fragment>)
    ensures |r| == |fs| && forall i :: 0 <= i < |fs| ==> r[i] == Moved(fs[i], d)
  {
    if fs == [] then [] else [Moved(fs[0], d)] + ShiftedBy(fs[1..], d)
  }

  lemma LayoutShifted(s: string, d: nat)
    ensures Layout(Parse(s), d) == ShiftedBy(Frags(s), d)
  {
    hide Parse, Layout, Moved;
    LayoutMoved(Parse(s), 0, d);
  }

  function Stripped(start: nat, end: nat): Fragment { Fragment(start, end, NO_ATTRS, 0, 0) }

  // ---------- Text ----------

  /** Text in which no tag starts. */
  ghost predicate Unmarked(s: string) { forall k :: !At(s, "<esi:", k) && !At(s, INLINE_OPEN, k) }

  /** A pattern with one `<`, at its front, does not straddle the end of the text before a tag. */
  lemma NoStraddle(before: string, rest: string, pat: string, k: nat)
    requires k < |before| && rest != "" && rest[0] == '<' && pat != "" && !At(before, pat, k)
    requires forall i :: 0 < i < |pat| ==> pat[i] != '<'
    ensures !(pat <= (before + rest)[k..])
  {
    var t := (before + rest)[k..];
    if k + |pat| <= |before| {
      assert before[k..k + |pat|] == t[..|pat|];
    } else {
      assert t[|before| - k] == '<';
    }
  }

  lemma {:induction false} UnmarkedSkipped(before: string, rest: string, p: nat)
    requires Unmarked(before) && p <= |before| && rest != "" && rest[0] == '<'
    ensures var b := before + rest; Rest(b, p) == Rest(b, |before|) && (RunsOff(b[p..]) <==> RunsOff(b[|before|..]))
    decreases |before| - p
  {
    hide Lex, RunsOff, Parse, Layout;
    var b := before + rest;
    if p < |before| {
      NoStraddle(before, rest, "<esi:", p);
      NoStraddle(before, rest, INLINE_OPEN, p);
      UnmarkedIsPlain(b[p..]);
      StepPlain(b, p);
      UnmarkedSkipped(before, rest, p + 1);
    }
  }

  lemma Around(before: string, tag: string, after: string)
    ensures var b := before + (tag + after); b[0..] == b && b[|before|..] == tag + after && b[|before| + |tag|..] == after
  {
  }

  /** A stripped tag after text: its range, then the rest moved. */
  lemma FirstCut(before: string, tag: string, after: string)
    requires Unmarked(before) && tag != "" && tag[0] == '<' && Lex(tag + after) == Cut(|tag|)
    ensures var p, q := |before|, |before| + |tag|;
      Frags(before + (tag + after)) == [Stripped(p, q)] + ShiftedBy(Frags(after), q)
  {
    hide Lex, Parse, Layout, RunsOff, Unmarked, ShiftedBy;
    var b := before + (tag + after);
    Around(before, tag, after);
    UnmarkedSkipped(before, tag + after, 0);
    StepCut(b, |before|, |tag|);
    LayoutShifted(after, |before| + |tag|);
  }

  lemma RestIs(b: string, p: nat, t: string)
    requires p <= |b| && b[p..] == t
    ensures Rest(b, p) == ShiftedBy(Frags(t), p)
  {
    LayoutShifted(t, p);
  }

  /** No `<` after the first byte. */
  ghost predicate OpensOnce(s: string) { s != "" && s[0] == '<' && forall k :: 1 <= k < |s| ==> s[k] != '<' }

  ghost predicate NoOpening(s: string, i: nat, j: nat)
    requires i <= j <= |s|
  {
    forall k :: i <= k < j ==> s[k] != '<'
  }

  lemma PlainName(b: string, p: nat, n: nat)
    requires 0 < n && p + n <= |b| && Lex(b[p..]).Plain? && NoOpening(b, p + 1, p + n)
    ensures Rest(b, p) == Rest(b, p + n)
  {
    hide Lex, RunsOff, OPEN_NAMES, Rest;
    StepPlain(b, p);
    SkipText(b, p + 1, p + n);
  }

  lemma FirstPlain(before: string, name: string, t: string)
    requires Unmarked(before) && OpensOnce(name) && Lex(name + t).Plain?
    ensures Frags(before + (name + t)) == ShiftedBy(Frags(t), |before| + |name|)
  {
    hide Lex, Frags, RunsOff, Unmarked, ShiftedBy, Rest, OpensOnce, NoOpening;
    var b, p := before + (name + t), |before|;
    Around(before, name, t);
    NameBytes(before, name, t);
    UnmarkedSkipped(before, name + t, 0);
    PlainName(b, p, |name|);
    RestIs(b, p + |name|, t);
    WholeRest(b);
  }

  lemma WholeRest(b: string)
    ensures Rest(b, 0) == Frags(b)
  {
    assert b[0..] == b;
  }

  /** A name that turns out not to open a tag is text. */
  lemma FirstText(before: string, name: string, t: string)
    requires Unmarked(before) && name in OPEN_NAMES && Lex(name + t).Plain?
    ensures Frags(before + (name + t)) == ShiftedBy(Frags(t), |before| + |name|)
  {
    hide Lex, Frags, Unmarked, ShiftedBy;
    NamesOpenOnce(name);
    FirstPlain(before, name, t);
  }

  lemma NameBytes(before: string, name: string, t: string)
    requires OpensOnce(name)
    ensures name != "" && (name + t)[0] == '<' && NoOpening(before + (name + t), |before| + 1, |before| + |name|)
  {
  }

  lemma NamesOpenOnce(name: string)
    requires name in OPEN_NAMES
    ensures OpensOnce(name)
  {
  }

  /** Each open-tag name leads to its own reading. */
  lemma Opened(name: string, t: string)
    requires name in OPEN_NAMES
    ensures var s := name + t;
      && Lex(s) == (if !Opens(s, name, name != REMOVE_OPEN) then Plain
                    else if name == INCLUDE_OPEN then LexInclude(s)
                    else if name == REMOVE_OPEN then LexRemove(s) else LexComment(s))
      && (Opens(s, name, name != REMOVE_OPEN) <==> t != "" && (IsWs(t[0]) || t[0] == '>' || (name != REMOVE_OPEN && t[0] == '/')))
  {
    hide LexInclude, LexRemove, LexComment, LexInline;
    var s := name + t;
    assert s[..|name|] == name && s[1] == name[1] && s[5] == name[5];
    assert INLINE_OPEN[1] == '!' && INCLUDE_OPEN[5] == 'i' && REMOVE_OPEN[5] == 'r' && COMMENT_OPEN[5] == 'c';
    assert t != "" ==> s[|name|] == t[0];
  }

  /** An open-tag name followed by a byte that continues it is text. */
  lemma MisnamedIsText(before: string, name: string, t: string)
    requires Unmarked(before) && name in OPEN_NAMES
    requires t != "" && !IsWs(t[0]) && t[0] != '>' && (t[0] != '/' || name == REMOVE_OPEN)
    ensures Frags(before + (name + t)) == ShiftedBy(Frags(t), |before| + |name|)
  {
    hide Lex, Frags, Unmarked, ShiftedBy, LexInclude, LexRemove, LexComment;
    Opened(name, t);
    FirstText(before, name, t);
  }

  // ---------- Closing tags ----------

  ghost predicate Holds(s: string, pat: string) { exists k :: At(s, pat, k) }

  /** A closing text whose last byte stands nowhere else in it is found where it was put. */
  lemma CloseFound(c: string, close: string, rest: string)
    requires !Holds(c, close) && close != "" && forall i :: 0 <= i < |close| - 1 ==> close[i] != close[|close| - 1]
    ensures Index(c + (close + rest), close) == |c|
  {
    hide Index;
    var s, n := c + (close + rest), |close|;
    assert s[|c|..|c| + n] == close;
    assert At(s, close, |c|);
    forall k | 0 <= k < |c| ensures !At(s, close, k) {
      assert !At(c, close, k);
      if k + n <= |c| {
        assert s[k..k + n] == c[k..k + n];
      } else {
        assert s[k + n - 1] == close[k + n - 1 - |c|];
        assert s[k..k + n][n - 1] == s[k + n - 1];
      }
    }
  }

  lemma ClosesEndOnce(close: string)
    requires close in {INCLUDE_CLOSE, REMOVE_CLOSE, COMMENT_CLOSE, INLINE_CLOSE}
    ensures close != "" && forall i :: 0 <= i < |close| - 1 ==> close[i] != close[|close| - 1]
  {
  }

  // ---------- Remove ----------

  /** A remove tag covers everything up to and including the first closing tag. */
  lemma RemoveRoundTrip(before: string, c: string, after: string)
    requires Unmarked(before) && c != "" && (IsWs(c[0]) || c[0] == '>') && !Holds(c, REMOVE_CLOSE)
    ensures var p, q := |before|, |before| + |REMOVE_OPEN + c + REMOVE_CLOSE|;
      Frags(before + (REMOVE_OPEN + c + REMOVE_CLOSE + after)) == [Stripped(p, q)] + ShiftedBy(Frags(after), q)
  {
    hide Lex, Frags, Unmarked, ShiftedBy, Holds, LexInclude, LexRemove, LexComment;
    var tag := REMOVE_OPEN + c + REMOVE_CLOSE;
    var t := c + (REMOVE_CLOSE + after);
    assert tag + after == REMOVE_OPEN + t && t[0] == c[0];
    Opened(REMOVE_OPEN, t);
    RemoveCloses(c, after);
    FirstCut(before, tag, after);
  }

  lemma RemoveCloses(c: string, after: string)
    requires !Holds(c, REMOVE_CLOSE)
    ensures LexRemove(REMOVE_OPEN + (c + (REMOVE_CLOSE + after))) == Cut(|REMOVE_OPEN + c + REMOVE_CLOSE|)
  {
    hide Index;
    ClosesEndOnce(REMOVE_CLOSE);
    NotInName(c);
    CloseFound(REMOVE_OPEN + c, REMOVE_CLOSE, after);
    assert (REMOVE_OPEN + c) + (REMOVE_CLOSE + after) == REMOVE_OPEN + (c + (REMOVE_CLOSE + after));
  }

  lemma NotInName(c: string)
    requires !Holds(c, REMOVE_CLOSE)
    ensures !Holds(REMOVE_OPEN + c, REMOVE_CLOSE)
  {
    var s := REMOVE_OPEN + c;
    forall k ensures !At(s, REMOVE_CLOSE, k) {
      if 0 <= k < |REMOVE_OPEN| {
        if k + |REMOVE_CLOSE| <= |s| {
          assert s[k..k + |REMOVE_CLOSE|][0] == REMOVE_OPEN[k];
          assert k == 0 ==> s[k..k + |REMOVE_CLOSE|][1] == REMOVE_OPEN[1];
        }
      } else if k >= |REMOVE_OPEN| {
        AtDrop(s, REMOVE_CLOSE, |REMOVE_OPEN|, k);
        assert s[|REMOVE_OPEN|..] == c;
        assert !At(c, REMOVE_CLOSE, k - |REMOVE_OPEN|);
      }
    }
  }

  /** Without a closing tag it is text. */
  lemma UnclosedRemoveIsText(before: string, t: string)
    requires Unmarked(before) && !Holds(t, REMOVE_CLOSE)
    ensures Frags(before + (REMOVE_OPEN + t)) == ShiftedBy(Frags(t), |before| + |REMOVE_OPEN|)
  {
    hide Lex, Frags, Index, Unmarked, ShiftedBy, LexInclude, LexComment;
    Opened(REMOVE_OPEN, t);
    NotInName(t);
    FirstText(before, REMOVE_OPEN, t);
  }

  // ---------- Headers ----------

  const NONE := '\0'

  /** The quote open before the k-th byte of a tag, or none. */
  function QuoteAt(s: string, k: nat): char
    requires 1 <= k <= |s|
  {
    if k == 1 then NONE
    else
      var q, c := QuoteAt(s, k - 1), s[k - 1];
      if q != NONE then if c == q then NONE else q
      else if c == '"' || c == '\'' then c else NONE
  }

  /** No byte before the k-th is a `>` outside quotes. */
  ghost predicate StillOpen(s: string, k: nat)
    requires k <= |s|
  {
    forall i :: 1 <= i < k && s[i] == '>' ==> QuoteAt(s, i) != NONE
  }

  lemma {:induction false} OpenUpTo(s: string, k: nat)
    requires 1 <= k <= |s| && StillOpen(s, k)
    ensures HeaderEnd(s, 1, NONE) == HeaderEnd(s, k, QuoteAt(s, k))
  {
    if k > 1 { OpenUpTo(s, k - 1); }
  }

  lemma {:induction false} FirstFree(s: string, k: nat)
    requires 1 <= k <= |s| && StillOpen(s, k)
    ensures var e := HeaderEnd(s, k, QuoteAt(s, k));
      if e == -1 then StillOpen(s, |s|) else k < e <= |s| && StillOpen(s, e - 1) && s[e - 1] == '>' && QuoteAt(s, e - 1) == NONE
    decreases |s| - k
  {
    if k < |s| && !(s[k] == '>' && QuoteAt(s, k) == NONE) { FirstFree(s, k + 1); }
  }

  /** A tag's header ends after the first `>` that stands outside quotes, and never if there is none. */
  lemma HeaderEndExactly(s: string, e: nat)
    requires s != "" && 2 <= e <= |s|
    ensures HeaderEnd(s, 1, NONE) == e <==> s[e - 1] == '>' && QuoteAt(s, e - 1) == NONE && StillOpen(s, e - 1)
    ensures HeaderEnd(s, 1, NONE) == -1 <==> StillOpen(s, |s|)
  {
    FirstFree(s, 1);
    if s[e - 1] == '>' && QuoteAt(s, e - 1) == NONE && StillOpen(s, e - 1) { OpenUpTo(s, e - 1); }
    if StillOpen(s, |s|) { OpenUpTo(s, |s|); }
  }

  /** A header as far as it goes: balanced quotes and no `>` outside them. */
  ghost predicate OpenHeader(h: string) { h != "" && StillOpen(h, |h|) && QuoteAt(h, |h|) == NONE }

  lemma {:induction false} QuoteAtPrefix(h: string, t: string, k: nat)
    requires 1 <= k <= |h|
    ensures QuoteAt(h + t, k) == QuoteAt(h, k)
  {
    if k > 1 { QuoteAtPrefix(h, t, k - 1); }
  }

  lemma HeaderCloses(h: string, t: string)
    requires OpenHeader(h)
    ensures HeaderEnd(h + (">" + t), 1, NONE) == |h| + 1
  {
    var s := h + (">" + t);
    forall k | 1 <= k <= |h| ensures QuoteAt(s, k) == QuoteAt(h, k) { QuoteAtPrefix(h, ">" + t, k); }
    assert s[|h|] == '>';
    HeaderEndExactly(s, |h| + 1);
  }

  lemma SlashOpen(h: string)
    requires OpenHeader(h)
    ensures OpenHeader(h + "/")
  {
    forall k | 1 <= k <= |h| ensures QuoteAt(h + "/", k) == QuoteAt(h, k) { QuoteAtPrefix(h, "/", k); }
  }

  /** The header of a tag that closes itself, as it stands before the slash. */
  lemma SelfCloses(h: string, t: string)
    requires OpenHeader(h)
    ensures var s := h + ("/>" + t); HeaderEnd(s, 1, NONE) == |h| + 2 && s[|h|] == '/'
  {
    hide HeaderEnd, OpenHeader;
    SlashOpen(h);
    HeaderCloses(h + "/", t);
    assert (h + "/") + (">" + t) == h + ("/>" + t);
  }

  // ---------- Comments ----------

  /** The text after a name starts as that of a tag. */
  predicate Begins(t: string) { t != "" && (IsWs(t[0]) || t[0] == '/' || t[0] == '>') }

  /** A comment that closes itself is stripped, whatever its header says in quotes. */
  lemma CommentRoundTrip(before: string, h: string, after: string)
    requires Unmarked(before) && Begins(h + "/") && OpenHeader(COMMENT_OPEN + h)
    ensures var q := |before| + |COMMENT_OPEN + h + "/>"|;
      Frags(before + (COMMENT_OPEN + h + "/>" + after)) == [Stripped(|before|, q)] + ShiftedBy(Frags(after), q)
  {
    hide Lex, Frags, Unmarked, ShiftedBy, OpenHeader, HeaderEnd, LexInclude, LexRemove;
    var tag, t := COMMENT_OPEN + h + "/>", h + ("/>" + after);
    assert tag + after == COMMENT_OPEN + t && tag + after == (COMMENT_OPEN + h) + ("/>" + after) && t[0] == (h + "/")[0];
    Opened(COMMENT_OPEN, t);
    SelfCloses(COMMENT_OPEN + h, after);
    FirstCut(before, tag, after);
  }

  /** A paired comment is stripped up to and including its closing tag. */
  lemma PairedCommentRoundTrip(before: string, h: string, c: string, after: string)
    requires Unmarked(before) && Begins(h + ">") && OpenHeader(COMMENT_OPEN + h) && (h == "" || h[|h| - 1] != '/')
    requires !Holds(c, COMMENT_CLOSE)
    ensures var q := |before| + |COMMENT_OPEN + h + ">" + c + COMMENT_CLOSE|;
      Frags(before + (COMMENT_OPEN + h + ">" + c + COMMENT_CLOSE + after)) == [Stripped(|before|, q)] + ShiftedBy(Frags(after), q)
  {
    hide Lex, Frags, Unmarked, ShiftedBy, LexInclude, LexRemove, LexComment, Holds, OpenHeader;
    var tag, t := COMMENT_OPEN + h + ">" + c + COMMENT_CLOSE, h + (">" + (c + (COMMENT_CLOSE + after)));
    assert tag + after == COMMENT_OPEN + t && t[0] == (h + ">")[0];
    Opened(COMMENT_OPEN, t);
    PairedCommentReads(h, c, after);
    FirstCut(before, tag, after);
  }

  lemma PairedCommentReads(h: string, c: string, after: string)
    requires OpenHeader(COMMENT_OPEN + h) && (h == "" || h[|h| - 1] != '/') && !Holds(c, COMMENT_CLOSE)
    ensures LexComment(COMMENT_OPEN + (h + (">" + (c + (COMMENT_CLOSE + after))))) == Cut(|COMMENT_OPEN + h + ">" + c + COMMENT_CLOSE|)
  {
    hide HeaderEnd, Index, OpenHeader, Holds;
    var hd, body := COMMENT_OPEN + h, c + (COMMENT_CLOSE + after);
    var s := hd + (">" + body);
    assert s == COMMENT_OPEN + (h + (">" + body));
    HeaderCloses(hd, body);
    assert s[|hd| - 1] == hd[|hd| - 1] != '/';
    assert s[|hd| + 1..] == body;
    ClosesEndOnce(COMMENT_CLOSE);
    CloseFound(c, COMMENT_CLOSE, after);
  }

  /** A comment whose header does not end is text. */
  lemma UnendedCommentIsText(before: string, t: string)
    requires Unmarked(before) && StillOpen(COMMENT_OPEN + t, |COMMENT_OPEN + t|)
    ensures Frags(before + (COMMENT_OPEN + t)) == ShiftedBy(Frags(t), |before| + |COMMENT_OPEN|)
  {
    hide Lex, Frags, Unmarked, ShiftedBy, LexInclude, LexRemove, HeaderEnd, Index, StillOpen;
    var s := COMMENT_OPEN + t;
    Opened(COMMENT_OPEN, t);
    HeaderEndExactly(s, |s|);
    FirstText(before, COMMENT_OPEN, t);
  }

  /** So is one that is not closed. */
  lemma UnclosedCommentIsText(before: string, h: string, c: string, t: string)
    requires Unmarked(before) && OpenHeader(COMMENT_OPEN + h) && (h == "" || h[|h| - 1] != '/') && !Holds(c, COMMENT_CLOSE)
    requires t == h + (">" + c)
    ensures Frags(before + (COMMENT_OPEN + t)) == ShiftedBy(Frags(t), |before| + |COMMENT_OPEN|)
  {
    hide Lex, Frags, Unmarked, ShiftedBy, LexInclude, LexRemove, LexComment, Holds, OpenHeader;
    UnclosedCommentReads(h, c);
    CommentPlain(t);
    FirstText(before, COMMENT_OPEN, t);
  }

  lemma CommentPlain(t: string)
    requires LexComment(COMMENT_OPEN + t).Plain?
    ensures Lex(COMMENT_OPEN + t).Plain?
  {
    hide Lex, LexComment;
    Opened(COMMENT_OPEN, t);
  }

  lemma UnclosedCommentReads(h: string, c: string)
    requires OpenHeader(COMMENT_OPEN + h) && (h == "" || h[|h| - 1] != '/') && !Holds(c, COMMENT_CLOSE)
    ensures LexComment(COMMENT_OPEN + (h + (">" + c))).Plain?
  {
    hide HeaderEnd, Index, OpenHeader;
    var hd := COMMENT_OPEN + h;
    var s := hd + (">" + c);
    assert s == COMMENT_OPEN + (h + (">" + c));
    HeaderCloses(hd, c);
    assert s[|hd| - 1] == hd[|hd| - 1] != '/';
    assert s[|hd| + 1..] == c;
  }

  // ---------- Wrappers ----------

  lemma InlineOpened(c: string, after: string)
    requires !Holds(c, INLINE_CLOSE)
    ensures Lex(INLINE_OPEN + (c + (INLINE_CLOSE + after))) == Unwrap(|c|)
    ensures Lex(INLINE_OPEN + c) == Cut(7)
  {
    hide Index, LexInclude, LexRemove, LexComment;
    ClosesEndOnce(INLINE_CLOSE);
    CloseFound(c, INLINE_CLOSE, after);
    var s, u := INLINE_OPEN + (c + (INLINE_CLOSE + after)), INLINE_OPEN + c;
    assert s[..7] == INLINE_OPEN && s[7..] == c + (INLINE_CLOSE + after);
    assert u[..7] == INLINE_OPEN && u[7..] == c;
  }

  /** A wrapper loses its two markers; what it holds is compiled as if it stood alone. */
  lemma WrapperRoundTrip(before: string, c: string, after: string)
    requires Unmarked(before) && !Holds(c, INLINE_CLOSE)
    ensures var p, q := |before| + 7, |before| + 7 + |c|;
      Frags(before + (INLINE_OPEN + (c + (INLINE_CLOSE + after))))
        == [Stripped(|before|, p)] + (ShiftedBy(Frags(c), p) + ([Stripped(q, q + 3)] + ShiftedBy(Frags(after), q + 3)))
  {
    hide Lex, Parse, Layout, RunsOff, Unmarked, ShiftedBy, Holds;
    var b, p := before + (INLINE_OPEN + (c + (INLINE_CLOSE + after))), |before|;
    InlineOpened(c, after);
    WrapperParts(before, c, after);
    UnmarkedSkipped(before, INLINE_OPEN + (c + (INLINE_CLOSE + after)), 0);
    StepUnwrap(b, p, |c|);
    LayoutShifted(c, p + 7);
    LayoutShifted(after, p + 10 + |c|);
  }

  lemma WrapperParts(before: string, c: string, after: string)
    ensures var b, p := before + (INLINE_OPEN + (c + (INLINE_CLOSE + after))), |before|;
      && b[0..] == b && b[p..] == INLINE_OPEN + (c + (INLINE_CLOSE + after))
      && b[p + 7..p + 7 + |c|] == c && b[p + 10 + |c|..] == after
  {
  }

  /** Without its end only the opening marker goes. */
  lemma UnclosedWrapper(before: string, t: string)
    requires Unmarked(before) && !Holds(t, INLINE_CLOSE)
    ensures var p := |before| + 7;
      Frags(before + (INLINE_OPEN + t)) == [Stripped(|before|, p)] + ShiftedBy(Frags(t), p)
  {
    hide Lex, Frags, Unmarked, ShiftedBy, Holds;
    InlineOpened(t, "");
    FirstCut(before, INLINE_OPEN, t);
  }
}
