/** Exactly which documents make the compiler read past the end of its buffer. */
module EsiBounds {
  import opened EsiBytes
  import opened EsiParse

  lemma IndexEnds(s: string, pat: string)
    requires pat != "" && Index(s, pat) >= 0
    ensures var c := Index(s, pat); c + |pat| <= |s| && s[c + |pat| - 1] == pat[|pat| - 1]
  {
    hide Index;
    var c := Index(s, pat);
    assert s[c..c + |pat|][|pat| - 1] == s[c + |pat| - 1];
  }

  lemma IncludeEnds(s: string)
    requires Opens(s, INCLUDE_OPEN, true)
    ensures LexInclude(s).Inc? ==> s[LexInclude(s).len - 1] == '>'
  {
    hide HeaderEnd, Index, ReadAttrs;
    var e := HeaderEnd(s, 1, '\0');
    if e != -1 && Index(s[e..], INCLUDE_CLOSE) >= 0 {
      IndexEnds(s[e..], INCLUDE_CLOSE);
    }
  }

  lemma RemoveEnds(s: string)
    ensures LexRemove(s).Cut? ==> s[LexRemove(s).len - 1] == '>'
  {
    hide Index;
    if Index(s, REMOVE_CLOSE) >= 0 { IndexEnds(s, REMOVE_CLOSE); }
  }

  lemma CommentEnds(s: string)
    ensures LexComment(s).Cut? ==> s[LexComment(s).len - 1] == '>'
  {
    hide HeaderEnd, Index;
    var e := HeaderEnd(s, 1, '\0');
    if e != -1 && Index(s[e..], COMMENT_CLOSE) >= 0 {
      IndexEnds(s[e..], COMMENT_CLOSE);
    }
  }

  lemma InlineEnds(s: string)
    requires INLINE_OPEN <= s
    ensures LexInline(s).Cut? ==> LexInline(s).len == 7
  {
    hide Index;
  }

  /** A recognised tag ends in `>`, or is an unclosed `<!--esi`. */
  lemma TagEnds(s: string)
    requires s != ""
    ensures Lex(s).Inc? ==> s[Lex(s).len - 1] == '>'
    ensures Lex(s).Cut? ==> s[Lex(s).len - 1] == '>' || (Lex(s).len == 7 && INLINE_OPEN <= s)
  {
    hide LexInclude, LexRemove, LexComment, LexInline, EndsName;
    if INLINE_OPEN <= s {
      InlineEnds(s);
    } else if Opens(s, INCLUDE_OPEN, true) {
      IncludeEnds(s);
    } else {
      RemoveEnds(s);
      CommentEnds(s);
    }
  }

  lemma NamesLack(name: string)
    requires name in OPEN_NAMES
    ensures |name| > 1 && name[0] == '<' && name[1] == 'e' && Lacks(name, '>')
  {
  }

  lemma NameSuffix(s: string, k: nat)
    requires k <= |s| && s[k..] in OPEN_NAMES
    ensures k + 1 < |s| && s[k] == '<' && s[k + 1] == 'e'
    ensures forall i :: k <= i < |s| ==> s[i] != '>'
  {
    NamesLack(s[k..]);
    forall i | k <= i < |s| ensures s[i] != '>' { assert s[k..][i - k] == s[i]; }
    assert s[k..][0] == s[k] && s[k..][1] == s[k + 1];
  }

  /** An open-tag name at the end of the text cannot straddle the end of a recognised tag. */
  lemma EndingSurvivesTag(s: string, n: nat)
    requires 0 < n <= |s|
    requires s[n - 1] == '>' || (n == 7 && INLINE_OPEN <= s)
    ensures EndsInOpenName(s) <==> EndsInOpenName(s[n..])
  {
    forall k | 0 <= k <= |s| && s[k..] in OPEN_NAMES ensures n <= k && s[n..][k - n..] == s[k..] {
      NameSuffix(s, k);
      assert INLINE_OPEN <= s ==> forall i :: 0 <= i < 7 ==> s[i] == INLINE_OPEN[i];
    }
    forall k | 0 <= k <= |s[n..]| ensures s[n..][k..] == s[n + k..] {}
  }

  lemma EndingOfTail(s: string)
    requires s != ""
    ensures EndsInOpenName(s) <==> s in OPEN_NAMES || EndsInOpenName(s[1..])
  {
    assert s[0..] == s;
    forall k | 1 <= k <= |s| ensures s[1..][k - 1..] == s[k..] {}
    forall k | 0 <= k <= |s[1..]| ensures s[1..][k..] == s[k + 1..] {}
  }

  lemma NotUnwrap(s: string)
    requires s != "" && forall k :: !At(s, INLINE_CLOSE, k)
    ensures !Lex(s).Unwrap?
  {
    hide Lex;
    if Lex(s).Unwrap? {
      var c := Lex(s).content;
      var p := 7 + c;
      var found := At(s, INLINE_CLOSE, p);
    }
  }

  /** Text without `-->` holds no closed wrapper, so wrappers never nest. */
  lemma {:induction false} UnclosedHasNoWrapper(s: string)
    requires forall k :: !At(s, INLINE_CLOSE, k)
    ensures Wrapped(s) == []
    decreases |s|
  {
    hide Lex;
    if s != "" {
      var t := Lex(s);
      NotUnwrap(s);
      forall n, k | 0 <= n <= |s| ensures !At(s[n..], INLINE_CLOSE, k) {
        if k >= 0 { AtDrop(s, INLINE_CLOSE, n, k + n); }
      }
      match t
      case Plain => UnclosedHasNoWrapper(s[1..]);
      case Cut(n) => UnclosedHasNoWrapper(s[n..]);
      case Inc(n, _, _, _) => UnclosedHasNoWrapper(s[n..]);
    }
  }

  lemma InfixAt(s: string, pat: string, i: nat, j: nat, k: int)
    requires i <= j <= |s| && At(s[i..j], pat, k)
    ensures At(s[i..], pat, k)
  {
    forall x | 0 <= x < |pat| ensures s[i..][k..k + |pat|][x] == pat[x] {
      assert s[i..j][k..k + |pat|][x] == s[i + k + x];
    }
  }

  lemma WrapperContentUnclosed(s: string, k: int)
    requires s != "" && Lex(s).Unwrap?
    ensures !At(s[7..7 + Lex(s).content], INLINE_CLOSE, k)
  {
    hide LexInclude, LexRemove, LexComment;
    var c := Lex(s).content;
    if At(s[7..7 + c], INLINE_CLOSE, k) {
      InfixAt(s, INLINE_CLOSE, 7, 7 + c, k);
    }
  }

  ghost predicate SomeWrapperEndsOpen(s: string) {
    exists i :: 0 <= i < |Wrapped(s)| && EndsInOpenName(Wrapped(s)[i])
  }

  /** The compiler reads past its buffer exactly when the document, or the content of a wrapper
      it meets, ends in `<esi:include`, `<esi:remove` or `<esi:comment`. */
  lemma {:induction false} RunsOffExactly(s: string)
    ensures RunsOff(s) <==> EndsInOpenName(s) || SomeWrapperEndsOpen(s)
    decreases |s|
  {
    hide Lex, EndsInOpenName, SomeWrapperEndsOpen;
    if s == "" {
      EmptyIsSafe();
    } else {
      TagEnds(s);
      match Lex(s)
      case Plain =>
        RunsOffExactly(s[1..]);
        EndingOfTail(s);
        WrapperSame(s, s[1..]);
      case Cut(n) =>
        RunsOffExactly(s[n..]);
        EndingSurvivesTag(s, n);
        WrapperSame(s, s[n..]);
      case Inc(n, _, _, _) =>
        RunsOffExactly(s[n..]);
        EndingSurvivesTag(s, n);
        WrapperSame(s, s[n..]);
      case Unwrap(c) =>
        var content, rest := s[7..7 + c], s[10 + c..];
        forall k ensures !At(content, INLINE_CLOSE, k) { WrapperContentUnclosed(s, k); }
        UnclosedHasNoWrapper(content);
        NoWrapper(content);
        RunsOffExactly(content);
        RunsOffExactly(rest);
        assert s[7 + c..10 + c][2] == s[9 + c];
        EndingSurvivesTag(s, 10 + c);
        assert Wrapped(s) == [content] + Wrapped(rest);
        WrapperCons(content, rest, s);
    }
  }

  lemma EmptyIsSafe()
    ensures !EndsInOpenName("") && !SomeWrapperEndsOpen("")
  {
  }

  lemma NoWrapper(s: string)
    requires Wrapped(s) == []
    ensures !SomeWrapperEndsOpen(s)
  {
  }

  lemma WrapperSame(s: string, rest: string)
    requires Wrapped(s) == Wrapped(rest)
    ensures SomeWrapperEndsOpen(s) <==> SomeWrapperEndsOpen(rest)
  {
  }

  lemma WrapperCons(content: string, rest: string, s: string)
    requires Wrapped(s) == [content] + Wrapped(rest)
    ensures SomeWrapperEndsOpen(s) <==> EndsInOpenName(content) || SomeWrapperEndsOpen(rest)
  {
    hide EndsInOpenName, Wrapped;
    if EndsInOpenName(content) {
      assert EndsInOpenName(Wrapped(s)[0]);
    }
    if SomeWrapperEndsOpen(rest) {
      var i :| 0 <= i < |Wrapped(rest)| && EndsInOpenName(Wrapped(rest)[i]);
      assert EndsInOpenName(Wrapped(s)[i + 1]);
    }
  }
}
