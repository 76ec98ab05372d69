/** Splicing resolved fragment bodies into the parent document, by offsets alone. */
module EsiSplice {
  import opened EsiParse
  import opened EsiScan
  import opened EsiBounds

  /** The splicer's guard: a range that steps back or leaves the document is skipped. */
  predicate Misplaced(f: Fragment, last: nat, n: nat) {
    f.startPos < last || f.startPos > n || f.endPos > n || f.startPos > f.endPos
  }

  /** What splicing writes from byte `last` on. */
  function Spliced(parent: string, fs: seq<Fragment>, bodies: seq<string>, last: nat): string
    requires |fs| == |bodies| && last <= |parent|
    decreases |fs|
  {
    if fs == [] then parent[last..]
    else if Misplaced(fs[0], last, |parent|) then Spliced(parent, fs[1..], bodies[1..], last)
    else parent[last..fs[0].startPos] + (bodies[0] + Spliced(parent, fs[1..], bodies[1..], fs[0].endPos))
  }

  /** Growth of the document when the bodies replace the ranges. */
  function Growth(fs: seq<Fragment>, bodies: seq<string>): int
    requires |fs| == |bodies|
  {
    if fs == [] then 0 else |bodies[0]| - (fs[0].endPos - fs[0].startPos) + Growth(fs[1..], bodies[1..])
  }

  /** Ranges are in document order, disjoint and in bounds. */
  ghost predicate InOrder(fs: seq<Fragment>, last: nat, n: nat)
    decreases |fs|
  {
    if fs == [] then last <= n
    else last <= fs[0].startPos <= fs[0].endPos <= n && InOrder(fs[1..], fs[0].endPos, n)
  }

  /** Splices `bodies` into `parent`; `reserved` is the buffer size computed beforehand and
      `skipped` the number of ranges the guard rejected. */
  method SpliceFragments(parent: string, fs: seq<Fragment>, bodies: seq<string>)
    returns (out: string, reserved: int, skipped: nat)
    requires |fs| == |bodies|
    ensures out == Spliced(parent, fs, bodies, 0)
    ensures InOrder(fs, 0, |parent|) ==> |out| == reserved && skipped == 0
  {
    if |fs| == 0 {
      return parent, |parent|, 0;
    }
    reserved := |parent|;
    for i := 0 to |fs|
      invariant reserved + Growth(fs[i..], bodies[i..]) == |parent| + Growth(fs, bodies)
    {
      assert fs[i..][1..] == fs[i + 1..] && bodies[i..][1..] == bodies[i + 1..];
      var tagLen := fs[i].endPos - fs[i].startPos;
      reserved := reserved + |bodies[i]| - tagLen;
    }
    out := "";
    skipped := 0;
    var lastPos := 0;
    for i := 0 to |fs|
      invariant 0 <= lastPos <= |parent|
      invariant out + Spliced(parent, fs[i..], bodies[i..], lastPos) == Spliced(parent, fs, bodies, 0)
      invariant InOrder(fs, 0, |parent|) ==> InOrder(fs[i..], lastPos, |parent|) && skipped == 0
    {
      assert fs[i..][1..] == fs[i + 1..] && bodies[i..][1..] == bodies[i + 1..];
      var start, end := fs[i].startPos, fs[i].endPos;
      if start < lastPos || start > |parent| || end > |parent| || start > end {
        skipped := skipped + 1;
        continue;
      }
      ghost var rest := Spliced(parent, fs[i + 1..], bodies[i + 1..], end);
      Assoc(out, parent[lastPos..start], bodies[i], rest);
      out := out + parent[lastPos..start];
      if |bodies[i]| > 0 {
        out := out + bodies[i];
      }
      lastPos := end;
    }
    if lastPos < |parent| {
      out := out + parent[lastPos..];
    }
    if InOrder(fs, 0, |parent|) {
      SplicedSize(parent, fs, bodies, 0);
    }
  }

  lemma Assoc(a: string, b: string, c: string, d: string)
    ensures a + (b + (c + d)) == a + b + c + d
    ensures |c| == 0 ==> a + b + c == a + b
  {
  }

  lemma {:induction false} SplicedSize(parent: string, fs: seq<Fragment>, bodies: seq<string>, last: nat)
    requires |fs| == |bodies| && last <= |parent| && InOrder(fs, last, |parent|)
    ensures |Spliced(parent, fs, bodies, last)| == |parent| - last + Growth(fs, bodies)
    decreases |fs|
  {
    if fs != [] {
      SplicedSize(parent, fs[1..], bodies[1..], fs[0].endPos);
    }
  }

  // ---------- Ranges out of place ----------

  function EndOf(fs: seq<Fragment>, last: nat): nat { if fs == [] then last else fs[|fs| - 1].endPos }

  /** After ranges in order, a range that overlaps them, leaves the document or runs backwards makes no difference. */
  lemma {:induction false} MisplacedSkipped(parent: string, fs: seq<Fragment>, bad: Fragment, rest: seq<Fragment>,
                                            bs: seq<string>, body: string, tail: seq<string>, last: nat)
    requires |fs| == |bs| && |rest| == |tail| && last <= |parent| && InOrder(fs, last, |parent|)
    requires bad.startPos < EndOf(fs, last) || bad.endPos > |parent| || bad.startPos > bad.endPos
    ensures Spliced(parent, fs + ([bad] + rest), bs + ([body] + tail), last) == Spliced(parent, fs + rest, bs + tail, last)
    decreases |fs|
  {
    if fs == [] {
      assert fs + ([bad] + rest) == [bad] + rest && fs + rest == rest;
      assert bs + ([body] + tail) == [body] + tail && bs + tail == tail;
      assert ([bad] + rest)[1..] == rest && ([body] + tail)[1..] == tail;
    } else {
      var e := fs[0].endPos;
      MisplacedSkipped(parent, fs[1..], bad, rest, bs[1..], body, tail, e);
      assert (fs + ([bad] + rest))[1..] == fs[1..] + ([bad] + rest) && (fs + rest)[1..] == fs[1..] + rest;
      assert (bs + ([body] + tail))[1..] == bs[1..] + ([body] + tail) && (bs + tail)[1..] == bs[1..] + tail;
    }
  }

  // ---------- The index agrees with the reading ----------

  /** Ranges of a parsed text come out in order and in bounds. */
  lemma {:induction false} LayoutInOrder(d: Doc, off: nat, last: nat, n: nat)
    requires last <= off && off + |Raw(d)| <= n
    ensures InOrder(Layout(d, off), last, n)
  {
    match d
    case End =>
    case Text(_, rest) => LayoutInOrder(rest, off + 1, last, n);
    case Tag(raw, a, i, j, rest) => LayoutInOrder(rest, off + |raw|, off + |raw|, n);
  }

  lemma {:induction false} SpliceRenders(parent: string, d: Doc, off: nat, last: nat, bodies: seq<string>)
    requires last <= off <= |parent| && parent[off..] == Raw(d)
    requires |bodies| == TagCount(d) == |Layout(d, off)|
    ensures Spliced(parent, Layout(d, off), bodies, last) == parent[last..off] + Render(d, bodies)
  {
    hide Spliced;
    match d
    case End => SplicedNone(parent, last);
    case Text(c, rest) =>
      DropMore(parent, off, 1);
      LayoutCount(rest, off + 1);
      SpliceRenders(parent, rest, off + 1, last, bodies);
      TextMoves(parent, last, off, c, Render(rest, bodies));
    case Tag(raw, a, i, j, rest) =>
      DropMore(parent, off, |raw|);
      LayoutCount(rest, off + |raw|);
      SpliceRenders(parent, rest, off + |raw|, off + |raw|, bodies[1..]);
      assert parent[off + |raw|..off + |raw|] == "";
      SplicedTag(parent, Place(raw, a, i, j, off), Layout(rest, off + |raw|), bodies, last);
  }

  lemma SplicedNone(parent: string, last: nat)
    requires last <= |parent|
    ensures Spliced(parent, [], [], last) == parent[last..]
  {
  }

  lemma DropMore(parent: string, off: nat, k: nat)
    requires off + k <= |parent|
    ensures parent[off + k..] == parent[off..][k..]
  {
  }

  lemma TextMoves(parent: string, last: nat, off: nat, c: char, tail: string)
    requires last <= off < |parent| && parent[off] == c
    ensures parent[last..off + 1] + tail == parent[last..off] + ([c] + tail)
  {
    assert parent[last..off + 1] == parent[last..off] + [c];
  }

  lemma SplicedTag(parent: string, f: Fragment, fs: seq<Fragment>, bodies: seq<string>, last: nat)
    requires |bodies| == 1 + |fs| && last <= f.startPos <= f.endPos <= |parent|
    ensures Spliced(parent, [f] + fs, bodies, last)
         == parent[last..f.startPos] + (bodies[0] + Spliced(parent, fs, bodies[1..], f.endPos))
  {
    assert ([f] + fs)[1..] == fs;
  }

  /** Splicing at the offsets the compiler records gives what a left-to-right reader of the tags
      would emit, for every document and every choice of bodies. */
  lemma SpliceAgreesWithReading(doc: string, bodies: seq<string>)
    requires |bodies| == |Frags(doc)|
    ensures TagCount(Parse(doc)) == |Frags(doc)|
    ensures Spliced(doc, Frags(doc), bodies, 0) == Render(Parse(doc), bodies)
  {
    hide Parse;
    ParseLossless(doc);
    LayoutCount(Parse(doc), 0);
    SpliceRenders(doc, Parse(doc), 0, 0, bodies);
  }

  /** The fallback range of a fragment, when it has one, lies strictly inside its tag. */
  ghost predicate InnerInside(f: Fragment) {
    f.innerStartPos == f.innerEndPos == 0 || f.startPos < f.innerStartPos <= f.innerEndPos < f.endPos
  }

  lemma {:induction false} LayoutInner(d: Doc, off: nat)
    requires WellFormed(d)
    ensures forall i :: 0 <= i < |Layout(d, off)| ==>
      var f := Layout(d, off)[i]; f.startPos < f.endPos && InnerInside(f)
  {
    match d
    case End =>
    case Text(_, rest) => LayoutInner(rest, off + 1);
    case Tag(raw, a, i, j, rest) => LayoutInner(rest, off + |raw|);
  }

  /** The index of any document is ordered, disjoint and in bounds, tags are non-empty and
      fallback ranges lie strictly inside their tags. */
  lemma IndexWellPlaced(doc: string)
    ensures InOrder(Frags(doc), 0, |doc|)
    ensures forall i :: 0 <= i < |Frags(doc)| ==>
      Frags(doc)[i].startPos < Frags(doc)[i].endPos && InnerInside(Frags(doc)[i])
  {
    hide Parse;
    ParseLossless(doc);
    ParseWellFormed(doc);
    LayoutInOrder(Parse(doc), 0, 0, |doc|);
    LayoutInner(Parse(doc), 0);
  }

  /** One body per fragment. */
  function Bodies(fs: seq<Fragment>, choose: Fragment -> string): (bs: seq<string>)
    ensures |bs| == |fs| && forall i :: 0 <= i < |fs| ==> bs[i] == choose(fs[i])
  {
    if fs == [] then [] else [choose(fs[0])] + Bodies(fs[1..], choose)
  }

  /** Compile then splice, end to end. Fails exactly on documents that end, or whose wrapper
      content ends, in an open-tag name. */
  method CompileAndSplice(doc: string, choose: Fragment -> string) returns (ok: bool, out: string)
    ensures ok <==> !(EndsInOpenName(doc) || SomeWrapperEndsOpen(doc))
    ensures TagCount(Parse(doc)) == |Frags(doc)|
    ensures ok ==> out == Render(Parse(doc), Bodies(Frags(doc), choose))
  {
    hide Parse, RunsOff, Layout, Spliced, EndsInOpenName, SomeWrapperEndsOpen;
    RunsOffExactly(doc);
    LayoutCount(Parse(doc), 0);
    var r := Scan(doc);
    if r.Panicked? {
      return false, "";
    }
    var bodies := Bodies(r.fragments, choose);
    SpliceAgreesWithReading(doc, bodies);
    var spliced, reserved, skipped := SpliceFragments(doc, r.fragments, bodies);
    return true, spliced;
  }
}
