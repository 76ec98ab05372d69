/** What a store holds, told from the operations that made it: tag links, current tags, purge marks. */
module StoreHistory {
  import opened KeyBytes
  import opened StoreState
  import opened TestStore

  /** The store before the n-th operation. */
  function At(ops: seq<Op>, n: nat): Store
    requires n <= |ops|
  {
    ApplyAll(EMPTY, ops[..n])
  }

  lemma AtStep(ops: seq<Op>, n: nat)
    requires n < |ops|
    ensures At(ops, n + 1) == Apply(At(ops, n), ops[n])
  {
    hide Apply;
    assert ops[..n + 1][..n] == ops[..n];
  }

  lemma AtEnd(ops: seq<Op>)
    ensures At(ops, |ops|) == ApplyAll(EMPTY, ops)
  {
    assert ops[..|ops|] == ops;
  }

  lemma AtValid(ops: seq<Op>, n: nat)
    requires n <= |ops|
    ensures Valid(At(ops, n))
  {
    RunsKeepValid(ops[..n]);
  }

  // ---------- Tag links ----------

  predicate Writes(op: Op, k: Key) { op.Write? && op.k == k }

  predicate WritesWith(op: Op, t: Tag, k: Key) { Writes(op, k) && t in op.meta.tags }

  /** The operation forgets that `k` was tagged `t`: a wipe, a hard purge of the tag, or a hard removal of the
      key while it carries the tag. */
  predicate Cuts(s: Store, op: Op, t: Tag, k: Key) {
    || op.Wipe?
    || (op.PurgeTag? && op.tag == t && !op.soft)
    || (k in s.meta && t in s.meta[k].meta.tags && k !in Apply(s, op).meta)
  }

  lemma PurgeLinks(s: Store, ks: set<Key>, soft: bool, t: Tag, k: Key)
    requires Valid(s)
    ensures Indexed(AfterPurge(s, ks, soft), t, k) <==>
      Indexed(s, t, k) && !(k in s.meta && t in s.meta[k].meta.tags && k !in AfterPurge(s, ks, soft).meta)
  {
    if !soft && Indexed(s, t, k) {
      assert k in Kept(s, t, ks) <==> !(k in ks && k in s.meta && t in s.meta[k].meta.tags);
    }
  }

  /** One operation: a link appears with a tagged write and goes with a cut. */
  lemma LinkStep(s: Store, op: Op, t: Tag, k: Key)
    requires Valid(s)
    ensures Indexed(Apply(s, op), t, k) <==> WritesWith(op, t, k) || (Indexed(s, t, k) && !Cuts(s, op, t, k))
  {
    hide Valid, AfterPurge, Selected;
    match op
    case Write(j, m, v, body, ttl, now) =>
    case PurgeKey(j, soft) => PurgeLinks(s, {j}, soft, t, k);
    case PurgeTag(u, soft) => PurgeLinks(s, Tagged(s, u), soft, t, k);
    case PurgePattern(p, soft) => PurgeLinks(s, Selected(s, p), soft, t, k);
    case Wipe =>
  }

  /** The i-th operation linked `k` to `t`, and none of those up to the n-th cut the link. */
  ghost predicate LinkedSince(ops: seq<Op>, i: nat, n: nat, t: Tag, k: Key)
    requires i < n <= |ops|
  {
    WritesWith(ops[i], t, k) && forall j :: i < j < n ==> !Cuts(At(ops, j), ops[j], t, k)
  }

  /** A key is linked to a tag exactly when some write carried the tag and nothing cut the link since. */
  lemma {:induction false} LinkedExactly(ops: seq<Op>, n: nat, t: Tag, k: Key)
    requires n <= |ops|
    ensures Indexed(At(ops, n), t, k) <==> exists i :: 0 <= i < n && LinkedSince(ops, i, n, t, k)
  {
    hide Apply, Valid, Cuts, WritesWith;
    if n == 0 {
      NothingLinked(ops, t, k);
    } else {
      var m := n - 1;
      LinkedExactly(ops, m, t, k);
      AtValid(ops, m);
      AtStep(ops, m);
      LinkStep(At(ops, m), ops[m], t, k);
      hide At;
      if WritesWith(ops[m], t, k) {
        assert LinkedSince(ops, m, n, t, k);
      }
      forall i | 0 <= i < m ensures LinkedSince(ops, i, n, t, k) <==> LinkedSince(ops, i, m, t, k) && !Cuts(At(ops, m), ops[m], t, k) {}
    }
  }

  lemma StartsEmpty(ops: seq<Op>)
    ensures At(ops, 0) == EMPTY
  {
    assert ops[..0] == [];
  }

  lemma NothingLinked(ops: seq<Op>, t: Tag, k: Key)
    ensures !Indexed(At(ops, 0), t, k)
  {
    assert ops[..0] == [];
  }

  // ---------- Current entries ----------

  lemma KeepMeta(s: Store, op: Op, k: Key)
    requires k in Apply(s, op).meta
    ensures Writes(op, k) ==> Apply(s, op).meta[k].meta == op.meta
    ensures !Writes(op, k) ==> k in s.meta && Apply(s, op).meta[k].meta == s.meta[k].meta
  {
    hide Pruned, Selected, WithTags;
  }

  /** The i-th operation is the last write of `k` before the n-th. */
  ghost predicate LastWriteAt(ops: seq<Op>, i: nat, n: nat, k: Key)
    requires i < n <= |ops|
  {
    Writes(ops[i], k) && forall j :: i < j < n ==> !Writes(ops[j], k)
  }

  /** A live entry is what the last write of its key made it. */
  lemma {:induction false} LiveIsLastWrite(ops: seq<Op>, n: nat, k: Key) returns (i: nat)
    requires n <= |ops| && k in At(ops, n).meta
    ensures i < n && LastWriteAt(ops, i, n, k) && At(ops, n).meta[k].meta == ops[i].meta
  {
    hide Apply, Valid;
    StartsEmpty(ops);
    var m := n - 1;
    AtStep(ops, m);
    KeepMeta(At(ops, m), ops[m], k);
    if Writes(ops[m], k) {
      i := m;
    } else {
      i := LiveIsLastWrite(ops, m, k);
    }
  }

  /** A link is stale exactly when the entry is live, its last write lacks the tag, and an earlier write of the
      key carried it with no wipe, no hard purge of the tag and no hard removal under the tag in between. The
      earlier write may belong to a former life of the entry. */
  lemma StaleExactly(ops: seq<Op>, t: Tag, k: Key)
    ensures Stale(ApplyAll(EMPTY, ops), t, k) <==>
      && k in ApplyAll(EMPTY, ops).meta
      && (exists i :: 0 <= i < |ops| && LastWriteAt(ops, i, |ops|, k) && t !in ops[i].meta.tags)
      && (exists i :: 0 <= i < |ops| && LinkedSince(ops, i, |ops|, t, k))
  {
    hide ApplyAll, LinkedSince;
    var n := |ops|;
    AtEnd(ops);
    LinkedExactly(ops, n, t, k);
    if k in At(ops, n).meta {
      var i := LiveIsLastWrite(ops, n, k);
      forall j | 0 <= j < n && LastWriteAt(ops, j, n, k) ensures j == i {}
    }
  }

  /** In terms of the operations: the key's last write lacks the tag, an earlier uncut one carried it. */
  ghost predicate Outdated(ops: seq<Op>, t: Tag, k: Key) {
    && (exists i :: 0 <= i < |ops| && LastWriteAt(ops, i, |ops|, k) && t !in ops[i].meta.tags)
    && (exists i :: 0 <= i < |ops| && LinkedSince(ops, i, |ops|, t, k))
  }

  /** After any run, a purge of a tag hits exactly the entries that carry it if and only if no live entry is
      outdated for it. */
  lemma TagPurgeExact(ops: seq<Op>, t: Tag)
    ensures var s := ApplyAll(EMPTY, ops);
      (forall k :: k in s.meta ==> (k in Tagged(s, t) <==> t in s.meta[k].meta.tags))
        <==> !exists k :: k in s.meta && Outdated(ops, t, k)
  {
    hide ApplyAll, Valid, LastWriteAt, LinkedSince;
    var s := ApplyAll(EMPTY, ops);
    RunsKeepValid(ops);
    forall k ensures Stale(s, t, k) <==> k in s.meta && Outdated(ops, t, k) { StaleExactly(ops, t, k); }
    hide Outdated;
    StaleMeansHitWrongly(s, t);
  }

  lemma StaleMeansHitWrongly(s: Store, t: Tag)
    requires Valid(s)
    ensures (forall k :: k in s.meta ==> (k in Tagged(s, t) <==> t in s.meta[k].meta.tags)) <==> !exists k :: Stale(s, t, k)
  {
    forall k | k in s.meta && t in s.meta[k].meta.tags ensures k in Tagged(s, t) { assert Indexed(s, t, k); }
    forall k | k in s.meta && k in Tagged(s, t) && t !in s.meta[k].meta.tags ensures Stale(s, t, k) {}
    forall k | Stale(s, t, k) ensures k in s.meta && k in Tagged(s, t) && t !in s.meta[k].meta.tags {}
  }

  /** A stale link outlives the entry: removing the key and writing it anew without the tag keeps it, although
      that life of the entry never carried the tag. */
  lemma FormerLifeLinks(s: Store, k: Key, m: Meta, v: Variant, body: Bytes, ttl: int, now: Time, t: Tag)
    requires Valid(s) && Stale(s, t, k) && t !in m.tags
    ensures Stale(Apply(Apply(s, PurgeKey(k, false)), Write(k, m, v, body, ttl, now)), t, k)
  {
    hide Valid, Removed, WithTags;
    var gone := PurgeKey(k, false);
    ApplyKeepsValid(s, gone);
    LinkStep(s, gone, t, k);
    LinkStep(Apply(s, gone), Write(k, m, v, body, ttl, now), t, k);
  }

  // ---------- Purge marks ----------

  /** The operation marks the entry of `k`. */
  predicate Marks(s: Store, op: Op, k: Key) {
    match op
    case PurgeKey(j, soft) => soft && j == k
    case PurgeTag(t, soft) => soft && k in Tagged(s, t)
    case PurgePattern(p, soft) => soft && k in Selected(s, p)
    case _ => false
  }

  lemma MarkStep(s: Store, op: Op, k: Key)
    requires k in Apply(s, op).meta
    ensures Apply(s, op).meta[k].soft <==> !Writes(op, k) && k in s.meta && (s.meta[k].soft || Marks(s, op, k))
  {
    hide Pruned, Selected, WithTags;
  }

  /** The i-th operation marks `k`, and none of those up to the n-th writes it. */
  ghost predicate MarkedSince(ops: seq<Op>, i: nat, n: nat, k: Key)
    requires i < n <= |ops|
  {
    Marks(At(ops, i), ops[i], k) && forall j :: i < j < n ==> !Writes(ops[j], k)
  }

  /** A live entry is marked exactly when a soft purge hit it after the last write of any of its variants. */
  lemma {:induction false} MarkedExactly(ops: seq<Op>, n: nat, k: Key)
    requires n <= |ops| && k in At(ops, n).meta
    ensures At(ops, n).meta[k].soft <==> exists i :: 0 <= i < n && MarkedSince(ops, i, n, k)
  {
    hide Apply, Valid, Marks, ApplyAll;
    StartsEmpty(ops);
    var m := n - 1;
    AtStep(ops, m);
    MarkStep(At(ops, m), ops[m], k);
    KeepMeta(At(ops, m), ops[m], k);
    hide At;
    if Writes(ops[m], k) {
      NoMark(At(ops, m), ops[m], k);
      forall i | 0 <= i < n ensures !MarkedSince(ops, i, n, k) {}
    } else {
      MarkedExactly(ops, m, k);
      forall i | 0 <= i < m ensures MarkedSince(ops, i, n, k) <==> MarkedSince(ops, i, m, k) {}
      assert MarkedSince(ops, m, n, k) <==> Marks(At(ops, m), ops[m], k);
    }
  }

  lemma NoMark(s: Store, op: Op, k: Key)
    requires Writes(op, k)
    ensures !Marks(s, op, k)
  {
  }
}
