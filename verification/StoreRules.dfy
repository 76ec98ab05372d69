/** What each operation leaves in the store, key by key. */
module StoreRules {
  import opened KeyBytes
  import opened StoreState
  import opened TestStore
  import Globs = Purge

  /** The entry of `k` is as it was. */
  ghost predicate Same(s: Store, s': Store, k: Key) {
    && (k in s'.meta <==> k in s.meta) && (k in s.meta ==> s'.meta[k] == s.meta[k])
    && (k in s'.variants <==> k in s.variants) && (k in s.variants ==> s'.variants[k] == s.variants[k])
  }

  /** The entry of `k` is gone, or marked with all it holds. */
  ghost predicate Purged(s: Store, s': Store, k: Key, soft: bool) {
    if !soft then k !in s'.meta && k !in s'.variants
    else
      && (k in s'.meta <==> k in s.meta) && (k in s.meta ==> s'.meta[k] == MetaEntry(s.meta[k].meta, true, s.meta[k].expires))
      && (k in s'.variants <==> k in s.variants) && (k in s.variants ==> s'.variants[k] == s.variants[k])
  }

  lemma PurgeSplits(s: Store, ks: set<Key>, soft: bool, k: Key)
    ensures var s' := AfterPurge(s, ks, soft); if k in ks then Purged(s, s', k, soft) else Same(s, s', k)
  {
    hide Pruned;
  }

  /** The operation is meant for the entry: named by its key, linked to the tag, matched by the pattern, or all. */
  ghost predicate Meant(s: Store, op: Op, k: Key) {
    match op
    case Write(_, _, _, _, _, _) => false
    case PurgeKey(j, _) => k == j
    case PurgeTag(t, _) => t in s.tags && k in s.tags[t]
    case PurgePattern(p, _) => k in s.meta && Globs.Matches(Globs.Compile(p), k)
    case Wipe => true
  }

  /** A purge removes or marks exactly the entries it is meant for; a wipe removes all. */
  lemma PurgesExactly(s: Store, op: Op, k: Key)
    requires s.meta.Keys == s.variants.Keys && !op.Write?
    ensures var s' := Apply(s, op);
      if Meant(s, op, k) then Purged(s, s', k, !op.Wipe? && op.soft) else Same(s, s', k)
  {
    hide AfterPurge, Globs.Matches, Globs.Compile;
    match op
    case PurgeKey(j, soft) => PurgeSplits(s, {j}, soft, k);
    case PurgeTag(t, soft) =>
      PurgeSplits(s, Tagged(s, t), soft, k);
      TagOnly(s, t, soft, k);
    case PurgePattern(p, soft) => PurgeSplits(s, Selected(s, p), soft, k);
    case Wipe =>
  }

  /** Dropping the tag from the index touches no entry. */
  lemma TagOnly(s: Store, t: Tag, soft: bool, k: Key)
    ensures var s1, s' := AfterPurge(s, Tagged(s, t), soft), AfterTagPurge(s, t, soft);
      (Purged(s, s1, k, soft) <==> Purged(s, s', k, soft)) && (Same(s, s1, k) <==> Same(s, s', k))
  {
    hide AfterPurge;
  }

  /** A write leaves its metadata unmarked, its variant and body under its name, links for its tags, and everything else as
      it was. */
  lemma WriteExactly(s: Store, op: Op, k: Key, v: Key, t: Tag)
    requires op.Write?
    ensures var s' := Apply(s, op);
      var name := if op.variant.key == [] then "default" else op.variant.key;
      && (k != op.k ==> Same(s, s', k))
      && op.k in s'.meta && s'.meta[op.k].meta == op.meta && !s'.meta[op.k].soft
      && op.k in s'.variants && name in s'.variants[op.k]
      && s'.variants[op.k][name].body == op.body && s'.variants[op.k][name].variant == op.variant.(key := name)
      && (v != name ==>
            && (v in s'.variants[op.k] <==> op.k in s.variants && v in s.variants[op.k])
            && (v in s'.variants[op.k] ==> s'.variants[op.k][v] == s.variants[op.k][v]))
      && (Indexed(s', t, k) <==> Indexed(s, t, k) || (k == op.k && t in op.meta.tags))
  {
  }
}
