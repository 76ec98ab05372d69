/** What the in-memory store holds, and what each of its operations does to it. */
module StoreState {
  import opened KeyBytes
  import EsiScan

  type Key = Bytes
  type Tag = Bytes
  type Time = int

  datatype Option<T> = None | Some(value: T)

  /** Metadata of a primary key, shared by all its variants. */
  datatype Meta = Meta(vary: seq<Bytes>, createdAt: Time, expiresAt: Time, staleUntil: Time,
                       initialAgeSeconds: int, tags: seq<Tag>)

  type Headers = map<Bytes, seq<Bytes>>

  /** One stored representation; `fragments` index the ESI tags of its body. */
  datatype Variant = Variant(key: Key, status: int, headers: Headers, etag: Bytes, lastModified: Time,
                             rawSize: nat, fragments: seq<EsiScan.Fragment>, codec: Bytes)

  datatype MetaEntry = MetaEntry(meta: Meta, soft: bool, expires: Option<Time>)
  datatype VarEntry = VarEntry(variant: Variant, body: Bytes, expires: Option<Time>)

  /** Three maps in step: metadata, variants, and the tag index. */
  datatype Store = Store(meta: map<Key, MetaEntry>, variants: map<Key, map<Key, VarEntry>>, tags: map<Tag, set<Key>>)

  const EMPTY := Store(map[], map[], map[])

  /** Metadata and variants have the same keys, and every live entry is indexed under each of its tags. */
  ghost predicate Valid(s: Store) {
    && s.meta.Keys == s.variants.Keys
    && (forall k :: k in s.variants ==> s.variants[k] != map[])
    && (forall k, t :: k in s.meta && t in s.meta[k].meta.tags ==> Indexed(s, t, k))
    && (forall t :: t in s.tags ==> s.tags[t] != {})
  }

  predicate Indexed(s: Store, t: Tag, k: Key) { t in s.tags && k in s.tags[t] }

  // ---------- Reads ----------

  predicate Expired(e: Option<Time>, now: Time) { e.Some? && now > e.value }

  /** Variants a metadata read reports: strictly before their expiry. */
  predicate Listed(e: Option<Time>, now: Time) { e.None? || now < e.value }

  predicate HasMeta(s: Store, k: Key, now: Time) { k in s.meta && !Expired(s.meta[k].expires, now) }

  predicate HasVariant(s: Store, k: Key, v: Key, now: Time) {
    k in s.variants && v in s.variants[k] && !Expired(s.variants[k][v].expires, now)
  }

  const DEFAULT: Bytes := "default"

  /** The empty variant key stands for the default variant. */
  function Named(v: Key): Key { if v == [] then DEFAULT else v }

  /** The variant appears in what a metadata read returns. */
  predicate ListsVariant(s: Store, k: Key, v: Key, now: Time) {
    k in s.variants && v in s.variants[k] && Listed(s.variants[k][v].expires, now)
  }

  // ---------- Writes ----------

  function Expiry(ttl: int, now: Time): Option<Time> { if ttl > 0 then Some(now + ttl) else None }

  /** Zero time is before every instant. */
  predicate Later(a: Option<Time>, b: Option<Time>) { a.Some? && (b.None? || a.value > b.value) }

  function WithTags(tags: map<Tag, set<Key>>, ts: seq<Tag>, k: Key): map<Tag, set<Key>> {
    map t | t in tags.Keys + (set x | x in ts) ::
      (if t in tags then tags[t] else {}) + (if t in ts then {k} else {})
  }

  function VariantsOf(s: Store, k: Key): map<Key, VarEntry> { if k in s.variants then s.variants[k] else map[] }

  /** Record a variant: the key's metadata is replaced, its soft-purge mark cleared. */
  function AfterSet(s: Store, k: Key, meta: Meta, v: Variant, body: Bytes, ttl: int, now: Time): Store {
    var exp := Expiry(ttl, now);
    var kept := if k in s.meta && !Later(exp, s.meta[k].expires) then s.meta[k].expires else exp;
    Store(s.meta[k := MetaEntry(meta, false, kept)],
          s.variants[k := VariantsOf(s, k)[Named(v.key) := VarEntry(v.(key := Named(v.key)), body, exp)]],
          WithTags(s.tags, meta.tags, k))
  }

  // ---------- Purges ----------

  /** Keys that stay indexed under `t` when `ks` are removed. */
  function Kept(s: Store, t: Tag, ks: set<Key>): set<Key>
    requires t in s.tags
  {
    set k | k in s.tags[t] && !(k in ks && k in s.meta && t in s.meta[k].meta.tags)
  }

  function Pruned(s: Store, ks: set<Key>): map<Tag, set<Key>> {
    map t | t in s.tags && Kept(s, t, ks) != {} :: Kept(s, t, ks)
  }

  /** Remove entries and the index references their current tags account for. */
  function Removed(s: Store, ks: set<Key>): Store {
    Store(s.meta - ks, s.variants - ks, Pruned(s, ks))
  }

  /** Mark entries stale, keeping their payload. */
  function Marked(s: Store, ks: set<Key>): Store {
    s.(meta := map k | k in s.meta :: if k in ks then s.meta[k].(soft := true) else s.meta[k])
  }

  function AfterPurge(s: Store, ks: set<Key>, soft: bool): Store {
    if soft then Marked(s, ks) else Removed(s, ks)
  }

  function Tagged(s: Store, t: Tag): set<Key> { if t in s.tags then s.tags[t] else {} }

  /** Purge by tag: everything the index links to the tag; a hard purge also drops the tag. */
  function AfterTagPurge(s: Store, t: Tag, soft: bool): Store {
    var s' := AfterPurge(s, Tagged(s, t), soft);
    if soft then s' else s'.(tags := s'.tags - {t})
  }

  // ---------- Laws ----------

  lemma SetKeepsValid(s: Store, k: Key, meta: Meta, v: Variant, body: Bytes, ttl: int, now: Time)
    requires Valid(s)
    ensures Valid(AfterSet(s, k, meta, v, body, ttl, now))
  {
    var s' := AfterSet(s, k, meta, v, body, ttl, now);
    assert Named(v.key) in s'.variants[k];
    forall j, t | j in s'.meta && t in s'.meta[j].meta.tags ensures Indexed(s', t, j) {
      if j != k { assert Indexed(s, t, j); }
    }
    forall t | t in s'.tags ensures s'.tags[t] != {} {
      if t in meta.tags { assert k in s'.tags[t]; }
    }
  }

  lemma RemovedKeepsValid(s: Store, ks: set<Key>)
    requires Valid(s)
    ensures Valid(Removed(s, ks))
  {
    var s' := Removed(s, ks);
    forall j, t | j in s'.meta && t in s'.meta[j].meta.tags ensures Indexed(s', t, j) {
      assert Indexed(s, t, j);
      assert j in Kept(s, t, ks);
    }
  }

  lemma MarkedKeepsValid(s: Store, ks: set<Key>)
    requires Valid(s)
    ensures Valid(Marked(s, ks))
  {
    var s' := Marked(s, ks);
    assert s'.meta.Keys == s.meta.Keys;
    forall j, t | j in s'.meta && t in s'.meta[j].meta.tags ensures Indexed(s', t, j) { assert Indexed(s, t, j); }
  }

  /** After a hard tag purge no live entry carries the tag, and the index is sound. */
  lemma TagPurgeComplete(s: Store, t: Tag, soft: bool)
    requires Valid(s)
    ensures var s' := AfterTagPurge(s, t, soft);
      && Valid(s')
      && (!soft ==> forall k :: k in s'.meta ==> t !in s'.meta[k].meta.tags)
      && (soft ==> forall k :: k in s'.meta && t in s'.meta[k].meta.tags ==> s'.meta[k].soft)
  {
    var ks := Tagged(s, t);
    forall k | k in s.meta && t in s.meta[k].meta.tags ensures k in ks { assert Indexed(s, t, k); }
    if soft {
      MarkedKeepsValid(s, ks);
    } else {
      RemovedKeepsValid(s, ks);
      var s1, s' := Removed(s, ks), AfterTagPurge(s, t, soft);
      forall j, u | j in s'.meta && u in s'.meta[j].meta.tags ensures Indexed(s', u, j) { assert Indexed(s1, u, j); }
    }
  }

  /** A purge removes or marks exactly the live entries among its keys and touches no other entry. */
  lemma PurgeTouches(s: Store, ks: set<Key>, soft: bool)
    ensures var s' := AfterPurge(s, ks, soft);
      && s'.meta.Keys == (if soft then s.meta.Keys else s.meta.Keys - ks)
      && (soft ==> s'.variants == s.variants && s'.tags == s.tags)
      && (soft ==> forall k :: k in s.meta && k in ks ==> s'.meta[k] == s.meta[k].(soft := true))
      && (forall k :: k in s.meta && k !in ks ==> s'.meta[k] == s.meta[k])
      && (forall k :: k in s.variants && k !in ks ==> k in s'.variants && s'.variants[k] == s.variants[k])
  {
  }

  lemma HardPurgeCount(s: Store, ks: set<Key>)
    ensures |s.meta.Keys| == |Removed(s, ks).meta.Keys| + |s.meta.Keys * ks|
  {
    hide Pruned;
    var kept, gone := s.meta.Keys - ks, s.meta.Keys * ks;
    assert kept + gone == s.meta.Keys && kept * gone == {};
    assert Removed(s, ks).meta.Keys == kept;
  }

  /** The index only forgets a key when it is removed under its tags at that time, so an entry
      rewritten without a tag stays linked to it. */
  ghost predicate Stale(s: Store, t: Tag, k: Key) {
    Indexed(s, t, k) && k in s.meta && t !in s.meta[k].meta.tags
  }

  /** Rewriting an entry without one of its tags leaves such a link: a later purge of the old tag
      removes the entry although it no longer carries it. */
  lemma RetaggingLeavesStaleLink(s: Store, k: Key, m1: Meta, m2: Meta, v: Variant, body: Bytes, ttl: int, now: Time, t: Tag)
    requires t in m1.tags && t !in m2.tags
    ensures var s2 := AfterSet(AfterSet(s, k, m1, v, body, ttl, now), k, m2, v, body, ttl, now);
      && Stale(s2, t, k)
      && k in s2.meta && k !in AfterTagPurge(s2, t, false).meta
  {
    var s1 := AfterSet(s, k, m1, v, body, ttl, now);
    assert k in s1.tags[t];
  }
}
