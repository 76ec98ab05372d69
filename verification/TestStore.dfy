/** The in-memory store: three maps updated in place, proved against what each operation should do. */
module TestStore {
  import opened KeyBytes
  import opened StoreState
  import Globs = Purge

  datatype Found = Found(meta: Meta, soft: bool, variants: map<Key, Variant>)

  /** An answer, or the error a closed store gives. */
  datatype Answer<T> = Done(value: T) | Closed

  // ---------- Removing one key at a time ----------

  /** The index after `k` was dropped from the tags in `ts`, empty tags removed. */
  function Unlinked(tags: map<Tag, set<Key>>, ts: seq<Tag>, k: Key): map<Tag, set<Key>> {
    map t | t in tags && Left(tags[t], t, ts, k) != {} :: Left(tags[t], t, ts, k)
  }

  function Left(ks: set<Key>, t: Tag, ts: seq<Tag>, k: Key): set<Key> { if t in ts then ks - {k} else ks }

  lemma UnlinkNone(tags: map<Tag, set<Key>>, k: Key)
    requires forall t :: t in tags ==> tags[t] != {}
    ensures Unlinked(tags, [], k) == tags
  {
  }

  lemma UnlinkOne(tags: map<Tag, set<Key>>, ts: seq<Tag>, t: Tag, k: Key)
    ensures var was, now := Unlinked(tags, ts, k), Unlinked(tags, ts + [t], k);
      now == if t !in was then was else if was[t] - {k} == {} then was - {t} else was[t := was[t] - {k}]
  {
    var was, now := Unlinked(tags, ts, k), Unlinked(tags, ts + [t], k);
    forall u | u in tags ensures Left(tags[u], u, ts + [t], k) == if u == t then Left(tags[u], u, ts, k) - {k} else Left(tags[u], u, ts, k) {
      assert u in ts + [t] <==> u in ts || u == t;
    }
  }

  lemma UnlinkedIsPruned(s: Store, k: Key)
    requires Valid(s) && k in s.meta
    ensures Unlinked(s.tags, s.meta[k].meta.tags, k) == Removed(s, {k}).tags
  {
    forall t | t in s.tags ensures Left(s.tags[t], t, s.meta[k].meta.tags, k) == Kept(s, t, {k}) {}
  }

  lemma KeptOneMore(s: Store, done: set<Key>, k: Key, t: Tag)
    requires t in s.tags && Kept(s, t, done) != {} && k in s.meta && k !in done
    ensures t in Removed(s, done).tags && Kept(Removed(s, done), t, {k}) == Kept(s, t, done + {k})
  {
    assert Removed(s, done).tags[t] == Kept(s, t, done);
    assert Removed(s, done).meta[k] == s.meta[k];
  }

  lemma KeptLess(s: Store, done: set<Key>, k: Key, t: Tag)
    requires t in s.tags && Kept(s, t, done + {k}) != {}
    ensures Kept(s, t, done) != {}
  {
    var j :| j in Kept(s, t, done + {k});
    assert j in Kept(s, t, done);
  }

  lemma PrunedOneMore(s: Store, done: set<Key>, k: Key)
    requires k in s.meta && k !in done
    ensures Pruned(Removed(s, done), {k}) == Pruned(s, done + {k})
  {
    hide Kept;
    var s1 := Removed(s, done);
    forall t | t in s1.tags ensures Kept(s1, t, {k}) == Kept(s, t, done + {k}) { KeptOneMore(s, done, k, t); }
    forall t | t in s.tags && Kept(s, t, done + {k}) != {} ensures t in s1.tags { KeptLess(s, done, k, t); }
  }

  lemma PrunedAbsent(s: Store, done: set<Key>, k: Key)
    requires k !in s.meta
    ensures Pruned(s, done + {k}) == Pruned(s, done)
  {
    forall t | t in s.tags ensures Kept(s, t, done + {k}) == Kept(s, t, done) {}
  }

  /** Removing keys one by one is removing them together. */
  lemma RemoveOneMore(s: Store, done: set<Key>, k: Key)
    requires Valid(s) && k !in done
    ensures Removed(s, done + {k}) == if k in s.meta then Removed(Removed(s, done), {k}) else Removed(s, done)
  {
    var keys := s.meta.Keys;
    assert keys == s.variants.Keys;
    hide Pruned, Valid;
    if k in s.meta {
      PrunedOneMore(s, done, k);
      assert s.meta - (done + {k}) == s.meta - done - {k};
      assert s.variants - (done + {k}) == s.variants - done - {k};
    } else {
      PrunedAbsent(s, done, k);
      assert s.meta - (done + {k}) == s.meta - done;
      assert s.variants - (done + {k}) == s.variants - done;
    }
  }

  lemma RemoveNone(s: Store)
    requires Valid(s)
    ensures Removed(s, {}) == s && Marked(s, {}) == s
  {
    forall t | t in s.tags ensures Kept(s, t, {}) == s.tags[t] {}
    assert Pruned(s, {}) == s.tags;
    assert s.meta - {} == s.meta && s.variants - {} == s.variants;
    assert Marked(s, {}).meta == s.meta;
  }

  lemma MarkOneMore(s: Store, done: set<Key>, k: Key)
    ensures Marked(s, done + {k}) == if k in s.meta then
        Marked(s, done).(meta := Marked(s, done).meta[k := Marked(s, done).meta[k].(soft := true)]) else Marked(s, done)
  {
    var s1, s2 := Marked(s, done), Marked(s, done + {k});
    if k in s.meta {
      assert s2.meta == s1.meta[k := s1.meta[k].(soft := true)];
    } else {
      assert s2.meta == s1.meta;
    }
  }

  /** Marking one live entry in place. */
  lemma MarkFirst(s: Store, k: Key)
    requires Valid(s) && k in s.meta
    ensures Marked(s, {k}) == s.(meta := s.meta[k := s.meta[k].(soft := true)]) && Valid(Marked(s, {k}))
  {
    MarkedKeepsValid(s, {k});
    assert Marked(s, {k}).meta == s.meta[k := s.meta[k].(soft := true)];
  }

  /** How many of the keys have an entry. */
  ghost function Hits(s: Store, ks: set<Key>): nat { |s.meta.Keys * ks| }

  lemma CountOneMore(live: set<Key>, done: set<Key>, k: Key)
    requires k !in done
    ensures |live * (done + {k})| == |live * done| + if k in live then 1 else 0
  {
    assert live * (done + {k}) == live * done + if k in live then {k} else {};
  }

  lemma PurgeFirst(s: Store, k: Key, soft: bool)
    requires Valid(s) && k in s.meta
    ensures Valid(AfterPurge(s, {k}, soft))
    ensures AfterPurge(s, {k}, soft)
         == if soft then s.(meta := s.meta[k := s.meta[k].(soft := true)]) else Removed(s, {k})
  {
    hide Valid, Removed, Marked;
    MarkFirst(s, k);
    RemovedKeepsValid(s, {k});
  }

  lemma PurgeNone(s: Store, soft: bool)
    requires Valid(s)
    ensures AfterPurge(s, {}, soft) == s && Hits(s, {}) == 0
  {
    assert s.meta.Keys * {} == {};
    RemoveNone(s);
  }

  /** One step of a purge over keys. */
  lemma PurgeOneMore(s: Store, done: set<Key>, k: Key, soft: bool)
    requires Valid(s) && k !in done
    ensures Valid(AfterPurge(s, done, soft))
    ensures k in AfterPurge(s, done, soft).meta <==> k in s.meta
    ensures AfterPurge(s, done + {k}, soft)
         == if k in s.meta then AfterPurge(AfterPurge(s, done, soft), {k}, soft) else AfterPurge(s, done, soft)
    ensures Hits(s, done + {k}) == Hits(s, done) + if k in s.meta then 1 else 0
  {
    hide Valid, Removed, Marked;
    PurgeTouches(s, done, soft);
    if soft {
      MarkedKeepsValid(s, done);
      MarkOneMore(s, done, k);
      if k in s.meta { MarkFirst(Marked(s, done), k); }
    } else {
      RemovedKeepsValid(s, done);
      RemoveOneMore(s, done, k);
    }
    CountOneMore(s.meta.Keys, done, k);
  }

  function Selected(s: Store, pattern: Bytes): set<Key> {
    set k | k in s.meta && Globs.Matches(Globs.Compile(pattern), k)
  }

  class MemStore {
    var closed: bool
    var meta: map<Key, MetaEntry>
    var variants: map<Key, map<Key, VarEntry>>
    var tagIndex: map<Tag, set<Key>>

    function Now(): Store
      reads this
    {
      Store(meta, variants, tagIndex)
    }

    constructor ()
      ensures Now() == EMPTY && Valid(Now()) && !closed
    {
      closed, meta, variants, tagIndex := false, map[], map[], map[];
    }

    /** Metadata with the variants still listed; the expiry is judged at `now`, the listing at `later`. */
    method GetMeta(k: Key, now: Time, later: Time) returns (r: Answer<Option<Found>>)
      requires Valid(Now())
      ensures closed <==> r.Closed?
      ensures !closed ==> (r.value.Some? <==> HasMeta(Now(), k, now))
      ensures !closed && r.value.Some? ==>
        && r.value.value.meta == meta[k].meta && r.value.value.soft == meta[k].soft
        && (forall v :: v in r.value.value.variants <==> ListsVariant(Now(), k, v, later))
        && (forall v :: v in r.value.value.variants ==> r.value.value.variants[v] == variants[k][v].variant)
    {
      if closed { return Closed; }
      if k !in meta { return Done(None); }
      var entry := meta[k];
      if Expired(entry.expires, now) { return Done(None); }
      var todo := variants[k].Keys;
      var listed: map<Key, Variant> := map[];
      while todo != {}
        decreases |todo|
        invariant todo <= variants[k].Keys
        invariant forall v :: v in listed <==> v !in todo && ListsVariant(Now(), k, v, later)
        invariant forall v :: v in listed ==> listed[v] == variants[k][v].variant
      {
        var v :| v in todo;
        todo := todo - {v};
        if Listed(variants[k][v].expires, later) { listed := listed[v := variants[k][v].variant]; }
      }
      return Done(Some(Found(entry.meta, entry.soft, listed)));
    }

    method GetVariant(k: Key, vk: Key, now: Time) returns (r: Answer<Option<(Variant, Bytes)>>)
      ensures closed <==> r.Closed?
      ensures !closed ==> (r.value.Some? <==> HasVariant(Now(), k, Named(vk), now))
      ensures !closed && r.value.Some? ==>
        r.value.value == (variants[k][Named(vk)].variant, variants[k][Named(vk)].body)
    {
      var name := if vk == [] then DEFAULT else vk;
      if closed { return Closed; }
      if k !in variants || name !in variants[k] { return Done(None); }
      var entry := variants[k][name];
      if Expired(entry.expires, now) { return Done(None); }
      return Done(Some((entry.variant, entry.body)));
    }

    /** Add a key to the index of each tag. */
    method LinkTags(ts: seq<Tag>, k: Key)
      modifies this`tagIndex
      ensures tagIndex == WithTags(old(tagIndex), ts, k)
    {
      hide WithTags;
      ghost var was := tagIndex;
      var i := 0;
      LinkNone(tagIndex, k);
      assert ts[..0] == [];
      while i < |ts|
        invariant 0 <= i <= |ts|
        invariant tagIndex == WithTags(was, ts[..i], k)
      {
        LinkOneMore(was, ts[..i], ts[i], k);
        assert ts[..i + 1] == ts[..i] + [ts[i]];
        var t := ts[i];
        if t !in tagIndex { tagIndex := tagIndex[t := {}]; }
        tagIndex := tagIndex[t := tagIndex[t] + {k}];
        i := i + 1;
      }
      assert ts[..i] == ts;
    }

    method SetVariant(k: Key, m: Meta, v: Variant, body: Bytes, ttl: int, now: Time) returns (ok: bool)
      requires Valid(Now())
      modifies this`meta, this`variants, this`tagIndex
      ensures ok == !closed && Valid(Now())
      ensures Now() == if ok then AfterSet(old(Now()), k, m, v, body, ttl, now) else old(Now())
    {
      hide Valid, WithTags;
      if closed { return false; }
      SetKeepsValid(Now(), k, m, v, body, ttl, now);
      ghost var want := AfterSet(Now(), k, m, v, body, ttl, now);
      var exp := if ttl > 0 then Some(now + ttl) else None;
      var entry := MetaEntry(m, false, exp);
      if k in meta && !Later(exp, meta[k].expires) { entry := entry.(expires := meta[k].expires); }
      meta := meta[k := entry];
      LinkTags(m.tags, k);
      var held := if k in variants then variants[k] else map[];
      var name := if v.key != [] then v.key else DEFAULT;
      variants := variants[k := held[name := VarEntry(v.(key := name), body, exp)]];
      assert meta == want.meta && variants == want.variants && tagIndex == want.tags;
      assert Now() == want;
      return true;
    }

    /** Drop a key from all three maps. */
    method RemoveEntry(k: Key)
      requires Valid(Now()) && k in meta
      modifies this`meta, this`variants, this`tagIndex
      ensures Now() == Removed(old(Now()), {k}) && Valid(Now())
    {
      hide Unlinked, Pruned;
      ghost var was := Now();
      var ts := meta[k].meta.tags;
      var i := 0;
      UnlinkNone(tagIndex, k);
      assert ts[..0] == [];
      while i < |ts|
        invariant 0 <= i <= |ts|
        invariant tagIndex == Unlinked(was.tags, ts[..i], k)
        invariant meta == was.meta && variants == was.variants
      {
        UnlinkOne(was.tags, ts[..i], ts[i], k);
        assert ts[..i + 1] == ts[..i] + [ts[i]];
        var t := ts[i];
        if t in tagIndex {
          var keys := tagIndex[t] - {k};
          tagIndex := if keys == {} then tagIndex - {t} else tagIndex[t := keys];
        }
        i := i + 1;
      }
      assert ts[..i] == ts;
      UnlinkedIsPruned(was, k);
      RemovedKeepsValid(was, {k});
      meta := meta - {k};
      variants := variants - {k};
    }

    /** Remove or mark one entry if it is there. */
    method PurgeEntry(k: Key, soft: bool) returns (n: nat)
      requires Valid(Now())
      modifies this`meta, this`variants, this`tagIndex
      ensures Valid(Now()) && n == if k in old(meta) then 1 else 0
      ensures Now() == if k in old(meta) then AfterPurge(old(Now()), {k}, soft) else old(Now())
    {
      hide Valid, Removed, Marked, AfterPurge;
      if k !in meta { return 0; }
      PurgeFirst(Now(), k, soft);
      if soft {
        meta := meta[k := meta[k].(soft := true)];
      } else {
        RemoveEntry(k);
      }
      return 1;
    }

    /** Returns how many entries were removed or marked. */
    method Purge(k: Key, soft: bool) returns (r: Answer<nat>)
      requires Valid(Now())
      modifies this`meta, this`variants, this`tagIndex
      ensures Valid(Now()) && (closed <==> r.Closed?)
      ensures Now() == if closed then old(Now()) else AfterPurge(old(Now()), {k}, soft)
      ensures !closed ==> r.value == Hits(old(Now()), {k})
    {
      hide Valid, AfterPurge, Hits;
      if closed { return Closed; }
      PurgeOneMore(Now(), {}, k, soft);
      PurgeNone(Now(), soft);
      assert {} + {k} == {k};
      var n := PurgeEntry(k, soft);
      return Done(n);
    }

    /** Purge the given keys in any order, skipping those that are gone. */
    method PurgeKeys(keys: set<Key>, soft: bool) returns (count: nat)
      requires Valid(Now())
      modifies this`meta, this`variants, this`tagIndex
      ensures Valid(Now()) && Now() == AfterPurge(old(Now()), keys, soft)
      ensures count == Hits(old(Now()), keys)
    {
      hide Valid, AfterPurge, Hits;
      ghost var was, done := Now(), {};
      var todo := keys;
      count := 0;
      PurgeNone(was, soft);
      while todo != {}
        decreases |todo|
        invariant done + todo == keys && done !! todo && Valid(was) && Valid(Now())
        invariant Now() == AfterPurge(was, done, soft)
        invariant count == Hits(was, done)
      {
        var k :| k in todo;
        PurgeOneMore(was, done, k, soft);
        todo, done := todo - {k}, done + {k};
        var n := PurgeEntry(k, soft);
        count := count + n;
      }
      assert done == keys;
    }

    method PurgeByTag(t: Tag, soft: bool) returns (r: Answer<nat>)
      requires Valid(Now())
      modifies this`meta, this`variants, this`tagIndex
      ensures Valid(Now()) && (closed <==> r.Closed?)
      ensures Now() == if closed then old(Now()) else AfterTagPurge(old(Now()), t, soft)
      ensures !closed ==> r.value == Hits(old(Now()), Tagged(old(Now()), t))
    {
      hide Valid, AfterPurge;
      if closed { return Closed; }
      ghost var was := Now();
      TagPurgeComplete(was, t, soft);
      if t !in tagIndex || tagIndex[t] == {} {
        PurgeNone(was, soft);
        NothingTagged(was, t);
        return Done(0);
      }
      assert tagIndex[t] == Tagged(was, t);
      var n := PurgeKeys(tagIndex[t], soft);
      if !soft { tagIndex := tagIndex - {t}; }
      return Done(n);
    }

    method PurgeByPattern(pattern: Bytes, soft: bool) returns (r: Answer<nat>)
      requires Valid(Now())
      modifies this`meta, this`variants, this`tagIndex
      ensures Valid(Now()) && (closed <==> r.Closed?)
      ensures Now() == if closed then old(Now()) else AfterPurge(old(Now()), Selected(old(Now()), pattern), soft)
      ensures !closed ==> r.value == |Selected(old(Now()), pattern)|
    {
      hide Valid, Removed, Marked, Globs.Compile, Globs.Matches;
      if closed { return Closed; }
      ghost var was := Now();
      var todo, matching: set<Key> := meta.Keys, {};
      while todo != {}
        decreases |todo|
        invariant todo <= meta.Keys
        invariant Now() == was
        invariant matching == set k | k in Selected(was, pattern) && k !in todo
      {
        var k :| k in todo;
        todo := todo - {k};
        var ok := Globs.MatchGlob(pattern, k);
        if ok { matching := matching + {k}; }
      }
      assert matching == Selected(was, pattern);
      assert meta.Keys * matching == matching;
      var n := PurgeKeys(matching, soft);
      return Done(n);
    }

    method PurgeAll() returns (r: Answer<nat>)
      modifies this`meta, this`variants, this`tagIndex
      ensures closed <==> r.Closed?
      ensures Now() == if closed then old(Now()) else EMPTY
      ensures !closed ==> r.value == |old(meta)|
    {
      if closed { return Closed; }
      r := Done(|meta|);
      meta, variants, tagIndex := map[], map[], map[];
    }
  }

  lemma NothingTagged(s: Store, t: Tag)
    requires Valid(s) && Tagged(s, t) == {}
    ensures t !in s.tags && s.tags - {t} == s.tags
  {
  }

  lemma LinkNone(tags: map<Tag, set<Key>>, k: Key)
    ensures WithTags(tags, [], k) == tags
  {
    forall t | t in tags ensures WithTags(tags, [], k)[t] == tags[t] {}
  }

  lemma LinkedTag(tags: map<Tag, set<Key>>, ts: seq<Tag>, k: Key, u: Tag)
    ensures u in WithTags(tags, ts, k) <==> u in tags || u in ts
    ensures u in WithTags(tags, ts, k) ==>
      WithTags(tags, ts, k)[u] == (if u in tags then tags[u] else {}) + (if u in ts then {k} else {})
  {
  }

  lemma LinkOneMore(tags: map<Tag, set<Key>>, ts: seq<Tag>, t: Tag, k: Key)
    ensures var was := WithTags(tags, ts, k);
      WithTags(tags, ts + [t], k) == was[t := (if t in was then was[t] else {}) + {k}]
  {
    hide WithTags;
    var was, now := WithTags(tags, ts, k), WithTags(tags, ts + [t], k);
    var next := was[t := (if t in was then was[t] else {}) + {k}];
    forall u ensures (u in now <==> u in next) && (u in now ==> now[u] == next[u]) {
      assert u in ts + [t] <==> u in ts || u == t;
      LinkedTag(tags, ts, k, u);
      LinkedTag(tags, ts + [t], k, u);
    }
  }

  // ---------- Runs ----------

  datatype Op =
    | Write(k: Key, meta: Meta, variant: Variant, body: Bytes, ttl: int, now: Time)
    | PurgeKey(k: Key, soft: bool)
    | PurgeTag(tag: Tag, soft: bool)
    | PurgePattern(pattern: Bytes, soft: bool)
    | Wipe

  function Apply(s: Store, op: Op): Store {
    match op
    case Write(k, m, v, body, ttl, now) => AfterSet(s, k, m, v, body, ttl, now)
    case PurgeKey(k, soft) => AfterPurge(s, {k}, soft)
    case PurgeTag(t, soft) => AfterTagPurge(s, t, soft)
    case PurgePattern(p, soft) => AfterPurge(s, Selected(s, p), soft)
    case Wipe => EMPTY
  }

  function ApplyAll(s: Store, ops: seq<Op>): Store
    decreases |ops|
  {
    if ops == [] then s else Apply(ApplyAll(s, ops[..|ops| - 1]), ops[|ops| - 1])
  }

  /** In every reachable store the maps are in step and every entry can be found by each of its tags. */
  lemma {:induction false} RunsKeepValid(ops: seq<Op>)
    ensures Valid(ApplyAll(EMPTY, ops))
    decreases |ops|
  {
    if ops != [] {
      RunsKeepValid(ops[..|ops| - 1]);
      ApplyKeepsValid(ApplyAll(EMPTY, ops[..|ops| - 1]), ops[|ops| - 1]);
    }
  }

  lemma ApplyKeepsValid(s: Store, op: Op)
    requires Valid(s)
    ensures Valid(Apply(s, op))
  {
    hide Valid, AfterSet, Removed, Marked, Selected;
    match op
    case Write(k, m, v, body, ttl, now) => SetKeepsValid(s, k, m, v, body, ttl, now);
    case PurgeKey(k, soft) => if soft { MarkedKeepsValid(s, {k}); } else { RemovedKeepsValid(s, {k}); }
    case PurgeTag(t, soft) => TagPurgeComplete(s, t, soft);
    case PurgePattern(p, soft) =>
      if soft { MarkedKeepsValid(s, Selected(s, p)); } else { RemovedKeepsValid(s, Selected(s, p)); }
    case Wipe => EmptyValid();
  }

  lemma EmptyValid()
    ensures Valid(EMPTY)
  {
  }

  /** After any run, a hard purge of a tag leaves no entry that carries it. */
  lemma TagPurgedAfterAnyRun(ops: seq<Op>, t: Tag)
    ensures forall k :: k in ApplyAll(EMPTY, ops + [PurgeTag(t, false)]).meta
              ==> t !in ApplyAll(EMPTY, ops + [PurgeTag(t, false)]).meta[k].meta.tags
  {
    RunsKeepValid(ops);
    TagPurgeComplete(ApplyAll(EMPTY, ops), t, false);
    assert (ops + [PurgeTag(t, false)])[..|ops|] == ops;
  }
}
