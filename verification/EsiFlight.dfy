/** Document-level deduplication of fragment fetches: a memo, in-flight trackers with listener
    counts, and a `singleflight` group keyed by URL. Every operation runs under one lock, so an
    execution is an interleaving of the steps below. Trackers and the calls they start are
    numbered in creation order; the number stands for the pointer. */
module EsiFlight {

  type Key = string

  /** What a fetch yields. */
  datatype Answer = Got(body: string, cookies: seq<string>) | Failed

  /** A started call: fetching; answer recorded by its closure; answer handed to its channels. */
  datatype Phase = Running | Recorded(answer: Answer) | Delivered(answer: Answer)

  datatype Call = Call(key: Key, phase: Phase, listeners: int, cancelled: bool, abandoned: bool)

  /** A caller between `do` and `release`: the tracker it holds and the call its channel is on. */
  datatype Holder = Holder(tracker: nat, chan: nat)

  datatype State = State(
    calls: seq<Call>,               // every call and tracker ever created
    trackers: map<Key, nat>,        // live trackers
    memo: map<Key, Answer>,         // results and errors of finished closures
    memoBy: map<Key, nat>,          // which call wrote the memo entry
    flights: map<Key, nat>,         // singleflight: key to running call
    placeholders: nat,              // placeholder functions that became a running call
    holders: map<nat, Holder>)      // unreleased callers

  const START := State([], map[], map[], map[], map[], 0, map[])

  /** What `do` gives its caller: a memoised answer, or a place in a flight. */
  datatype Ticket = Memo(answer: Answer, source: nat) | Joined(tracker: nat)

  // ---------- Steps ----------

  /** Join the key's tracker. `singleflight.DoChan` gets a placeholder function: it joins the
      running call, or the placeholder would become it. */
  function Join(s: State, l: nat, k: Key): State
    requires k in s.trackers && s.trackers[k] < |s.calls|
  {
    var t := s.trackers[k];
    var s := s.(calls := s.calls[t := s.calls[t].(listeners := s.calls[t].listeners + 1)]);
    if k in s.flights then s.(holders := s.holders[l := Holder(t, s.flights[k])])
    else s.(placeholders := s.placeholders + 1, holders := s.holders[l := Holder(t, t)])
  }

  /** Create a tracker and start its fetch, unless `singleflight` still has a call for the key. */
  function Launch(s: State, l: nat, k: Key): State {
    var t := |s.calls|;
    s.(calls := s.calls + [Call(k, Running, 1, false, false)],
       trackers := s.trackers[k := t],
       flights := if k in s.flights then s.flights else s.flights[k := t],
       holders := s.holders[l := Holder(t, if k in s.flights then s.flights[k] else t)])
  }

  function AfterDo(s: State, l: nat, k: Key): State
    requires k in s.trackers ==> s.trackers[k] < |s.calls|
  {
    if k in s.memo then s
    else if k in s.trackers then Join(s, l, k)
    else Launch(s, l, k)
  }

  function TicketOf(s: State, k: Key): Ticket
    requires k in s.memo ==> k in s.memoBy
  {
    if k in s.memo then Memo(s.memo[k], s.memoBy[k])
    else if k in s.trackers then Joined(s.trackers[k])
    else Joined(|s.calls|)
  }

  /** The call's closure: record the answer, drop whatever tracker the key has now. */
  function AfterComplete(s: State, t: nat, a: Answer): State
    requires t < |s.calls|
  {
    var k := s.calls[t].key;
    s.(calls := s.calls[t := s.calls[t].(phase := Recorded(a))],
       memo := s.memo[k := a], memoBy := s.memoBy[k := t], trackers := s.trackers - {k})
  }

  /** `singleflight` retires the call, if it is still the key's call, and feeds its channels. */
  function AfterDeliver(s: State, t: nat): State
    requires t < |s.calls| && s.calls[t].phase.Recorded?
  {
    var k := s.calls[t].key;
    s.(calls := s.calls[t := s.calls[t].(phase := Delivered(s.calls[t].phase.answer))],
       flights := if k in s.flights && s.flights[k] == t then s.flights - {k} else s.flights)
  }

  /** A caller lets go, on its answer or on its own deadline. */
  function AfterRelease(s: State, l: nat): State
    requires l in s.holders && s.holders[l].tracker < |s.calls|
  {
    var t := s.holders[l].tracker;
    var c := s.calls[t].(listeners := s.calls[t].listeners - 1);
    var s := s.(holders := s.holders - {l});
    if c.listeners > 0 then s.(calls := s.calls[t := c])
    else
      s.(calls := s.calls[t := c.(cancelled := true, abandoned := c.abandoned || c.phase.Running?)],
         flights := s.flights - {c.key},
         trackers := if c.key in s.trackers && s.trackers[c.key] == t then s.trackers - {c.key} else s.trackers)
  }

  datatype Event = EvDo(l: nat, k: Key) | EvComplete(t: nat, a: Answer) | EvDeliver(t: nat) | EvRelease(l: nat)

  /** An event can happen: callers are fresh, closures finish once, deliveries follow, holders release once. */
  predicate Enabled(s: State, e: Event) {
    match e
    case EvDo(l, k) => l !in s.holders && (k in s.trackers ==> s.trackers[k] < |s.calls|)
    case EvComplete(t, _) => t < |s.calls| && s.calls[t].phase.Running?
    case EvDeliver(t) => t < |s.calls| && s.calls[t].phase.Recorded?
    case EvRelease(l) => l in s.holders && s.holders[l].tracker < |s.calls|
  }

  function Apply(s: State, e: Event): State
    requires Enabled(s, e)
  {
    match e
    case EvDo(l, k) => AfterDo(s, l, k)
    case EvComplete(t, a) => AfterComplete(s, t, a)
    case EvDeliver(t) => AfterDeliver(s, t)
    case EvRelease(l) => AfterRelease(s, l)
  }

  /** `s'` follows from `s` by the events, in order. */
  ghost predicate Runs(s: State, es: seq<Event>, s': State)
    decreases |es|
  {
    if es == [] then s' == s else Enabled(s, es[0]) && Runs(Apply(s, es[0]), es[1..], s')
  }

  // ---------- What every step keeps ----------

  /** The unreleased holders of tracker `t`. */
  ghost function HoldersOf(s: State, t: nat): set<nat> {
    set l | l in s.holders && s.holders[l].tracker == t
  }

  ghost predicate IsCall(s: State, t: nat, k: Key) { t < |s.calls| && s.calls[t].key == k }

  /** Numbers refer to existing calls of the right key, and a memo entry to the call that left it. */
  ghost predicate Linked(s: State) {
    && (forall k :: k in s.trackers ==> IsCall(s, s.trackers[k], k))
    && (forall k :: k in s.flights ==> IsCall(s, s.flights[k], k))
    && (forall l :: l in s.holders ==> s.holders[l].tracker < |s.calls|)
    && s.memo.Keys == s.memoBy.Keys
    && (forall k :: k in s.memo ==> Wrote(s, s.memoBy[k], k, s.memo[k]))
  }

  ghost predicate Wrote(s: State, t: nat, k: Key, a: Answer) {
    IsCall(s, t, k) && !s.calls[t].phase.Running? && s.calls[t].phase.answer == a
  }

  /** Counts are exact and a call is cancelled exactly when nobody holds it. */
  ghost predicate Counted(s: State) {
    forall t :: 0 <= t < |s.calls| ==> CountOk(s, t)
  }

  ghost predicate CountOk(s: State, t: nat)
    requires t < |s.calls|
  {
    var c := s.calls[t];
    && c.listeners == |HoldersOf(s, t)|
    && (c.cancelled <==> c.listeners == 0)
    && (c.abandoned ==> c.cancelled)
  }

  /** A live tracker's call is the key's flight, still fetching and wanted. */
  ghost predicate Live(s: State, k: Key, t: nat) {
    && k !in s.memo && k in s.flights && s.flights[k] == t
    && t < |s.calls| && s.calls[t].phase.Running? && !s.calls[t].cancelled
  }

  /** Trackers are live; a call past fetching has left an answer; so has a flight without tracker. */
  ghost predicate Tracked(s: State) {
    && (forall k :: k in s.trackers ==> Live(s, k, s.trackers[k]))
    && (forall t :: 0 <= t < |s.calls| && !s.calls[t].phase.Running? ==> s.calls[t].key in s.memo)
    && (forall k :: k in s.flights ==> k in s.trackers || k in s.memo)
  }

  /** Until its key has an answer, a call that was not abandoned is the tracked one; and no two
      calls of one key are both unabandoned. */
  ghost predicate Frugal(s: State) {
    && (forall t :: 0 <= t < |s.calls| ==> Settled(s, t))
    && (forall t, u :: 0 <= t < u < |s.calls| ==> !Rivals(s.calls[t], s.calls[u]))
  }

  ghost predicate Settled(s: State, t: nat)
    requires t < |s.calls|
  {
    var c := s.calls[t];
    c.abandoned || c.key in s.memo || (c.key in s.trackers && s.trackers[c.key] == t)
  }

  ghost predicate Rivals(c: Call, d: Call) {
    c.key == d.key && !c.abandoned && !d.abandoned
  }

  /** The placeholder never ran, and every holder's channel is on the call of its tracker. */
  ghost predicate Joins(s: State) {
    s.placeholders == 0 && forall l :: l in s.holders ==> s.holders[l].chan == s.holders[l].tracker
  }

  ghost predicate Inv(s: State) {
    Linked(s) && Counted(s) && Tracked(s) && Frugal(s) && Joins(s)
  }

  lemma HoldersSame(s: State, s': State, t: nat)
    requires s'.holders == s.holders
    ensures HoldersOf(s', t) == HoldersOf(s, t)
  {
  }

  lemma HolderAdded(s: State, s': State, l: nat, h: Holder, t: nat)
    requires l !in s.holders && s'.holders == s.holders[l := h]
    ensures |HoldersOf(s', t)| == |HoldersOf(s, t)| + if h.tracker == t then 1 else 0
  {
    if h.tracker == t {
      assert HoldersOf(s', t) == HoldersOf(s, t) + {l};
    } else {
      assert HoldersOf(s', t) == HoldersOf(s, t);
    }
  }

  lemma HolderGone(s: State, s': State, l: nat, t: nat)
    requires l in s.holders && s'.holders == s.holders - {l}
    ensures |HoldersOf(s', t)| == |HoldersOf(s, t)| - if s.holders[l].tracker == t then 1 else 0
  {
    if s.holders[l].tracker == t {
      HolderSetGone(s, s', l, t);
    } else {
      forall x ensures x in HoldersOf(s', t) <==> x in HoldersOf(s, t) {}
      assert HoldersOf(s', t) == HoldersOf(s, t);
    }
  }

  lemma HolderSetGone(s: State, s': State, l: nat, t: nat)
    requires l in s.holders && s'.holders == s.holders - {l} && s.holders[l].tracker == t
    ensures |HoldersOf(s, t)| == |HoldersOf(s', t)| + 1
  {
    var was, now := HoldersOf(s, t), HoldersOf(s', t);
    forall x ensures x in was <==> x in now || x == l {}
    assert l !in now;
    hide HoldersOf;
    assert was == now + {l};
  }

  /** Adding or updating calls in place leaves links to old calls intact. */
  ghost predicate Grows(s: State, s': State) {
    && |s.calls| <= |s'.calls|
    && forall t :: 0 <= t < |s.calls| ==> s'.calls[t].key == s.calls[t].key && s'.calls[t].phase == s.calls[t].phase
  }

  lemma LinkedGrows(s: State, s': State)
    requires Linked(s) && Grows(s, s')
    requires s'.memo == s.memo && s'.memoBy == s.memoBy
    requires forall k :: k in s'.trackers ==> (k in s.trackers && s'.trackers[k] == s.trackers[k]) || IsCall(s', s'.trackers[k], k)
    requires forall k :: k in s'.flights ==> (k in s.flights && s'.flights[k] == s.flights[k]) || IsCall(s', s'.flights[k], k)
    requires forall l :: l in s'.holders ==> s'.holders[l].tracker < |s'.calls|
    ensures Linked(s')
  {
    forall k | k in s'.memo ensures Wrote(s', s'.memoBy[k], k, s'.memo[k]) {
      assert Wrote(s, s.memoBy[k], k, s.memo[k]);
    }
  }

  /** What joining changes: one count and one holder. */
  lemma JoinChanges(s: State, l: nat, k: Key)
    requires k in s.trackers && s.trackers[k] < |s.calls| && k in s.flights
    ensures var s' := Join(s, l, k); var t := s.trackers[k];
      && s'.memo == s.memo && s'.memoBy == s.memoBy && s'.flights == s.flights && s'.trackers == s.trackers
      && s'.placeholders == s.placeholders && s'.holders == s.holders[l := Holder(t, s.flights[k])]
      && |s'.calls| == |s.calls| && (forall u :: 0 <= u < |s.calls| && u != t ==> s'.calls[u] == s.calls[u])
      && s'.calls[t] == s.calls[t].(listeners := s.calls[t].listeners + 1)
  {
  }

  /** What launching changes: one new call, its tracker, its flight and its first holder. */
  lemma LaunchChanges(s: State, l: nat, k: Key)
    requires k !in s.flights && k !in s.trackers
    ensures var s' := Launch(s, l, k); var t := |s.calls|;
      && s'.memo == s.memo && s'.memoBy == s.memoBy && s'.placeholders == s.placeholders
      && s'.flights == s.flights[k := t] && s'.trackers == s.trackers[k := t] && s'.holders == s.holders[l := Holder(t, t)]
      && |s'.calls| == t + 1 && (forall u :: 0 <= u < t ==> s'.calls[u] == s.calls[u])
      && s'.calls[t] == Call(k, Running, 1, false, false)
  {
  }

  /** A key without an answer has a tracker exactly when it has a flight. */
  lemma TrackedOrFree(s: State, k: Key)
    requires Inv(s) && k !in s.memo
    ensures k in s.trackers <==> k in s.flights
    ensures k in s.trackers ==> s.trackers[k] < |s.calls| && s.flights[k] == s.trackers[k]
  {
    hide Counted, Frugal, Joins;
    if k in s.trackers { assert Live(s, k, s.trackers[k]); }
  }

  lemma DoLinked(s: State, l: nat, k: Key)
    requires Inv(s) && Enabled(s, EvDo(l, k))
    ensures Linked(AfterDo(s, l, k))
  {
    hide Join, Launch, Counted, Frugal, Joins;
    if k !in s.memo {
      TrackedOrFree(s, k);
      if k in s.trackers { JoinChanges(s, l, k); } else { LaunchChanges(s, l, k); }
      assert Grows(s, AfterDo(s, l, k));
      LinkedGrows(s, AfterDo(s, l, k));
    }
  }

  lemma DoJoins(s: State, l: nat, k: Key)
    requires Inv(s) && Enabled(s, EvDo(l, k))
    ensures Joins(AfterDo(s, l, k))
  {
    hide Counted, Frugal;
    if k in s.trackers { assert Live(s, k, s.trackers[k]); }
  }

  lemma JoinTracked(s: State, l: nat, k: Key)
    requires Inv(s) && k !in s.memo && k in s.trackers && s.trackers[k] < |s.calls|
    ensures Tracked(Join(s, l, k))
  {
    TrackedOrFree(s, k);
    JoinChanges(s, l, k);
    hide Join, Linked, Counted, Frugal, Joins;
    var s' := Join(s, l, k);
    forall j | j in s'.trackers ensures Live(s', j, s'.trackers[j]) { assert Live(s, j, s.trackers[j]); }
  }

  lemma LaunchTracked(s: State, l: nat, k: Key)
    requires Inv(s) && k !in s.memo && k !in s.trackers
    ensures Tracked(Launch(s, l, k))
  {
    TrackedOrFree(s, k);
    LaunchChanges(s, l, k);
    hide Launch, Linked, Counted, Frugal, Joins;
    var s' := Launch(s, l, k);
    forall j | j in s'.trackers ensures Live(s', j, s'.trackers[j]) {
      if j in s.trackers { assert Live(s, j, s.trackers[j]); }
    }
  }

  lemma DoTracked(s: State, l: nat, k: Key)
    requires Inv(s) && Enabled(s, EvDo(l, k))
    ensures Tracked(AfterDo(s, l, k))
  {
    hide Join, Launch, Linked, Counted, Tracked, Frugal, Joins;
    if k !in s.memo {
      if k in s.trackers { JoinTracked(s, l, k); } else { LaunchTracked(s, l, k); }
    }
  }

  lemma JoinFrugal(s: State, l: nat, k: Key)
    requires Inv(s) && k !in s.memo && k in s.trackers && s.trackers[k] < |s.calls|
    ensures Frugal(Join(s, l, k))
  {
    TrackedOrFree(s, k);
    JoinChanges(s, l, k);
    hide Join, Linked, Counted, Tracked, Joins;
    var s' := Join(s, l, k);
    forall t, u | 0 <= t < u < |s'.calls| ensures !Rivals(s'.calls[t], s'.calls[u]) { assert !Rivals(s.calls[t], s.calls[u]); }
    forall t | 0 <= t < |s'.calls| ensures Settled(s', t) { assert Settled(s, t); }
  }

  lemma LaunchFrugal(s: State, l: nat, k: Key)
    requires Inv(s) && k !in s.memo && k !in s.trackers
    ensures Frugal(Launch(s, l, k))
  {
    TrackedOrFree(s, k);
    LaunchChanges(s, l, k);
    hide Launch, Linked, Counted, Tracked, Joins;
    var s' := Launch(s, l, k);
    forall t, u | 0 <= t < u < |s'.calls| ensures !Rivals(s'.calls[t], s'.calls[u]) {
      if u < |s.calls| { assert !Rivals(s.calls[t], s.calls[u]); } else { assert Settled(s, t); }
    }
    forall t | 0 <= t < |s'.calls| ensures Settled(s', t) {
      if t < |s.calls| { assert Settled(s, t); }
    }
  }

  lemma DoFrugal(s: State, l: nat, k: Key)
    requires Inv(s) && Enabled(s, EvDo(l, k))
    ensures Frugal(AfterDo(s, l, k))
  {
    hide Join, Launch, Linked, Counted, Tracked, Joins;
    if k !in s.memo {
      if k in s.trackers { JoinFrugal(s, l, k); } else { LaunchFrugal(s, l, k); }
    }
  }

  lemma DoCounted(s: State, l: nat, k: Key)
    requires Inv(s) && Enabled(s, EvDo(l, k))
    ensures Counted(AfterDo(s, l, k))
  {
    hide Frugal, Joins;
    var s' := AfterDo(s, l, k);
    if k !in s.memo {
      forall t | 0 <= t < |s'.calls| ensures CountOk(s', t) {
        HolderAdded(s, s', l, s'.holders[l], t);
        if t == |s.calls| {
          assert HoldersOf(s, t) == {};
        } else {
          assert CountOk(s, t);
        }
      }
    }
  }

  lemma CompleteMemo(s: State, t: nat, a: Answer, k: Key)
    requires Linked(s) && Enabled(s, EvComplete(t, a)) && k in AfterComplete(s, t, a).memo
    ensures k in AfterComplete(s, t, a).memoBy
    ensures Wrote(AfterComplete(s, t, a), AfterComplete(s, t, a).memoBy[k], k, AfterComplete(s, t, a).memo[k])
  {
    if k in s.memo { assert Wrote(s, s.memoBy[k], k, s.memo[k]); }
  }

  lemma CompleteKeeps(s: State, t: nat, a: Answer)
    requires Inv(s) && Enabled(s, EvComplete(t, a))
    ensures Linked(AfterComplete(s, t, a)) && Joins(AfterComplete(s, t, a))
  {
    hide Counted, Frugal, Tracked, Wrote;
    var s' := AfterComplete(s, t, a);
    forall k | k in s'.memo ensures k in s'.memoBy && Wrote(s', s'.memoBy[k], k, s'.memo[k]) { CompleteMemo(s, t, a, k); }
    forall k | k in s'.trackers ensures IsCall(s', s'.trackers[k], k) { assert IsCall(s, s.trackers[k], k); }
    forall k | k in s'.flights ensures IsCall(s', s'.flights[k], k) { assert IsCall(s, s.flights[k], k); }
  }

  lemma CompleteTracked(s: State, t: nat, a: Answer)
    requires Inv(s) && Enabled(s, EvComplete(t, a))
    ensures Tracked(AfterComplete(s, t, a))
  {
    hide Counted, Frugal, Joins;
    var s' := AfterComplete(s, t, a);
    forall k | k in s'.trackers ensures Live(s', k, s'.trackers[k]) {
      assert Live(s, k, s.trackers[k]) && IsCall(s, s.trackers[k], k);
    }
  }

  lemma CompleteCounts(s: State, t: nat, a: Answer)
    requires Inv(s) && Enabled(s, EvComplete(t, a))
    ensures Counted(AfterComplete(s, t, a)) && Frugal(AfterComplete(s, t, a))
  {
    hide Linked, Tracked, Joins;
    var s' := AfterComplete(s, t, a);
    forall u | 0 <= u < |s'.calls| ensures CountOk(s', u) && Settled(s', u) {
      HoldersSame(s, s', u);
      assert CountOk(s, u) && Settled(s, u);
    }
    forall u, v | 0 <= u < v < |s'.calls| ensures !Rivals(s'.calls[u], s'.calls[v]) {
      assert !Rivals(s.calls[u], s.calls[v]);
    }
  }

  lemma DeliverKeeps(s: State, t: nat)
    requires Inv(s) && Enabled(s, EvDeliver(t))
    ensures Linked(AfterDeliver(s, t)) && Joins(AfterDeliver(s, t))
  {
    hide Counted, Frugal, Tracked;
    var s' := AfterDeliver(s, t);
    forall k | k in s'.memo ensures Wrote(s', s'.memoBy[k], k, s'.memo[k]) {
      assert Wrote(s, s.memoBy[k], k, s.memo[k]);
    }
  }

  lemma DeliverTracked(s: State, t: nat)
    requires Inv(s) && Enabled(s, EvDeliver(t))
    ensures Tracked(AfterDeliver(s, t))
  {
    hide Counted, Frugal, Joins;
    var s' := AfterDeliver(s, t);
    forall k | k in s'.trackers ensures Live(s', k, s'.trackers[k]) {
      assert Live(s, k, s.trackers[k]) && IsCall(s, s.trackers[k], k);
    }
  }

  lemma DeliverCounts(s: State, t: nat)
    requires Inv(s) && Enabled(s, EvDeliver(t))
    ensures Counted(AfterDeliver(s, t)) && Frugal(AfterDeliver(s, t))
  {
    hide Linked, Tracked, Joins;
    var s' := AfterDeliver(s, t);
    forall u | 0 <= u < |s'.calls| ensures CountOk(s', u) && Settled(s', u) {
      HoldersSame(s, s', u);
      assert CountOk(s, u) && Settled(s, u);
    }
    forall u, v | 0 <= u < v < |s'.calls| ensures !Rivals(s'.calls[u], s'.calls[v]) {
      assert !Rivals(s.calls[u], s.calls[v]);
    }
  }

  /** What a release changes: one call, and at most that call's flight and tracker. */
  lemma ReleaseChanges(s: State, l: nat)
    requires Enabled(s, EvRelease(l))
    ensures var s' := AfterRelease(s, l); var t := s.holders[l].tracker; var c := s.calls[t];
      && s'.memo == s.memo && s'.memoBy == s.memoBy && s'.placeholders == s.placeholders && s'.holders == s.holders - {l}
      && |s'.calls| == |s.calls| && (forall u :: 0 <= u < |s.calls| && u != t ==> s'.calls[u] == s.calls[u])
      && s'.calls[t] == (if c.listeners > 1 then c.(listeners := c.listeners - 1)
                         else c.(listeners := c.listeners - 1, cancelled := true, abandoned := c.abandoned || c.phase.Running?))
      && (forall k :: k in s'.flights <==> k in s.flights && (c.listeners > 1 || k != c.key))
      && (forall k :: k in s'.flights ==> s'.flights[k] == s.flights[k])
      && (forall k :: k in s'.trackers <==> k in s.trackers && (c.listeners > 1 || k != c.key || s.trackers[k] != t))
      && (forall k :: k in s'.trackers ==> s'.trackers[k] == s.trackers[k])
  {
  }

  lemma ReleaseKeeps(s: State, l: nat)
    requires Inv(s) && Enabled(s, EvRelease(l))
    ensures Linked(AfterRelease(s, l)) && Joins(AfterRelease(s, l))
  {
    hide Counted, Frugal, Tracked, AfterRelease;
    ReleaseChanges(s, l);
    var s' := AfterRelease(s, l);
    assert Grows(s, s');
    LinkedGrows(s, s');
  }

  /** A held call whose key has no answer yet is the tracked one. */
  lemma HeldIsTracked(s: State, l: nat)
    requires Inv(s) && l in s.holders
    ensures var t := s.holders[l].tracker; var k := s.calls[t].key;
      k in s.memo || (k in s.trackers && s.trackers[k] == t)
  {
    var t := s.holders[l].tracker;
    assert CountOk(s, t) && Settled(s, t);
    assert l in HoldersOf(s, t);
  }

  lemma ReleaseLive(s: State, l: nat, k: Key)
    requires Inv(s) && Enabled(s, EvRelease(l)) && k in AfterRelease(s, l).trackers
    ensures Live(AfterRelease(s, l), k, AfterRelease(s, l).trackers[k])
  {
    ReleaseChanges(s, l);
    HeldIsTracked(s, l);
    assert k in s.trackers ==> Live(s, k, s.trackers[k]) && IsCall(s, s.trackers[k], k);
    hide Inv, AfterRelease;
  }

  lemma ReleaseTracked(s: State, l: nat)
    requires Inv(s) && Enabled(s, EvRelease(l))
    ensures Tracked(AfterRelease(s, l))
  {
    HeldIsTracked(s, l);
    ReleaseChanges(s, l);
    hide Linked, Counted, Frugal, Joins, AfterRelease;
    var s' := AfterRelease(s, l);
    forall k | k in s'.trackers ensures Live(s', k, s'.trackers[k]) { ReleaseLive(s, l, k); }
  }

  lemma ReleaseCount(s: State, l: nat, u: nat)
    requires Inv(s) && Enabled(s, EvRelease(l)) && u < |s.calls|
    ensures u < |AfterRelease(s, l).calls| && CountOk(AfterRelease(s, l), u) && Settled(AfterRelease(s, l), u)
  {
    assert CountOk(s, u) && Settled(s, u);
    HeldIsTracked(s, l);
    hide Inv, HoldersOf, AfterRelease;
    ReleaseChanges(s, l);
    HolderGone(s, AfterRelease(s, l), l, u);
  }

  lemma ReleaseCounts(s: State, l: nat)
    requires Inv(s) && Enabled(s, EvRelease(l))
    ensures Counted(AfterRelease(s, l)) && Frugal(AfterRelease(s, l))
  {
    ReleaseChanges(s, l);
    var s' := AfterRelease(s, l);
    hide Linked, Joins, Tracked, Counted, AfterRelease, CountOk, Settled;
    forall u | 0 <= u < |s'.calls| ensures CountOk(s', u) && Settled(s', u) { ReleaseCount(s, l, u); }
    forall u, v | 0 <= u < v < |s'.calls| ensures !Rivals(s'.calls[u], s'.calls[v]) {
      assert !Rivals(s.calls[u], s.calls[v]);
    }
    CountedAll(s');
  }

  lemma CountedAll(s: State)
    requires forall t :: 0 <= t < |s.calls| ==> CountOk(s, t)
    ensures Counted(s)
  {
  }

  /** Every step of the protocol keeps the invariant. */
  lemma StepKeeps(s: State, e: Event)
    requires Inv(s) && Enabled(s, e)
    ensures Inv(Apply(s, e))
  {
    hide Linked, Counted, Tracked, Frugal, Joins, AfterDo, AfterComplete, AfterDeliver, AfterRelease;
    match e
    case EvDo(l, k) => DoLinked(s, l, k); DoJoins(s, l, k); DoTracked(s, l, k); DoFrugal(s, l, k); DoCounted(s, l, k);
    case EvComplete(t, a) => CompleteKeeps(s, t, a); CompleteTracked(s, t, a); CompleteCounts(s, t, a);
    case EvDeliver(t) => DeliverKeeps(s, t); DeliverTracked(s, t); DeliverCounts(s, t);
    case EvRelease(l) => ReleaseKeeps(s, l); ReleaseTracked(s, l); ReleaseCounts(s, l);
  }

  lemma {:induction false} RunsKeep(s: State, es: seq<Event>, s': State)
    requires Inv(s) && Runs(s, es, s')
    ensures Inv(s')
    decreases |es|
  {
    hide Inv, Apply;
    if es != [] {
      StepKeeps(s, es[0]);
      RunsKeep(Apply(s, es[0]), es[1..], s');
    }
  }

  // ---------- What holds after any interleaving ----------

  ghost predicate Reachable(s: State) { exists es :: Runs(START, es, s) }

  lemma ReachableInv(s: State)
    requires Reachable(s)
    ensures Inv(s)
  {
    var es :| Runs(START, es, s);
    RunsKeep(START, es, s);
  }

  lemma Unrivalled(s: State, t: nat, u: nat)
    requires Inv(s) && t < |s.calls| && u < |s.calls|
    ensures t == u || !Rivals(s.calls[t], s.calls[u])
  {
    var lo, hi := if t < u then t else u, if t < u then u else t;
    assert lo < hi ==> !Rivals(s.calls[lo], s.calls[hi]);
  }

  ghost function CallsFor(s: State, k: Key): set<nat> { set t | 0 <= t < |s.calls| && s.calls[t].key == k }

  ghost function AbandonedFor(s: State, k: Key): set<nat> {
    set t | 0 <= t < |s.calls| && s.calls[t].key == k && s.calls[t].abandoned
  }

  /** No placeholder ever runs; counts are the unreleased holders; a fetch is cancelled exactly once
      nobody holds it; every holder's channel belongs to its tracker's call. */
  lemma HoldersExact(s: State)
    requires Reachable(s)
    ensures s.placeholders == 0
    ensures forall t :: 0 <= t < |s.calls| ==> s.calls[t].listeners == |HoldersOf(s, t)|
    ensures forall t :: 0 <= t < |s.calls| ==> (s.calls[t].cancelled <==> HoldersOf(s, t) == {})
    ensures forall l :: l in s.holders ==> s.holders[l].chan == s.holders[l].tracker
  {
    ReachableInv(s);
    hide Linked, Tracked, Frugal;
    forall t | 0 <= t < |s.calls|
      ensures s.calls[t].listeners == |HoldersOf(s, t)| && (s.calls[t].cancelled <==> HoldersOf(s, t) == {})
    {
      assert CountOk(s, t);
    }
  }

  /** No flight has been delivered. */
  ghost predicate Undelivered(s: State) {
    forall k :: k in s.flights ==> s.flights[k] < |s.calls| && s.calls[s.flights[k]].key == k && !s.calls[s.flights[k]].phase.Delivered?
  }

  lemma JoinUndelivered(s: State, l: nat, k: Key)
    requires Undelivered(s) && k in s.trackers && s.trackers[k] < |s.calls|
    ensures Undelivered(Join(s, l, k))
  {
    var s' := Join(s, l, k);
    assert s'.flights == s.flights;
    forall j | j in s.flights ensures s'.calls[s.flights[j]].key == j && !s'.calls[s.flights[j]].phase.Delivered? {
      assert s.calls[s.flights[j]].key == j;
    }
  }

  lemma LaunchUndelivered(s: State, l: nat, k: Key)
    requires Undelivered(s)
    ensures Undelivered(Launch(s, l, k))
  {
    var s' := Launch(s, l, k);
    forall j | j in s.flights ensures s'.calls[s.flights[j]] == s.calls[s.flights[j]] {}
  }

  lemma DoUndelivered(s: State, l: nat, k: Key)
    requires Undelivered(s) && (k in s.trackers ==> s.trackers[k] < |s.calls|)
    ensures Undelivered(AfterDo(s, l, k))
  {
    hide Join, Launch, Undelivered;
    if k in s.trackers { JoinUndelivered(s, l, k); } else { LaunchUndelivered(s, l, k); }
  }

  lemma ReleaseUndelivered(s: State, l: nat)
    requires Undelivered(s) && l in s.holders && s.holders[l].tracker < |s.calls|
    ensures Undelivered(AfterRelease(s, l))
  {
  }

  lemma DeliverUndelivered(s: State, t: nat)
    requires Undelivered(s) && t < |s.calls| && s.calls[t].phase.Recorded?
    ensures Undelivered(AfterDeliver(s, t))
  {
  }

  lemma StepUndelivered(s: State, e: Event)
    requires Undelivered(s) && Enabled(s, e)
    ensures Undelivered(Apply(s, e))
  {
    hide AfterDo, AfterDeliver, AfterRelease;
    match e
    case EvDo(l, k) => DoUndelivered(s, l, k);
    case EvComplete(t, a) =>
    case EvDeliver(t) => DeliverUndelivered(s, t);
    case EvRelease(l) => ReleaseUndelivered(s, l);
  }

  lemma {:induction false} RunsUndelivered(s: State, es: seq<Event>, s': State)
    requires Undelivered(s) && Runs(s, es, s')
    ensures Undelivered(s')
    decreases |es|
  {
    hide Undelivered, Apply;
    if es != [] {
      StepUndelivered(s, es[0]);
      RunsUndelivered(Apply(s, es[0]), es[1..], s');
    }
  }

  /** A call whose answer was handed out is retired: whoever comes next does not join it. */
  lemma DeliveredRetired(s: State, k: Key)
    requires Reachable(s) && k in s.flights
    ensures s.flights[k] < |s.calls| && s.calls[s.flights[k]].key == k && !s.calls[s.flights[k]].phase.Delivered?
  {
    var es :| Runs(START, es, s);
    RunsUndelivered(START, es, s);
  }

  /** At most one fetch per key is running and wanted. */
  lemma OneWantedFetch(s: State, t: nat, u: nat)
    requires Reachable(s) && t < |s.calls| && u < |s.calls| && s.calls[t].key == s.calls[u].key
    requires s.calls[t].phase.Running? && !s.calls[t].cancelled
    requires s.calls[u].phase.Running? && !s.calls[u].cancelled
    ensures t == u
  {
    ReachableInv(s);
    assert CountOk(s, t) && CountOk(s, u);
    Unrivalled(s, t, u);
  }

  lemma AtMostOne(x: set<nat>)
    requires forall t, u :: t in x && u in x ==> t == u
    ensures |x| <= 1
  {
    if x != {} {
      var t :| t in x;
      assert x == {t};
    }
  }

  /** Fetches started for a key are at most one plus its abandonments. */
  lemma FetchesBounded(s: State, k: Key)
    requires Reachable(s)
    ensures |CallsFor(s, k)| <= 1 + |AbandonedFor(s, k)|
  {
    ReachableInv(s);
    var kept := CallsFor(s, k) - AbandonedFor(s, k);
    forall t, u | t in kept && u in kept ensures t == u {
      Unrivalled(s, t, u);
    }
    AtMostOne(kept);
    assert CallsFor(s, k) == kept + AbandonedFor(s, k);
  }

  /** Without an abandonment, a key's memo and all its channels speak for one and the same fetch. */
  lemma OneSource(s: State, k: Key, l: nat)
    requires Reachable(s) && AbandonedFor(s, k) == {}
    requires k in s.memo && l in s.holders && s.holders[l].tracker < |s.calls|
    requires s.calls[s.holders[l].tracker].key == k
    ensures k in s.memoBy && s.memoBy[k] == s.holders[l].chan
  {
    ReachableInv(s);
    var t, u := s.memoBy[k], s.holders[l].tracker;
    assert Wrote(s, t, k, s.memo[k]);
    assert t !in AbandonedFor(s, k) && u !in AbandonedFor(s, k);
    Unrivalled(s, t, u);
  }

  // ---------- A fetch nobody waits for can still write the memo ----------

  /** The memoised answer for `k` was left by a fetch that had been cancelled while running. */
  ghost predicate Poisoned(s: State, k: Key) {
    k in s.memoBy && s.memoBy[k] < |s.calls| && s.calls[s.memoBy[k]].abandoned
  }

  lemma MemoLinked(s: State, k: Key)
    requires Inv(s)
    ensures k in s.memo <==> k in s.memoBy
    ensures k in s.memo ==> Wrote(s, s.memoBy[k], k, s.memo[k])
  {
  }

  /** The memo can answer with the failure of a cancelled fetch while a wanted fetch of the same
      key is running: the first caller gives up, a second starts afresh, the first fetch then
      reports its cancellation. */
  lemma MemoCanBePoisoned(k: Key)
    ensures exists s :: Reachable(s) && Poisoned(s, k) && PoisonWitness(s, k)
  {
    var e1, e2, e3, e4 := EvDo(1, k), EvRelease(1), EvDo(2, k), EvComplete(0, Failed);
    var s1 := Apply(START, e1);
    assert s1.calls == [Call(k, Running, 1, false, false)] && s1.trackers == map[k := 0] && s1.flights == map[k := 0];
    var s2 := Apply(s1, e2);
    assert s2.calls == [Call(k, Running, 0, true, true)] && s2.trackers == map[] && s2.flights == map[];
    var s3 := Apply(s2, e3);
    assert s3.calls == [Call(k, Running, 0, true, true), Call(k, Running, 1, false, false)];
    var s4 := Apply(s3, e4);
    assert Runs(s4, [], s4);
    assert Runs(s3, [e4] + [], s4);
    RunsCons(s2, e3, [e4] + [], s4);
    RunsCons(s1, e2, [e3] + ([e4] + []), s4);
    RunsCons(START, e1, [e2] + ([e3] + ([e4] + [])), s4);
    assert Reachable(s4) && Poisoned(s4, k) && PoisonWitness(s4, k);
  }

  ghost predicate PoisonWitness(s: State, k: Key) {
    && k in s.memo && k in s.memoBy && TicketOf(s, k) == Memo(Failed, 0)
    && |s.calls| == 2 && s.calls[1] == Call(k, Running, 1, false, false)
  }

  lemma RunsCons(s: State, e: Event, es: seq<Event>, s': State)
    requires Enabled(s, e) && Runs(Apply(s, e), es, s')
    ensures Runs(s, [e] + es, s')
  {
    assert ([e] + es)[1..] == es;
  }

  // ---------- The flight group as the processor uses it ----------

  class FlightGroup {
    var calls: seq<Call>
    var trackers: map<Key, nat>
    var memo: map<Key, Answer>
    var memoBy: map<Key, nat>
    var flights: map<Key, nat>
    var placeholders: nat
    var holders: map<nat, Holder>

    ghost function Now(): State
      reads this
    {
      State(calls, trackers, memo, memoBy, flights, placeholders, holders)
    }

    constructor ()
      ensures Now() == START && Inv(Now())
    {
      calls, trackers, memo, memoBy, flights, placeholders, holders := [], map[], map[], map[], map[], 0, map[];
    }

    /** Ask for a key: a memoised answer, a place in its flight, or a new flight. */
    method Do(l: nat, k: Key) returns (ticket: Ticket)
      requires Inv(Now()) && l !in holders
      modifies this
      ensures Now() == AfterDo(old(Now()), l, k) && Inv(Now())
      ensures ticket == TicketOf(old(Now()), k)
    {
      hide Inv, Linked, Counted, Tracked, Frugal, Joins;
      DoKeeps(Now(), l, k);
      if k in memo {
        return Memo(memo[k], memoBy[k]);
      }
      if k !in trackers {
        var t := |calls|;
        calls := calls + [Call(k, Running, 1, false, false)];
        trackers := trackers[k := t];
        if k in flights {
          holders := holders[l := Holder(t, flights[k])];
        } else {
          flights := flights[k := t];
          holders := holders[l := Holder(t, t)];
        }
        return Joined(t);
      }
      var t := trackers[k];
      calls := calls[t := calls[t].(listeners := calls[t].listeners + 1)];
      if k in flights {
        holders := holders[l := Holder(t, flights[k])];
      } else {
        placeholders := placeholders + 1;
        holders := holders[l := Holder(t, t)];
      }
      return Joined(t);
    }

    /** The fetch of call `t` returned `a`. */
    method Complete(t: nat, a: Answer)
      requires Inv(Now()) && t < |calls| && calls[t].phase.Running?
      modifies this
      ensures Now() == AfterComplete(old(Now()), t, a) && Inv(Now())
    {
      hide Inv, Linked, Counted, Tracked, Frugal, Joins;
      StepKeeps(Now(), EvComplete(t, a));
      var key := calls[t].key;
      calls := calls[t := calls[t].(phase := Recorded(a))];
      memo := memo[key := a];
      memoBy := memoBy[key := t];
      trackers := trackers - {key};
    }

    /** A caller lets go; the last one cancels the fetch and forgets the flight. */
    method Release(l: nat)
      requires Inv(Now()) && l in holders
      modifies this
      ensures Now() == AfterRelease(old(Now()), l) && Inv(Now())
    {
      hide Inv, Linked, Counted, Tracked, Frugal, Joins;
      HolderLinked(Now(), l);
      StepKeeps(Now(), EvRelease(l));
      var t := holders[l].tracker;
      holders := holders - {l};
      calls := calls[t := calls[t].(listeners := calls[t].listeners - 1)];
      if calls[t].listeners <= 0 {
        var c := calls[t];
        calls := calls[t := c.(cancelled := true, abandoned := c.abandoned || c.phase.Running?)];
        flights := flights - {c.key};
        if c.key in trackers && trackers[c.key] == t {
          trackers := trackers - {c.key};
        }
      }
    }
  }

  lemma HolderLinked(s: State, l: nat)
    requires Inv(s) && l in s.holders
    ensures s.holders[l].tracker < |s.calls|
  {
  }

  lemma DoKeeps(s: State, l: nat, k: Key)
    requires Inv(s) && l !in s.holders
    ensures (k in s.trackers ==> s.trackers[k] < |s.calls|) && Inv(AfterDo(s, l, k))
    ensures k in s.memo ==> k in s.memoBy
  {
    if k in s.trackers { assert IsCall(s, s.trackers[k], k); }
    StepKeeps(s, EvDo(l, k));
  }
}
