/** When the memo of a flight group holds the answer of an abandoned fetch, told from the run alone. */
module EsiPoison {
  import opened EsiFlight

  // ---------- Runs with their states ----------

  /** `ss` are the states a run goes through. */
  ghost predicate Trace(es: seq<Event>, ss: seq<State>) {
    |ss| == |es| + 1 && ss[0] == START && forall i :: 0 <= i < |es| ==> Moves(ss[i], es[i], ss[i + 1])
  }

  ghost predicate Moves(s: State, e: Event, s': State) { Enabled(s, e) && s' == Apply(s, e) }

  ghost predicate TraceFrom(s: State, es: seq<Event>, ss: seq<State>, s': State) {
    && |ss| == |es| + 1 && ss[0] == s && ss[|es|] == s'
    && forall i :: 0 <= i < |es| ==> Moves(ss[i], es[i], ss[i + 1])
  }

  /** Every run has its states. */
  lemma {:induction false} StatesOf(s: State, es: seq<Event>, s': State) returns (ss: seq<State>)
    requires Runs(s, es, s')
    ensures TraceFrom(s, es, ss, s')
    decreases |es|
  {
    hide Enabled, Apply;
    if es == [] {
      ss := [s];
    } else {
      var rest := StatesOf(Apply(s, es[0]), es[1..], s');
      ss := [s] + rest;
      forall i | 0 <= i < |es| ensures Moves(ss[i], es[i], ss[i + 1]) {
        if i > 0 { assert Moves(rest[i - 1], es[1..][i - 1], rest[i]); }
      }
    }
  }

  lemma {:induction false} TraceInv(es: seq<Event>, ss: seq<State>, n: nat)
    requires Trace(es, ss) && n <= |es|
    ensures Inv(ss[n])
  {
    hide Inv, Enabled, Apply;
    if n == 0 {
      StartInv();
    } else {
      TraceInv(es, ss, n - 1);
      assert Moves(ss[n - 1], es[n - 1], ss[n - 1 + 1]);
      StepKeeps(ss[n - 1], es[n - 1]);
    }
  }

  lemma StartInv()
    ensures Inv(START)
  {
  }

  // ---------- What a step does to the calls ----------

  /** The last listener of call `t` leaves while its fetch still runs. */
  ghost predicate Abandons(s: State, e: Event, t: nat) {
    && e.EvRelease? && e.l in s.holders && s.holders[e.l].tracker == t
    && t < |s.calls| && s.calls[t].listeners == 1 && s.calls[t].phase.Running?
  }

  /** Calls are kept, finished ones stay finished, and only such a release abandons one. */
  ghost predicate CallsMove(s: State, e: Event, s': State) {
    && |s.calls| <= |s'.calls|
    && (forall t :: 0 <= t < |s.calls| ==>
          && s'.calls[t].key == s.calls[t].key
          && (!s.calls[t].phase.Running? ==> !s'.calls[t].phase.Running?)
          && (s'.calls[t].abandoned <==> s.calls[t].abandoned || Abandons(s, e, t)))
    && (forall t :: |s.calls| <= t < |s'.calls| ==> !s'.calls[t].abandoned)
  }

  lemma DoMoves(s: State, l: nat, k: Key)
    requires Inv(s) && Enabled(s, EvDo(l, k))
    ensures CallsMove(s, EvDo(l, k), AfterDo(s, l, k))
  {
    hide Inv, Join, Launch;
    if k !in s.memo {
      TrackedOrFree(s, k);
      if k in s.trackers { JoinChanges(s, l, k); } else { LaunchChanges(s, l, k); }
    }
  }

  lemma ReleaseMoves(s: State, l: nat)
    requires Inv(s) && Enabled(s, EvRelease(l))
    ensures CallsMove(s, EvRelease(l), AfterRelease(s, l))
  {
    hide Inv, AfterRelease;
    HeldCount(s, l);
    ReleaseChanges(s, l);
  }

  lemma HeldCount(s: State, l: nat)
    requires Inv(s) && l in s.holders
    ensures s.holders[l].tracker < |s.calls| && s.calls[s.holders[l].tracker].listeners >= 1
  {
    assert CountOk(s, s.holders[l].tracker);
    assert l in HoldersOf(s, s.holders[l].tracker);
  }

  lemma StepMoves(s: State, e: Event)
    requires Inv(s) && Enabled(s, e)
    ensures CallsMove(s, e, Apply(s, e))
  {
    hide AfterDo, AfterRelease, Inv;
    match e
    case EvDo(l, k) => DoMoves(s, l, k);
    case EvComplete(t, a) =>
    case EvDeliver(t) =>
    case EvRelease(l) => ReleaseMoves(s, l);
  }

  /** A step of a trace, as far as the calls are concerned. */
  lemma TraceMoves(es: seq<Event>, ss: seq<State>, n: nat)
    requires Trace(es, ss) && n < |es|
    ensures Enabled(ss[n], es[n]) && Inv(ss[n]) && CallsMove(ss[n], es[n], ss[n + 1])
  {
    hide Inv, Enabled, Apply, CallsMove;
    TraceInv(es, ss, n);
    assert Moves(ss[n], es[n], ss[n + 1]);
    StepMoves(ss[n], es[n]);
  }

  // ---------- Abandoned calls ----------

  /** The i-th event of the run empties call `t`. */
  ghost predicate Empties(es: seq<Event>, ss: seq<State>, i: nat, t: nat)
    requires Trace(es, ss) && i < |es|
  {
    Abandons(ss[i], es[i], t)
  }

  lemma {:induction false} CallsStay(es: seq<Event>, ss: seq<State>, i: nat, n: nat)
    requires Trace(es, ss) && i <= n <= |es|
    ensures |ss[i].calls| <= |ss[n].calls|
    ensures forall t :: 0 <= t < |ss[i].calls| ==> ss[n].calls[t].key == ss[i].calls[t].key
    ensures forall t :: 0 <= t < |ss[i].calls| && !ss[i].calls[t].phase.Running? ==> !ss[n].calls[t].phase.Running?
    decreases n
  {
    hide Inv, Enabled, Trace, Abandons;
    if i < n {
      CallsStay(es, ss, i, n - 1);
      TraceMoves(es, ss, n - 1);
    }
  }

  /** A call is abandoned exactly when some release emptied it while it ran. */
  lemma {:induction false} AbandonedExactly(es: seq<Event>, ss: seq<State>, n: nat, t: nat)
    requires Trace(es, ss) && n <= |es| && t < |ss[n].calls|
    ensures ss[n].calls[t].abandoned <==> exists i :: 0 <= i < n && Empties(es, ss, i, t)
  {
    hide Inv, Enabled, Moves;
    if n > 0 {
      TraceMoves(es, ss, n - 1);
      if t < |ss[n - 1].calls| {
        AbandonedExactly(es, ss, n - 1, t);
        assert Empties(es, ss, n - 1, t) <==> Abandons(ss[n - 1], es[n - 1], t);
      } else {
        forall i | 0 <= i < n ensures !Empties(es, ss, i, t) { CallsStay(es, ss, i, n - 1); }
      }
    }
  }

  // ---------- The memo ----------

  /** The i-th event is a fetch of `k` finishing. */
  ghost predicate Completes(es: seq<Event>, ss: seq<State>, i: nat, k: Key)
    requires Trace(es, ss) && i < |es|
  {
    es[i].EvComplete? && es[i].t < |ss[i].calls| && ss[i].calls[es[i].t].key == k
  }

  lemma StepMemo(s: State, e: Event, k: Key)
    requires Inv(s) && Enabled(s, e)
    ensures var s' := Apply(s, e);
      if e.EvComplete? && s.calls[e.t].key == k then k in s'.memoBy && s'.memoBy[k] == e.t
      else (k in s'.memoBy <==> k in s.memoBy) && (k in s.memoBy ==> s'.memoBy[k] == s.memoBy[k])
  {
    hide Inv;
    match e
    case EvDo(l, j) =>
    case EvComplete(t, a) =>
    case EvDeliver(t) =>
    case EvRelease(l) => ReleaseChanges(s, l);
  }

  /** Among the first `n` events, the i-th is the last fetch of `k` to finish. */
  ghost predicate LastFinish(es: seq<Event>, ss: seq<State>, n: nat, i: nat, k: Key)
    requires Trace(es, ss) && i < n <= |es|
  {
    Completes(es, ss, i, k) && forall j :: i < j < n ==> !Completes(es, ss, j, k)
  }

  /** The memo of a key is written by the last of its fetches to finish. */
  lemma {:induction false} MemoByLast(es: seq<Event>, ss: seq<State>, n: nat, k: Key)
    requires Trace(es, ss) && n <= |es|
    ensures k in ss[n].memoBy <==> exists i :: 0 <= i < n && LastFinish(es, ss, n, i, k)
    ensures forall i :: 0 <= i < n && LastFinish(es, ss, n, i, k) ==> k in ss[n].memoBy && ss[n].memoBy[k] == es[i].t
  {
    hide Inv, Apply;
    if n > 0 {
      var m := n - 1;
      MemoByLast(es, ss, m, k);
      TraceInv(es, ss, m);
      assert Moves(ss[m], es[m], ss[m + 1]);
      StepMemo(ss[m], es[m], k);
      if Completes(es, ss, m, k) {
        assert LastFinish(es, ss, n, m, k);
      } else {
        forall i | 0 <= i < m ensures LastFinish(es, ss, n, i, k) <==> LastFinish(es, ss, m, i, k) {}
      }
    }
  }

  lemma MemoInRange(s: State, k: Key)
    requires Inv(s) && k in s.memoBy
    ensures s.memoBy[k] < |s.calls| && s.calls[s.memoBy[k]].key == k
  {
    assert Wrote(s, s.memoBy[k], k, s.memo[k]);
  }

  /** A finished call is emptied by no later release. */
  lemma EmptiedBefore(es: seq<Event>, ss: seq<State>, i: nat, j: nat, k: Key)
    requires Trace(es, ss) && i < |es| && j < |es| && Completes(es, ss, i, k) && Empties(es, ss, j, es[i].t)
    ensures j < i
  {
    hide Inv;
    if j > i {
      assert Moves(ss[i], es[i], ss[i + 1]);
      CallsStay(es, ss, i + 1, j);
    }
  }

  /** In every run: a key is poisoned exactly when the last of its fetches to finish was one whose last
      listener had left before. */
  lemma PoisonedExactly(es: seq<Event>, ss: seq<State>, k: Key)
    requires Trace(es, ss)
    ensures Poisoned(ss[|es|], k) <==>
      exists i, j :: 0 <= j < i < |es| && LastFinish(es, ss, |es|, i, k) && Empties(es, ss, j, es[i].t)
  {
    hide Enabled, Apply, Inv, Moves, Empties;
    var n := |es|;
    MemoByLast(es, ss, n, k);
    TraceInv(es, ss, n);
    if k in ss[n].memoBy {
      var i :| 0 <= i < n && LastFinish(es, ss, n, i, k);
      MemoInRange(ss[n], k);
      AbandonedExactly(es, ss, n, es[i].t);
      forall j | 0 <= j < n && Empties(es, ss, j, es[i].t) ensures j < i { EmptiedBefore(es, ss, i, j, k); }
    }
  }

  /** So if no release empties a running fetch of the key, its memo is never poisoned. */
  lemma NeverPoisoned(es: seq<Event>, ss: seq<State>, k: Key)
    requires Trace(es, ss)
    requires forall j: nat, t: nat :: j < |es| && t < |ss[j].calls| && ss[j].calls[t].key == k ==> !Empties(es, ss, j, t)
    ensures !Poisoned(ss[|es|], k)
  {
    hide Enabled, Apply, Inv, Trace, Empties;
    PoisonedExactly(es, ss, k);
    forall i, j | 0 <= j < i < |es| && LastFinish(es, ss, |es|, i, k) ensures !Empties(es, ss, j, es[i].t) {
      UnemptiedKey(es, ss, i, j, k);
    }
  }

  lemma UnemptiedKey(es: seq<Event>, ss: seq<State>, i: nat, j: nat, k: Key)
    requires Trace(es, ss) && j < i < |es| && Completes(es, ss, i, k)
    requires forall t: nat :: t < |ss[j].calls| && ss[j].calls[t].key == k ==> !Empties(es, ss, j, t)
    ensures !Empties(es, ss, j, es[i].t)
  {
    hide Enabled, Apply, Inv, Trace;
    CallsStay(es, ss, j, i);
  }
}
