/** Workers never deadlock: in every state of every execution some step is possible until all are done,
    and every step shortens the work left, so every schedule ends and ends with the results. */
module EsiProgress {
  import opened EsiParse
  import opened EsiScan
  import opened EsiFlight
  import opened EsiExec
  import opened EsiConcurrent

  // ---------- Work left ----------

  function PcWork(pc: Pc): nat {
    match pc
    case Idle => 4
    case Fetching(alt, _) => if alt then 1 else 3
    case Retry => 2
    case Done(_) => 0
  }

  function CallWork(c: Call): nat { if c.phase.Running? then 2 else if c.phase.Recorded? then 1 else 0 }

  function PcsWork(pcs: seq<Pc>): nat { if pcs == [] then 0 else PcWork(pcs[0]) + PcsWork(pcs[1..]) }

  function CallsWork(cs: seq<Call>): nat { if cs == [] then 0 else CallWork(cs[0]) + CallsWork(cs[1..]) }

  function Work(c: Crew): nat { 3 * PcsWork(c.pcs) + CallsWork(c.fg.calls) }

  lemma {:induction false} PcsUpdate(pcs: seq<Pc>, i: nat, pc: Pc)
    requires i < |pcs|
    ensures PcsWork(pcs[i := pc]) == PcsWork(pcs) - PcWork(pcs[i]) + PcWork(pc)
  {
    if i == 0 {
      assert pcs[i := pc][1..] == pcs[1..];
    } else {
      assert pcs[i := pc][1..] == pcs[1..][i - 1 := pc];
      PcsUpdate(pcs[1..], i - 1, pc);
    }
  }

  lemma {:induction false} CallsUpdate(cs: seq<Call>, i: nat, c: Call)
    requires i < |cs|
    ensures CallsWork(cs[i := c]) == CallsWork(cs) - CallWork(cs[i]) + CallWork(c)
  {
    if i == 0 {
      assert cs[i := c][1..] == cs[1..];
    } else {
      assert cs[i := c][1..] == cs[1..][i - 1 := c];
      CallsUpdate(cs[1..], i - 1, c);
    }
  }

  lemma {:induction false} CallsAppend(cs: seq<Call>, c: Call)
    ensures CallsWork(cs + [c]) == CallsWork(cs) + CallWork(c)
  {
    if cs == [] {
      assert cs + [c] == [c];
    } else {
      assert (cs + [c])[1..] == cs[1..] + [c];
      CallsAppend(cs[1..], c);
    }
  }

  /** Asking starts at most one call. */
  lemma AskWork(o: Origin, job: Job, c: Crew, i: nat, alt: bool)
    requires i < |job.fs| && i < |c.pcs| && Inv(c.fg)
    requires PcWork(c.pcs[i]) > if alt then 1 else 3
    ensures Work(Ask(o, job, c, i, alt)) < Work(c)
  {
    hide Inv;
    var c' := Ask(o, job, c, i, alt);
    PcsUpdate(c.pcs, i, c'.pcs[i]);
    if Shared(job) {
      var u := Url(job, i, alt);
      TicketDefined(c.fg, u);
      DoWork(c.fg, Id(i, alt), u);
    }
  }

  lemma DoWork(s: State, l: nat, k: Key)
    requires k in s.trackers ==> s.trackers[k] < |s.calls|
    ensures CallsWork(AfterDo(s, l, k).calls) <= CallsWork(s.calls) + 2
  {
    if k !in s.memo {
      if k in s.trackers {
        var c := s.calls[s.trackers[k]];
        CallsUpdate(s.calls, s.trackers[k], c.(listeners := c.listeners + 1));
      } else {
        CallsAppend(s.calls, Call(k, Running, 1, false, false));
      }
    }
  }

  lemma ReleaseWork(s: State, l: nat)
    requires l in s.holders && s.holders[l].tracker < |s.calls|
    ensures CallsWork(AfterRelease(s, l).calls) == CallsWork(s.calls)
  {
    var t := s.holders[l].tracker;
    CallsUpdate(s.calls, t, AfterRelease(s, l).calls[t]);
  }

  // ---------- No deadlock ----------

  lemma {:induction false} NobodyBusy(pcs: seq<Pc>)
    requires forall i :: 0 <= i < |pcs| ==> !pcs[i].Fetching? && !pcs[i].Retry?
    ensures Busy(pcs) == 0
  {
    if pcs != [] { NobodyBusy(pcs[1..]); }
  }

  lemma AdvanceIdle(o: Origin, job: Job, c: Crew, i: nat) returns (c': Crew)
    requires CrewOk(o, job, c) && i < |c.pcs| && c.pcs[i].Idle?
    requires forall j :: 0 <= j < |c.pcs| ==> !c.pcs[j].Fetching? && !c.pcs[j].Retry?
    ensures Step(o, job, c, c') && Work(c') < Work(c)
  {
    hide Inv, Ask, Resolve, Fallback;
    NobodyBusy(c.pcs);
    var f := job.fs[i];
    if f.attrs.src != "" && Allowed(f, job.lv) {
      c' := Ask(o, job, c, i, false);
      AskWork(o, job, c, i, false);
    } else {
      c' := c.(pcs := c.pcs[i := Done(Resolved(Fallback(job.cfg, job.parent, f), [], []))]);
      PcsUpdate(c.pcs, i, c'.pcs[i]);
    }
    assert Begins(o, job, c, i, c');
  }

  lemma AdvanceRetry(o: Origin, job: Job, c: Crew, i: nat) returns (c': Crew)
    requires CrewOk(o, job, c) && i < |c.pcs| && c.pcs[i].Retry?
    ensures Step(o, job, c, c') && Work(c') < Work(c)
  {
    hide Inv, Ask, Resolve;
    c' := Ask(o, job, c, i, true);
    AskWork(o, job, c, i, true);
    assert Retries(o, job, c, i, c');
  }

  /** A worker waiting on a flight: the flight moves, or its answer is there to take. */
  lemma AdvanceFetching(o: Origin, job: Job, c: Crew, i: nat) returns (c': Crew)
    requires UrlOnly(o) && CrewOk(o, job, c) && i < |c.pcs| && c.pcs[i].Fetching?
    ensures Step(o, job, c, c') && Work(c') < Work(c)
    decreases Left(job.lv), 2
  {
    hide Inv, Resolve, Receives, AfterComplete, AfterDeliver;
    assert PcOk(o, job, c.fg, i, c.pcs[i]);
    var tk := c.pcs[i].ticket;
    if Arrived(c.fg, tk) {
      c' := AdvanceReceive(o, job, c, i);
    } else {
      var t := tk.tracker;
      var call := c.fg.calls[t];
      if call.phase.Running? {
        var a := o([], call.key);
        c' := c.(fg := AfterComplete(c.fg, t, a));
        assert Answers(o, c, t, a, c');
        CompleteWork(c.fg, t, a);
      } else {
        c' := c.(fg := AfterDeliver(c.fg, t));
        assert Hands(c, t, c');
        DeliverWork(c.fg, t);
      }
    }
  }

  lemma CompleteWork(s: State, t: nat, a: Answer)
    requires t < |s.calls| && s.calls[t].phase.Running?
    ensures CallsWork(AfterComplete(s, t, a).calls) < CallsWork(s.calls)
  {
    CallsUpdate(s.calls, t, s.calls[t].(phase := Recorded(a)));
  }

  lemma DeliverWork(s: State, t: nat)
    requires t < |s.calls| && s.calls[t].phase.Recorded?
    ensures CallsWork(AfterDeliver(s, t).calls) < CallsWork(s.calls)
  {
    CallsUpdate(s.calls, t, s.calls[t].(phase := Delivered(s.calls[t].phase.answer)));
  }

  /** Any answer can be digested. */
  lemma LandSomewhere(o: Origin, job: Job, i: nat, alt: bool, a: Answer) returns (pc: Pc)
    requires UrlOnly(o) && i < |job.fs| && Allowed(job.fs[i], job.lv)
    ensures Lands(o, job, i, alt, a, pc) && PcWork(pc) <= if alt then 0 else 2
    decreases Left(job.lv), 0
  {
    hide Fallback, Expands, Expand;
    var f := job.fs[i];
    var fallback, asked := Fallback(job.cfg, job.parent, f), AskedBy(job, i, alt);
    match a {
      case Failed =>
        pc := if !alt && f.attrs.alt != "" then Retry else Done(Resolved(fallback, [], asked));
      case Got(body, cookies) =>
        var lv := Child(f, Url(job, i, alt), job.lv);
        SomeExpansion(o, job, body, cookies, lv);
        pc := Done(Settle(Expand(job.cfg, o, body, cookies, lv, []), fallback, asked));
    }
  }

  lemma AdvanceReceive(o: Origin, job: Job, c: Crew, i: nat) returns (c': Crew)
    requires UrlOnly(o) && CrewOk(o, job, c) && i < |c.pcs| && c.pcs[i].Fetching? && Arrived(c.fg, c.pcs[i].ticket)
    ensures Step(o, job, c, c') && Work(c') < Work(c)
    decreases Left(job.lv), 1
  {
    hide Inv, Resolve, AfterRelease, Lands;
    assert PcOk(o, job, c.fg, i, c.pcs[i]);
    var alt, tk := c.pcs[i].alt, c.pcs[i].ticket;
    var pc := LandSomewhere(o, job, i, alt, AnswerOf(c.fg, tk));
    c' := Crew(LetGo(c.fg, i, alt, tk), c.pcs[i := pc]);
    if tk.Joined? { ReleaseWork(c.fg, Id(i, alt)); }
    PcsUpdate(c.pcs, i, pc);
    assert Receives(o, job, c, i, c');
  }

  predicate AllDone(c: Crew) { forall i :: 0 <= i < |c.pcs| ==> c.pcs[i].Done? }

  /** Some step is always possible, and it shortens the work left. */
  lemma NoDeadlock(o: Origin, job: Job, c: Crew) returns (c': Crew)
    requires UrlOnly(o) && CrewOk(o, job, c) && !AllDone(c)
    ensures Step(o, job, c, c') && Work(c') < Work(c)
    decreases Left(job.lv), 3
  {
    hide CrewOk, Step, Work;
    CrewSize(o, job, c);
    if i :| 0 <= i < |c.pcs| && c.pcs[i].Fetching? {
      c' := AdvanceFetching(o, job, c, i);
    } else if i :| 0 <= i < |c.pcs| && c.pcs[i].Retry? {
      c' := AdvanceRetry(o, job, c, i);
    } else {
      var i :| 0 <= i < |c.pcs| && !c.pcs[i].Done?;
      c' := AdvanceIdle(o, job, c, i);
    }
  }

  lemma CrewSize(o: Origin, job: Job, c: Crew)
    requires CrewOk(o, job, c)
    ensures |c.pcs| == |job.fs|
  {
  }

  lemma {:induction false} RunToEnd(o: Origin, job: Job, run: seq<Crew>) returns (full: seq<Crew>)
    requires UrlOnly(o) && IsRun(o, job, run)
    ensures IsRun(o, job, full) && AllDone(full[|full| - 1])
    decreases Left(job.lv), 4, Work(run[|run| - 1])
  {
    var c := run[|run| - 1];
    RunOk(o, job, run, |run| - 1);
    hide CrewOk, Step, Work;
    if AllDone(c) {
      full := run;
    } else {
      var c' := NoDeadlock(o, job, c);
      var longer := run + [c'];
      forall k | 0 <= k < |longer| - 1 ensures Step(o, job, longer[k], longer[k + 1]) {
        if k < |run| - 1 { assert Step(o, job, run[k], run[k + 1]); }
      }
      full := RunToEnd(o, job, longer);
    }
  }

  /** Every job has an execution, and it ends with the sequential results. */
  lemma SomeExecution(o: Origin, job: Job, at: seq<nat>)
    requires UrlOnly(o)
    ensures Executes(o, job, ResolveAll(job.cfg, o, job.parent, job.fs, 0, job.lv, at))
    decreases Left(job.lv), 5
  {
    hide CrewOk, Step;
    assert IsRun(o, job, [Fresh(job)]);
    var run := RunToEnd(o, job, [Fresh(job)]);
    var last := run[|run| - 1];
    RunOk(o, job, run, |run| - 1);
    CrewSize(o, job, last);
    var rs := seq(|job.fs|, i requires 0 <= i < |job.fs| && last.pcs[i].Done? => last.pcs[i].r);
    hide IsRun;
    assert Finished(last, rs);
    assert Executes(o, job, rs);
    ExecutesUniquely(o, job, rs, at);
  }

  lemma SomeExpansion(o: Origin, job: Job, body: string, cookies: seq<string>, lv: Level)
    requires UrlOnly(o)
    ensures Expands(o, job, body, cookies, lv, Expand(job.cfg, o, body, cookies, lv, []))
    decreases Left(lv), 6
  {
    hide RunsOff, Frags, Assemble, Executes, ResolveAll;
    if !RunsOff(body) && Frags(body) != [] {
      SomeExecution(o, Job(job.cfg, body, Frags(body), lv, job.workers), []);
    }
  }

  // ---------- Every schedule ends ----------

  lemma BeginShortens(o: Origin, job: Job, c: Crew, i: nat, c': Crew)
    requires |c.pcs| == |job.fs| && Inv(c.fg) && i < |job.fs| && Begins(o, job, c, i, c')
    ensures Work(c') < Work(c)
  {
    hide Inv, Ask, Fallback, Busy;
    var settled := Done(Resolved(Fallback(job.cfg, job.parent, job.fs[i]), [], []));
    PcsUpdate(c.pcs, i, settled);
    AskWork(o, job, c, i, false);
  }

  /** An answer taken leaves less to do than waiting for it. */
  lemma LandedWork(o: Origin, job: Job, i: nat, alt: bool, a: Answer, pc: Pc)
    requires i < |job.fs| && Allowed(job.fs[i], job.lv) && Lands(o, job, i, alt, a, pc)
    ensures PcWork(pc) <= if alt then 0 else 2
  {
    hide Fallback, Expands;
  }

  lemma ReceiveShortens(o: Origin, job: Job, c: Crew, i: nat, c': Crew)
    requires |c.pcs| == |job.fs| && i < |job.fs| && Receives(o, job, c, i, c')
    ensures Work(c') < Work(c)
  {
    hide AfterRelease, Lands;
    var alt, tk := c.pcs[i].alt, c.pcs[i].ticket;
    LandedWork(o, job, i, alt, AnswerOf(c.fg, tk), c'.pcs[i]);
    PcsUpdate(c.pcs, i, c'.pcs[i]);
    var l := Id(i, alt);
    if l in c.fg.holders && c.fg.holders[l].tracker < |c.fg.calls| { ReleaseWork(c.fg, l); }
  }

  /** Every step, whichever worker or fetch takes it, shortens the work left. */
  lemma StepShortens(o: Origin, job: Job, c: Crew, c': Crew)
    requires Step(o, job, c, c')
    ensures Work(c') < Work(c)
  {
    hide Begins, Retries, Receives, Inv, AfterComplete, AfterDeliver, Ask;
    if i :| 0 <= i < |job.fs| && Begins(o, job, c, i, c') {
      BeginShortens(o, job, c, i, c');
    } else if i :| 0 <= i < |job.fs| && Retries(o, job, c, i, c') {
      RetryShortens(o, job, c, i, c');
    } else if i :| 0 <= i < |job.fs| && Receives(o, job, c, i, c') {
      ReceiveShortens(o, job, c, i, c');
    } else if t: nat, a :| Answers(o, c, t, a, c') {
      CompleteWork(c.fg, t, a);
    } else {
      var t: nat :| Hands(c, t, c');
      DeliverWork(c.fg, t);
    }
  }

  lemma RetryShortens(o: Origin, job: Job, c: Crew, i: nat, c': Crew)
    requires |c.pcs| == |job.fs| && Inv(c.fg) && i < |job.fs| && Retries(o, job, c, i, c')
    ensures Work(c') < Work(c)
  {
    hide Inv, Ask;
    AskWork(o, job, c, i, true);
  }

  lemma {:induction false} FreshWork(pcs: seq<Pc>)
    requires forall i :: 0 <= i < |pcs| ==> pcs[i].Idle?
    ensures PcsWork(pcs) == 4 * |pcs|
  {
    if pcs != [] { FreshWork(pcs[1..]); }
  }

  lemma {:induction false} WorkDone(o: Origin, job: Job, run: seq<Crew>, k: nat)
    requires IsRun(o, job, run) && k < |run|
    ensures Work(run[k]) + k <= 12 * |job.fs|
  {
    hide Step, Work;
    if k == 0 {
      FreshTotal(job);
    } else {
      WorkDone(o, job, run, k - 1);
      assert Step(o, job, run[k - 1], run[k - 1 + 1]);
      StepShortens(o, job, run[k - 1], run[k]);
    }
  }

  lemma FreshTotal(job: Job)
    ensures Work(Fresh(job)) == 12 * |job.fs|
  {
    FreshWork(Fresh(job).pcs);
  }

  /** No step is possible. */
  ghost predicate Stuck(o: Origin, job: Job, c: Crew) { forall c' :: !Step(o, job, c, c') }

  /** Whatever the schedule, no run of n fragments takes more than 12 n steps; and a run that cannot go on
      has every fragment resolved, to the results of resolving them one by one. */
  lemma EveryScheduleEnds(o: Origin, job: Job, run: seq<Crew>, at: seq<nat>)
    requires UrlOnly(o) && IsRun(o, job, run)
    ensures |run| - 1 <= 12 * |job.fs|
    ensures Stuck(o, job, run[|run| - 1]) ==>
      Finished(run[|run| - 1], ResolveAll(job.cfg, o, job.parent, job.fs, 0, job.lv, at))
  {
    hide CrewOk, Step, Work;
    WorkDone(o, job, run, |run| - 1);
    RunOk(o, job, run, |run| - 1);
    var last := run[|run| - 1];
    if Stuck(o, job, last) {
      CrewSize(o, job, last);
      if !AllDone(last) { var c' := NoDeadlock(o, job, last); }
      var rs := seq(|job.fs|, i requires 0 <= i < |job.fs| && last.pcs[i].Done? => last.pcs[i].r);
      assert Finished(last, rs);
      assert Executes(o, job, rs);
      ExecutesUniquely(o, job, rs, at);
    }
  }
}
