/** Fragments resolved by concurrent workers that share a flight group and a semaphore, nested
    documents included: every interleaving ends with the results of resolving the fragments one
    by one. The origin answers by URL alone and nobody times out. */
module EsiConcurrent {
  import opened EsiParse
  import opened EsiScan
  import opened EsiFlight
  import opened EsiExec

  /** A document whose fragments are to be resolved; `workers` is the configured bound. */
  datatype Job = Job(cfg: Config, parent: string, fs: seq<Fragment>, lv: Level, workers: nat)

  /** Where a worker stands: not started; waiting for `src` or `alt`; about to ask for `alt`; done. */
  datatype Pc = Idle | Fetching(alt: bool, ticket: Ticket) | Retry | Done(r: Resolved)

  datatype Crew = Crew(fg: State, pcs: seq<Pc>)

  /** Distinct URLs need no flight group: each worker then fetches for itself. */
  predicate HasDuplicates(fs: seq<Fragment>) {
    exists i, j :: 0 <= i < j < |fs| && fs[i].attrs.src != "" && fs[i].attrs.src == fs[j].attrs.src
  }

  /** The single-fragment shortcut never uses a flight group. */
  predicate Shared(job: Job) { |job.fs| > 1 && HasDuplicates(job.fs) }

  function Slots(job: Job): (n: nat)
    ensures job.fs != [] ==> n > 0
  {
    var w := if job.workers == 0 then 8 else job.workers;
    if |job.fs| > w then w else |job.fs|
  }

  function Busy(pcs: seq<Pc>): nat {
    if pcs == [] then 0 else (if pcs[0].Fetching? || pcs[0].Retry? then 1 else 0) + Busy(pcs[1..])
  }

  function Id(i: nat, alt: bool): nat { 2 * i + if alt then 1 else 0 }

  function Url(job: Job, i: nat, alt: bool): string
    requires i < |job.fs|
  {
    if alt then job.fs[i].attrs.alt else job.fs[i].attrs.src
  }

  // ---------- Steps ----------

  function Ask(o: Origin, job: Job, c: Crew, i: nat, alt: bool): Crew
    requires i < |job.fs| && i < |c.pcs| && Inv(c.fg)
  {
    var u := Url(job, i, alt);
    if Shared(job) then
      TicketDefined(c.fg, u);
      Crew(AfterDo(c.fg, Id(i, alt), u), c.pcs[i := Fetching(alt, TicketOf(c.fg, u))])
    else c.(pcs := c.pcs[i := Fetching(alt, Memo(o([], u), 0))])
  }

  lemma TicketDefined(s: State, k: Key)
    requires Inv(s)
    ensures k in s.memo ==> k in s.memoBy
    ensures k in s.trackers ==> s.trackers[k] < |s.calls|
  {
    if k in s.trackers { assert IsCall(s, s.trackers[k], k); }
  }

  /** Worker `i` starts: strips resolve at once, includes take a semaphore slot. */
  ghost predicate Begins(o: Origin, job: Job, c: Crew, i: nat, c': Crew)
    requires i < |job.fs| && i < |c.pcs| && Inv(c.fg)
  {
    var f := job.fs[i];
    var settled := c.(pcs := c.pcs[i := Done(Resolved(Fallback(job.cfg, job.parent, f), [], []))]);
    && c.pcs[i].Idle?
    && (f.attrs.src == "" ==> c' == settled)
    && (f.attrs.src != "" ==>
          && Busy(c.pcs) < Slots(job)
          && c' == if Allowed(f, job.lv) then Ask(o, job, c, i, false) else settled)
  }

  ghost predicate Retries(o: Origin, job: Job, c: Crew, i: nat, c': Crew)
    requires i < |job.fs| && i < |c.pcs| && Inv(c.fg)
  {
    c.pcs[i].Retry? && c' == Ask(o, job, c, i, true)
  }

  /** An answer has arrived for the ticket. */
  predicate Arrived(fg: State, t: Ticket) {
    t.Joined? ==> t.tracker < |fg.calls| && fg.calls[t.tracker].phase.Delivered?
  }

  function AnswerOf(fg: State, t: Ticket): Answer
    requires Arrived(fg, t)
  {
    if t.Memo? then t.answer else fg.calls[t.tracker].phase.answer
  }

  function LetGo(fg: State, i: nat, alt: bool, t: Ticket): State {
    if t.Joined? && Id(i, alt) in fg.holders && fg.holders[Id(i, alt)].tracker < |fg.calls|
    then AfterRelease(fg, Id(i, alt)) else fg
  }

  function AskedBy(job: Job, i: nat, alt: bool): seq<Fetch>
    requires i < |job.fs|
  {
    var f, lv := job.fs[i], job.lv;
    var asked := [Asked(f, f.attrs.src, false, lv)];
    if alt then asked + [Asked(f, f.attrs.alt, true, lv)] else asked
  }

  /** What worker `i` makes of answer `a`: expand it, try `alt`, or fall back. */
  ghost predicate Lands(o: Origin, job: Job, i: nat, alt: bool, a: Answer, pc: Pc)
    requires i < |job.fs| && Allowed(job.fs[i], job.lv)
    decreases Left(job.lv), 0
  {
    var f := job.fs[i];
    var fallback, asked := Fallback(job.cfg, job.parent, f), AskedBy(job, i, alt);
    match a
    case Got(body, cookies) =>
      exists e :: Expands(o, job, body, cookies, Child(f, Url(job, i, alt), job.lv), e) && pc == Done(Settle(e, fallback, asked))
    case Failed =>
      pc == if !alt && f.attrs.alt != "" then Retry else Done(Resolved(fallback, [], asked))
  }

  ghost predicate Receives(o: Origin, job: Job, c: Crew, i: nat, c': Crew)
    requires i < |job.fs| && i < |c.pcs|
    decreases Left(job.lv), 1
  {
    && c.pcs[i].Fetching? && Allowed(job.fs[i], job.lv) && Arrived(c.fg, c.pcs[i].ticket)
    && |c'.pcs| == |c.pcs| && c'.pcs == c.pcs[i := c'.pcs[i]]
    && c'.fg == LetGo(c.fg, i, c.pcs[i].alt, c.pcs[i].ticket)
    && Lands(o, job, i, c.pcs[i].alt, AnswerOf(c.fg, c.pcs[i].ticket), c'.pcs[i])
  }

  /** The origin answers a running fetch; a cancelled fetch may report anything. */
  ghost predicate Answers(o: Origin, c: Crew, t: nat, a: Answer, c': Crew) {
    && t < |c.fg.calls| && c.fg.calls[t].phase.Running?
    && (!c.fg.calls[t].cancelled ==> a == o([], c.fg.calls[t].key))
    && c' == c.(fg := AfterComplete(c.fg, t, a))
  }

  ghost predicate Hands(c: Crew, t: nat, c': Crew) {
    t < |c.fg.calls| && c.fg.calls[t].phase.Recorded? && c' == c.(fg := AfterDeliver(c.fg, t))
  }

  ghost predicate Step(o: Origin, job: Job, c: Crew, c': Crew)
    decreases Left(job.lv), 2
  {
    && |c.pcs| == |job.fs| && Inv(c.fg)
    && (|| (exists i :: 0 <= i < |job.fs| && Begins(o, job, c, i, c'))
        || (exists i :: 0 <= i < |job.fs| && Retries(o, job, c, i, c'))
        || (exists i :: 0 <= i < |job.fs| && Receives(o, job, c, i, c'))
        || (exists t: nat, a :: Answers(o, c, t, a, c'))
        || (exists t: nat :: Hands(c, t, c')))
  }

  function Fresh(job: Job): Crew { Crew(START, seq(|job.fs|, _ => Idle)) }

  ghost predicate IsRun(o: Origin, job: Job, run: seq<Crew>)
    decreases Left(job.lv), 3
  {
    && run != [] && run[0] == Fresh(job)
    && forall k :: 0 <= k < |run| - 1 ==> Step(o, job, run[k], run[k + 1])
  }

  ghost predicate Finished(c: Crew, rs: seq<Resolved>) {
    |c.pcs| == |rs| && forall i :: 0 <= i < |rs| ==> c.pcs[i] == Done(rs[i])
  }

  /** Some concurrent execution of the job ends with these results. */
  ghost predicate Executes(o: Origin, job: Job, rs: seq<Resolved>)
    decreases Left(job.lv), 4
  {
    exists run :: IsRun(o, job, run) && Finished(run[|run| - 1], rs)
  }

  /** Some concurrent execution expands a nested document to `e`. */
  ghost predicate Expands(o: Origin, job: Job, body: string, cookies: seq<string>, lv: Level, e: Expansion)
    decreases Left(lv), 5
  {
    if RunsOff(body) then e == Died
    else if Frags(body) == [] then e == Expanded(body, cookies, [])
    else exists rs :: |rs| == |Frags(body)| && Executes(o, Job(job.cfg, body, Frags(body), lv, job.workers), rs)
                   && e == Assemble(body, Frags(body), cookies, rs)
  }

  // ---------- What every step keeps ----------

  /** The origin's answer depends on the URL alone. */
  ghost predicate UrlOnly(o: Origin) { forall p, u :: o(p, u) == o([], u) }

  /** Nothing was cancelled before its answer was handed out, and answers are the origin's. */
  ghost predicate Honest(o: Origin, fg: State) {
    forall t :: 0 <= t < |fg.calls| ==> HonestCall(o, fg.calls[t])
  }

  ghost predicate HonestCall(o: Origin, c: Call) {
    && (c.cancelled ==> c.phase.Delivered?)
    && (!c.phase.Running? ==> c.phase.answer == o([], c.key))
  }

  /** A worker's ticket speaks for its URL. */
  ghost predicate TicketOk(o: Origin, fg: State, id: nat, u: string, t: Ticket) {
    match t
    case Memo(a, _) => a == o([], u)
    case Joined(n) => n < |fg.calls| && fg.calls[n].key == u && id in fg.holders && fg.holders[id].tracker == n
  }

  ghost predicate PcOk(o: Origin, job: Job, fg: State, i: nat, pc: Pc)
    requires i < |job.fs|
  {
    var f := job.fs[i];
    match pc
    case Idle => true
    case Fetching(alt, t) =>
      && f.attrs.src != "" && Allowed(f, job.lv) && TicketOk(o, fg, Id(i, alt), Url(job, i, alt), t)
      && (alt ==> o([], f.attrs.src) == Failed && f.attrs.alt != "")
    case Retry => f.attrs.src != "" && Allowed(f, job.lv) && o([], f.attrs.src) == Failed && f.attrs.alt != ""
    case Done(r) => r == Resolve(job.cfg, o, job.parent, f, job.lv, [])
  }

  /** Every holder is a worker waiting in a flight. */
  ghost predicate Waiting(pcs: seq<Pc>, l: nat) {
    l / 2 < |pcs| && pcs[l / 2].Fetching? && pcs[l / 2].ticket.Joined? && l == Id(l / 2, pcs[l / 2].alt)
  }

  ghost predicate CrewOk(o: Origin, job: Job, c: Crew) {
    && |c.pcs| == |job.fs| && Inv(c.fg) && Honest(o, c.fg)
    && (forall i :: 0 <= i < |c.pcs| ==> PcOk(o, job, c.fg, i, c.pcs[i]))
    && (forall l :: l in c.fg.holders ==> Waiting(c.pcs, l))
  }

  lemma NotWaiting(o: Origin, job: Job, c: Crew, i: nat, alt: bool)
    requires CrewOk(o, job, c) && i < |c.pcs| && !c.pcs[i].Fetching?
    ensures Id(i, alt) !in c.fg.holders
  {
    assert Id(i, alt) / 2 == i;
  }

  // ---------- Effects of the flight group's steps on calls and holders ----------

  /** Calls keep their key, phase and cancellation; new ones are running and wanted. */
  ghost predicate Extends(s: State, s': State) {
    && |s.calls| <= |s'.calls|
    && (forall t :: 0 <= t < |s.calls| ==>
          s'.calls[t].key == s.calls[t].key && s'.calls[t].phase == s.calls[t].phase && s'.calls[t].cancelled == s.calls[t].cancelled)
    && (forall t :: |s.calls| <= t < |s'.calls| ==> s'.calls[t].phase.Running? && !s'.calls[t].cancelled)
  }

  lemma DoEffect(s: State, l: nat, k: Key)
    requires Inv(s) && l !in s.holders
    ensures k in s.memo ==> k in s.memoBy
    ensures k in s.trackers ==> s.trackers[k] < |s.calls|
    ensures var s', t := AfterDo(s, l, k), TicketOf(s, k);
      && Extends(s, s')
      && (t.Memo? ==> s'.holders == s.holders)
      && (t.Joined? ==> t.tracker < |s'.calls| && s'.calls[t.tracker].key == k
                        && exists h: Holder :: h.tracker == t.tracker && s'.holders == s.holders[l := h])
  {
    hide Inv;
    DoKeeps(s, l, k);
    TrackerKey(s, k);
    var s' := AfterDo(s, l, k);
    if k !in s.memo {
      assert s'.holders == s.holders[l := s'.holders[l]];
    }
  }

  lemma TrackerKey(s: State, k: Key)
    requires Inv(s)
    ensures k in s.trackers ==> IsCall(s, s.trackers[k], k)
  {
  }

  lemma HonestExtends(o: Origin, s: State, s': State)
    requires Honest(o, s) && Extends(s, s')
    ensures Honest(o, s')
  {
    forall t | 0 <= t < |s'.calls| ensures HonestCall(o, s'.calls[t]) {
      if t < |s.calls| { assert HonestCall(o, s.calls[t]); }
    }
  }

  lemma MemoHonest(o: Origin, s: State, k: Key)
    requires Inv(s) && Honest(o, s) && k in s.memo
    ensures s.memo[k] == o([], k)
  {
    MemoLinked(s, k);
    hide Inv;
    assert HonestCall(o, s.calls[s.memoBy[k]]);
  }

  /** Another worker's standing survives a step that keeps its holder and the calls. */
  lemma PcSurvives(o: Origin, job: Job, s: State, s': State, i: nat, pc: Pc)
    requires i < |job.fs| && PcOk(o, job, s, i, pc)
    requires |s.calls| <= |s'.calls| && forall t :: 0 <= t < |s.calls| ==> s'.calls[t].key == s.calls[t].key
    requires pc.Fetching? && pc.ticket.Joined? ==>
      var id := Id(i, pc.alt); id in s.holders ==> id in s'.holders && s'.holders[id].tracker == s.holders[id].tracker
    ensures PcOk(o, job, s', i, pc)
  {
  }

  // ---------- Each kind of step ----------

  /** A worker that waits for nothing moves on without touching the flight group. */
  lemma PcReplaced(o: Origin, job: Job, c: Crew, i: nat, pc: Pc)
    requires CrewOk(o, job, c) && i < |c.pcs| && !c.pcs[i].Fetching? && PcOk(o, job, c.fg, i, pc)
    ensures CrewOk(o, job, c.(pcs := c.pcs[i := pc]))
  {
    hide Inv, Honest, PcOk;
    var c' := c.(pcs := c.pcs[i := pc]);
    forall j | 0 <= j < |c'.pcs| ensures PcOk(o, job, c'.fg, j, c'.pcs[j]) {
      if j != i { assert PcOk(o, job, c.fg, j, c.pcs[j]); }
    }
    forall l | l in c'.fg.holders ensures Waiting(c'.pcs, l) { assert Waiting(c.pcs, l); }
  }

  lemma AskKeeps(o: Origin, job: Job, c: Crew, i: nat, alt: bool)
    requires CrewOk(o, job, c) && i < |c.pcs| && !c.pcs[i].Fetching? && !c.pcs[i].Done?
    requires job.fs[i].attrs.src != "" && Allowed(job.fs[i], job.lv)
    requires alt ==> o([], job.fs[i].attrs.src) == Failed && job.fs[i].attrs.alt != ""
    ensures CrewOk(o, job, Ask(o, job, c, i, alt))
  {
    hide Inv, Resolve, Fallback, Honest, Waiting;
    if Shared(job) {
      SharedAskKeeps(o, job, c, i, alt);
    } else {
      PcReplaced(o, job, c, i, Fetching(alt, Memo(o([], Url(job, i, alt)), 0)));
    }
  }

  lemma SharedAskKeeps(o: Origin, job: Job, c: Crew, i: nat, alt: bool)
    requires CrewOk(o, job, c) && i < |c.pcs| && !c.pcs[i].Fetching? && !c.pcs[i].Done? && Shared(job)
    requires job.fs[i].attrs.src != "" && Allowed(job.fs[i], job.lv)
    requires alt ==> o([], job.fs[i].attrs.src) == Failed && job.fs[i].attrs.alt != ""
    ensures CrewOk(o, job, Ask(o, job, c, i, alt))
  {
    hide Inv, Resolve, Fallback, AfterDo, TicketOf, Extends, Honest;
    var id, u := Id(i, alt), Url(job, i, alt);
    NotWaiting(o, job, c, i, alt);
    DoEffect(c.fg, id, u);
    DoKeeps(c.fg, id, u);
    var c' := Ask(o, job, c, i, alt);
    var tk := TicketOf(c.fg, u);
    HonestExtends(o, c.fg, c'.fg);
    NewTicketOk(o, c.fg, id, u);
    assert id / 2 == i;
    forall l | l in c'.fg.holders ensures Waiting(c'.pcs, l) {
      if l != id { assert l in c.fg.holders && Waiting(c.pcs, l); }
    }
    forall j | 0 <= j < |c'.pcs| ensures PcOk(o, job, c'.fg, j, c'.pcs[j]) {
      if j != i {
        ExtendsKeys(c.fg, c'.fg);
        PcSurvives(o, job, c.fg, c'.fg, j, c.pcs[j]);
      }
    }
  }

  lemma ExtendsKeys(s: State, s': State)
    requires Extends(s, s')
    ensures |s.calls| <= |s'.calls| && forall t :: 0 <= t < |s.calls| ==> s'.calls[t].key == s.calls[t].key
  {
  }

  lemma NewTicketOk(o: Origin, s: State, l: nat, k: Key)
    requires Inv(s) && Honest(o, s) && l !in s.holders
    ensures (k in s.memo ==> k in s.memoBy) && (k in s.trackers ==> s.trackers[k] < |s.calls|)
    ensures TicketOk(o, AfterDo(s, l, k), l, k, TicketOf(s, k))
  {
    DoEffect(s, l, k);
    if k in s.memo { MemoHonest(o, s, k); }
    hide Inv, Honest, AfterDo;
  }

  lemma ReleaseEffect(s: State, l: nat)
    requires Inv(s) && l in s.holders
    ensures s.holders[l].tracker < |s.calls| && Inv(AfterRelease(s, l))
    ensures var s', n := AfterRelease(s, l), s.holders[l].tracker;
      && |s'.calls| == |s.calls| && s'.holders == s.holders - {l}
      && (forall t :: 0 <= t < |s.calls| ==> s'.calls[t].key == s.calls[t].key && s'.calls[t].phase == s.calls[t].phase)
      && (forall t :: 0 <= t < |s.calls| && t != n ==> s'.calls[t].cancelled == s.calls[t].cancelled)
  {
    hide Inv;
    HolderLinked(s, l);
    StepKeeps(s, EvRelease(l));
  }

  lemma HonestRelease(o: Origin, s: State, l: nat)
    requires Inv(s) && Honest(o, s) && l in s.holders && s.holders[l].tracker < |s.calls|
    requires s.calls[s.holders[l].tracker].phase.Delivered?
    ensures Honest(o, AfterRelease(s, l))
  {
    ReleaseEffect(s, l);
    hide Inv;
    var s' := AfterRelease(s, l);
    hide AfterRelease;
    forall t | 0 <= t < |s'.calls| ensures HonestCall(o, s'.calls[t]) { assert HonestCall(o, s.calls[t]); }
  }

  /** The answer a worker receives is the origin's answer for its URL. */
  lemma ReceivedHonest(o: Origin, job: Job, c: Crew, i: nat)
    requires CrewOk(o, job, c) && i < |c.pcs| && c.pcs[i].Fetching? && Arrived(c.fg, c.pcs[i].ticket)
    ensures AnswerOf(c.fg, c.pcs[i].ticket) == o([], Url(job, i, c.pcs[i].alt))
  {
    hide Inv, Resolve;
    assert PcOk(o, job, c.fg, i, c.pcs[i]);
    var tk := c.pcs[i].ticket;
    if tk.Joined? { assert HonestCall(o, c.fg.calls[tk.tracker]); }
  }

  /** Another worker's standing survives a worker taking its answer. */
  lemma ReceivedOther(o: Origin, job: Job, c: Crew, i: nat, c': Crew, j: nat)
    requires CrewOk(o, job, c) && i < |c.pcs| && Receives(o, job, c, i, c') && j < |c.pcs| && j != i
    ensures PcOk(o, job, c'.fg, j, c'.pcs[j])
  {
    hide Inv, Resolve, Fallback, AfterRelease, Honest, Lands, AnswerOf;
    var alt, tk := c.pcs[i].alt, c.pcs[i].ticket;
    assert PcOk(o, job, c.fg, i, c.pcs[i]) && PcOk(o, job, c.fg, j, c.pcs[j]);
    assert c'.pcs[j] == c.pcs[j];
    if tk.Joined? {
      ReleaseEffect(c.fg, Id(i, alt));
      OtherId(i, alt, j);
      PcSurvives(o, job, c.fg, c'.fg, j, c.pcs[j]);
    }
  }

  /** A memo answer leaves the flight group alone. */
  lemma ReceivedMemo(o: Origin, job: Job, c: Crew, i: nat, c': Crew)
    requires CrewOk(o, job, c) && i < |c.pcs| && Receives(o, job, c, i, c') && !c.pcs[i].ticket.Joined?
    ensures Inv(c'.fg) && Honest(o, c'.fg) && c'.fg.holders == c.fg.holders
  {
    hide Inv, Honest, PcOk, Lands, AnswerOf, Waiting;
  }

  /** An answer from a flight releases its worker. */
  lemma ReceivedFlight(o: Origin, job: Job, c: Crew, i: nat, c': Crew)
    requires CrewOk(o, job, c) && i < |c.pcs| && Receives(o, job, c, i, c') && c.pcs[i].ticket.Joined?
    ensures Inv(c'.fg) && Honest(o, c'.fg) && c'.fg.holders == c.fg.holders - {Id(i, c.pcs[i].alt)}
  {
    hide Inv, Resolve, Fallback, AfterRelease, Honest, Lands, AnswerOf, Waiting;
    assert PcOk(o, job, c.fg, i, c.pcs[i]);
    ReleaseEffect(c.fg, Id(i, c.pcs[i].alt));
    HonestRelease(o, c.fg, Id(i, c.pcs[i].alt));
  }

  lemma StillWaiting(pcs: seq<Pc>, pcs': seq<Pc>, i: nat, l: nat)
    requires i < |pcs| == |pcs'| && pcs' == pcs[i := pcs'[i]] && Waiting(pcs, l)
    requires pcs[i].Fetching? && (!pcs[i].ticket.Joined? || l != Id(i, pcs[i].alt))
    ensures Waiting(pcs', l)
  {
    assert l / 2 != i;
  }

  /** Taking an answer keeps the flight group sound and its holders waiting. */
  lemma ReceivedGroup(o: Origin, job: Job, c: Crew, i: nat, c': Crew)
    requires CrewOk(o, job, c) && i < |c.pcs| && Receives(o, job, c, i, c')
    ensures Inv(c'.fg) && Honest(o, c'.fg) && forall l :: l in c'.fg.holders ==> Waiting(c'.pcs, l)
  {
    hide Inv, AfterRelease, Honest, Lands, AnswerOf, LetGo, PcOk, Waiting;
    if c.pcs[i].ticket.Joined? { ReceivedFlight(o, job, c, i, c'); } else { ReceivedMemo(o, job, c, i, c'); }
    forall l | l in c'.fg.holders ensures Waiting(c'.pcs, l) { StillWaiting(c.pcs, c'.pcs, i, l); }
  }

  lemma ReceiveKeeps(o: Origin, job: Job, c: Crew, i: nat, c': Crew)
    requires UrlOnly(o) && CrewOk(o, job, c) && i < |c.pcs| && Receives(o, job, c, i, c')
    ensures CrewOk(o, job, c')
    decreases Left(job.lv), 1
  {
    ReceivedGroup(o, job, c, i, c');
    assert PcOk(o, job, c.fg, i, c.pcs[i]);
    hide Inv, Resolve, Fallback, AfterRelease, Honest, Lands, Waiting;
    ReceivedHonest(o, job, c, i);
    LandsOk(o, job, c'.fg, i, c.pcs[i].alt, c'.pcs[i]);
    forall j | 0 <= j < |c'.pcs| && j != i ensures PcOk(o, job, c'.fg, j, c'.pcs[j]) { ReceivedOther(o, job, c, i, c', j); }
  }

  lemma OtherId(i: nat, alt: bool, j: nat)
    requires i != j
    ensures Id(j, false) != Id(i, alt) && Id(j, true) != Id(i, alt)
  {
  }

  /** What a worker makes of the origin's answer is what resolving its fragment alone would give. */
  lemma LandsOk(o: Origin, job: Job, fg: State, i: nat, alt: bool, pc: Pc)
    requires UrlOnly(o) && i < |job.fs| && job.fs[i].attrs.src != "" && Allowed(job.fs[i], job.lv)
    requires alt ==> o([], job.fs[i].attrs.src) == Failed && job.fs[i].attrs.alt != ""
    requires Lands(o, job, i, alt, o([], Url(job, i, alt)), pc)
    ensures PcOk(o, job, fg, i, pc)
    decreases Left(job.lv), 0
  {
    hide Inv, Fallback, Expand, Expands;
    var f := job.fs[i];
    var at := [] + [if alt then 1 else 0];
    assert o(at, Url(job, i, alt)) == o([], Url(job, i, alt));
    assert o([] + [0], f.attrs.src) == o([], f.attrs.src);
    match o([], Url(job, i, alt))
    case Failed =>
      if alt { assert o([] + [1], f.attrs.alt) == o([], f.attrs.alt); }
    case Got(body, cookies) =>
      var lv := Child(f, Url(job, i, alt), job.lv);
      var fallback, asked := Fallback(job.cfg, job.parent, f), AskedBy(job, i, alt);
      var e :| Expands(o, job, body, cookies, lv, e) && pc == Done(Settle(e, fallback, asked));
      ExpandsUniquely(o, job, body, cookies, lv, e, at);
      var r := Resolve(job.cfg, o, job.parent, f, job.lv, []);
      if alt {
        assert o([] + [1], f.attrs.alt) == Got(body, cookies);
        assert r == Finish(job.cfg, o, body, cookies, lv, [] + [1], fallback, asked);
      } else {
        assert r == Finish(job.cfg, o, body, cookies, lv, [] + [0], fallback, asked);
      }
  }

  lemma AnswerKeeps(o: Origin, job: Job, c: Crew, t: nat, a: Answer, c': Crew)
    requires CrewOk(o, job, c) && Answers(o, c, t, a, c')
    ensures CrewOk(o, job, c')
  {
    hide Inv, Resolve, Fallback;
    StepKeeps(c.fg, EvComplete(t, a));
    assert HonestCall(o, c.fg.calls[t]);
    forall u | 0 <= u < |c'.fg.calls| ensures HonestCall(o, c'.fg.calls[u]) { assert HonestCall(o, c.fg.calls[u]); }
    forall j | 0 <= j < |c'.pcs| ensures PcOk(o, job, c'.fg, j, c'.pcs[j]) {
      PcSurvives(o, job, c.fg, c'.fg, j, c.pcs[j]);
    }
    forall l | l in c'.fg.holders ensures Waiting(c'.pcs, l) { assert Waiting(c.pcs, l); }
  }

  lemma HandKeeps(o: Origin, job: Job, c: Crew, t: nat, c': Crew)
    requires CrewOk(o, job, c) && Hands(c, t, c')
    ensures CrewOk(o, job, c')
  {
    hide Inv, Resolve, Fallback;
    StepKeeps(c.fg, EvDeliver(t));
    forall u | 0 <= u < |c'.fg.calls| ensures HonestCall(o, c'.fg.calls[u]) { assert HonestCall(o, c.fg.calls[u]); }
    forall j | 0 <= j < |c'.pcs| ensures PcOk(o, job, c'.fg, j, c'.pcs[j]) {
      PcSurvives(o, job, c.fg, c'.fg, j, c.pcs[j]);
    }
    forall l | l in c'.fg.holders ensures Waiting(c'.pcs, l) { assert Waiting(c.pcs, l); }
  }

  lemma BeginKeeps(o: Origin, job: Job, c: Crew, i: nat, c': Crew)
    requires CrewOk(o, job, c) && i < |c.pcs| && Begins(o, job, c, i, c')
    ensures CrewOk(o, job, c')
  {
    hide Inv, Ask, Finish, Fallback, Honest, Waiting, Busy;
    var f := job.fs[i];
    if f.attrs.src != "" && Allowed(f, job.lv) {
      AskKeeps(o, job, c, i, false);
    } else {
      PcReplaced(o, job, c, i, Done(Resolved(Fallback(job.cfg, job.parent, f), [], [])));
    }
  }

  lemma CrewStepKeeps(o: Origin, job: Job, c: Crew, c': Crew)
    requires UrlOnly(o) && CrewOk(o, job, c) && Step(o, job, c, c')
    ensures CrewOk(o, job, c')
    decreases Left(job.lv), 2
  {
    hide CrewOk, Begins, Retries, Receives, Answers, Hands, Inv;
    if i :| 0 <= i < |job.fs| && Begins(o, job, c, i, c') {
      BeginKeeps(o, job, c, i, c');
    } else if i :| 0 <= i < |job.fs| && Retries(o, job, c, i, c') {
      RetryKeeps(o, job, c, i, c');
    } else if i :| 0 <= i < |job.fs| && Receives(o, job, c, i, c') {
      ReceiveKeeps(o, job, c, i, c');
    } else if t: nat, a :| Answers(o, c, t, a, c') {
      AnswerKeeps(o, job, c, t, a, c');
    } else {
      var t: nat :| Hands(c, t, c');
      HandKeeps(o, job, c, t, c');
    }
  }

  lemma RetryKeeps(o: Origin, job: Job, c: Crew, i: nat, c': Crew)
    requires CrewOk(o, job, c) && i < |c.pcs| && Retries(o, job, c, i, c')
    ensures CrewOk(o, job, c')
  {
    hide Inv, Ask, Resolve;
    assert PcOk(o, job, c.fg, i, c.pcs[i]);
    AskKeeps(o, job, c, i, true);
  }

  lemma FreshOk(o: Origin, job: Job)
    ensures CrewOk(o, job, Fresh(job))
  {
  }

  lemma {:induction false} RunOk(o: Origin, job: Job, run: seq<Crew>, k: nat)
    requires UrlOnly(o) && IsRun(o, job, run) && k < |run|
    ensures CrewOk(o, job, run[k])
    decreases Left(job.lv), 3, k
  {
    hide CrewOk, Step;
    if k == 0 {
      FreshOk(o, job);
    } else {
      RunOk(o, job, run, k - 1);
      CrewStepKeeps(o, job, run[k - 1], run[k]);
    }
  }

  /** Whatever the interleaving, the results are those of resolving the fragments one by one. */
  lemma {:induction false} ExecutesUniquely(o: Origin, job: Job, rs: seq<Resolved>, at: seq<nat>)
    requires UrlOnly(o) && Executes(o, job, rs)
    ensures |rs| == |job.fs| && rs == ResolveAll(job.cfg, o, job.parent, job.fs, 0, job.lv, at)
    ensures CookiesOf(rs) == CookiesOf(ResolveAll(job.cfg, o, job.parent, job.fs, 0, job.lv, at))
    decreases Left(job.lv), 4
  {
    hide Step, Inv, Resolve;
    var run: seq<Crew> :| IsRun(o, job, run) && Finished(run[|run| - 1], rs);
    RunOk(o, job, run, |run| - 1);
    hide IsRun;
    var all := ResolveAll(job.cfg, o, job.parent, job.fs, 0, job.lv, at);
    hide ResolveAll;
    forall i | 0 <= i < |rs| ensures rs[i] == all[i] {
      assert PcOk(o, job, run[|run| - 1].fg, i, run[|run| - 1].pcs[i]);
      ResolveAnywhere(job.cfg, o, job.parent, job.fs[i], job.lv, [], at + [0 + i]);
    }
  }

  lemma {:induction false} ExpandsUniquely(o: Origin, job: Job, body: string, cookies: seq<string>, lv: Level,
                                           e: Expansion, at: seq<nat>)
    requires UrlOnly(o) && Expands(o, job, body, cookies, lv, e)
    ensures e == Expand(job.cfg, o, body, cookies, lv, at)
    decreases Left(lv), 5
  {
    hide RunsOff, Frags, Assemble, Executes, ResolveAll;
    if !RunsOff(body) && Frags(body) != [] {
      var sub := Job(job.cfg, body, Frags(body), lv, job.workers);
      var rs :| |rs| == |Frags(body)| && Executes(o, sub, rs) && e == Assemble(body, Frags(body), cookies, rs);
      ExecutesUniquely(o, sub, rs, at);
    }
  }

  /** An origin that looks at URLs only resolves a fragment alike wherever it stands. */
  lemma {:induction false} ResolveAnywhere(cfg: Config, o: Origin, parent: string, f: Fragment, lv: Level,
                                           at: seq<nat>, at': seq<nat>)
    requires UrlOnly(o)
    ensures Resolve(cfg, o, parent, f, lv, at) == Resolve(cfg, o, parent, f, lv, at')
    decreases Left(lv), 0, 1
  {
    hide Expand, Fallback;
    if f.attrs.src != "" && Allowed(f, lv) {
      assert o(at + [0], f.attrs.src) == o([], f.attrs.src) == o(at' + [0], f.attrs.src);
      assert o(at + [1], f.attrs.alt) == o([], f.attrs.alt) == o(at' + [1], f.attrs.alt);
      match o([], f.attrs.src)
      case Got(body, cookies) => ExpandAnywhere(cfg, o, body, cookies, Child(f, f.attrs.src, lv), at + [0], at' + [0]);
      case Failed =>
        match o([], f.attrs.alt)
        case Got(body, cookies) => ExpandAnywhere(cfg, o, body, cookies, Child(f, f.attrs.alt, lv), at + [1], at' + [1]);
        case Failed =>
    }
  }

  lemma {:induction false} ExpandAnywhere(cfg: Config, o: Origin, body: string, cookies: seq<string>, lv: Level,
                                          at: seq<nat>, at': seq<nat>)
    requires UrlOnly(o)
    ensures Expand(cfg, o, body, cookies, lv, at) == Expand(cfg, o, body, cookies, lv, at')
    decreases Left(lv), 2, 0
  {
    hide RunsOff, Frags, Resolve, Assemble;
    if !RunsOff(body) {
      var fs := Frags(body);
      var rs, rs' := ResolveAll(cfg, o, body, fs, 0, lv, at), ResolveAll(cfg, o, body, fs, 0, lv, at');
      forall i | 0 <= i < |fs| ensures rs[i] == rs'[i] {
        ResolveAnywhere(cfg, o, body, fs[i], lv, at + [0 + i], at' + [0 + i]);
      }
      assert rs == rs';
    }
  }
}
