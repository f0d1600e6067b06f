/** What every reachable state of the scheduler satisfies, and why every event keeps it. */
module ProtocolInvariant {
  import opened Common
  import opened SchedulerProtocol

  // ---------- Counting over workers ----------

  function Sum(ws: seq<Worker>, f: Worker -> nat): nat {
    if ws == [] then 0 else f(ws[0]) + Sum(ws[1..], f)
  }

  lemma {:induction false} SumUpdate(ws: seq<Worker>, i: nat, w: Worker, f: Worker -> nat)
    requires i < |ws|
    ensures Sum(ws[i := w], f) + f(ws[i]) == Sum(ws, f) + f(w)
  {
    if i > 0 {
      assert ws[i := w][1..] == ws[1..][i - 1 := w];
      SumUpdate(ws[1..], i - 1, w, f);
    } else {
      assert ws[i := w][1..] == ws[1..];
    }
  }

  lemma {:induction false} SumPositive(ws: seq<Worker>, i: nat, f: Worker -> nat)
    requires i < |ws|
    ensures Sum(ws, f) >= f(ws[i])
  {
    if i > 0 { SumPositive(ws[1..], i - 1, f); }
  }

  /** One for a worker between erasing an entry and the matching decrement. */
  function Counted(w: Worker): nat {
    if w.pc.Took? || w.pc.Running? || w.pc.Swapped? || w.pc.Discarding? then 1 else 0
  }

  // ---------- The invariant ----------

  predicate Startable(st: CState) {
    st.INIT? || st.READY? || st.HOLD?
  }

  predicate Begun(st: CState) {
    st.READY? || st.EXEC? || st.HOLD?
  }

  function JobOf(pc: Pc): Option<Job> {
    match pc
    case Running(job) => Some(job)
    case Swapped(job) => Some(job)
    case Settling(job) => Some(job)
    case _ => None
  }

  function TicketOf(pc: Pc): Option<nat> {
    if pc.Took? then Some(pc.e.ticket)
    else if JobOf(pc).Some? then Some(JobOf(pc).value.ticket)
    else None
  }

  predicate Stuck(w: Worker) {
    w.pc.Leaving? || w.pc.Exited? || (w.pc.NoWork? && w.idle.TERM?)
  }

  /** The worker will scan again before it leaves `run`. */
  predicate WillScan(s: State, i: nat)
    requires i < |s.ws|
  {
    && !Stuck(s.ws[i])
    && (s.ws[i].pc.NotStarted? ==> s.control.Open? || s.control.AutoSet? || s.control.StopSet?)
  }

  ghost predicate EntryOk(s: State, e: Entry) {
    && e.ticket < |s.log|
    && s.log[e.ticket].work == e.work && s.log[e.ticket].thread == e.thread
    && s.log[e.ticket].slices == 0
    && (e.work.Co? ==>
          && e.work.c in s.co
          && s.co[e.work.c].loc == Out(e.ticket)
          && Startable(s.co[e.work.c].state))
  }

  ghost predicate QueuedOk(s: State, k: nat)
    requires k < |s.queue|
  {
    EntryOk(s, s.queue[k]) && s.log[s.queue[k].ticket].place.Queued?
  }

  ghost predicate Ascending(q: seq<Entry>) {
    forall j, k :: 0 <= j < k < |q| ==> q[j].ticket < q[k].ticket
  }

  ghost predicate QueueOk(s: State) {
    Ascending(s.queue) && forall k :: 0 <= k < |s.queue| ==> QueuedOk(s, k)
  }

  ghost predicate JobOk(s: State, i: nat, job: Job)
    requires i < |s.ws|
  {
    && job.ticket < |s.log|
    && s.log[job.ticket].place == Hand(i) && s.log[job.ticket].slices == 1
    && (job.viaCb ==> s.log[job.ticket].work.Cb? && s.ws[i].slot == Some(job.c))
    && (!job.viaCb ==> s.log[job.ticket].work == Co(job.c))
    && job.c in s.co && s.co[job.c].loc == Out(job.ticket)
    && !s.co[job.c].state.INIT?
    && (s.ws[i].pc.Running? ==> s.co[job.c].state.EXEC?)
  }

  ghost predicate WorkerOk(s: State, i: nat)
    requires i < |s.ws|
  {
    var w := s.ws[i];
    && w.tid != ANY_THREAD
    && !w.idle.READY? && !w.idle.EXCEPT?
    && (w.idle.EXEC? <==> w.pc.InIdle?)
    && (w.idle.TERM? ==> s.autoStop && s.stopping)
    && (w.pc.Leaving? || w.pc.Exited? ==> w.idle.TERM?)
    && !w.pc.Discarding?
    && (w.pc.NotStarted? ==> s.hasRoot && i == 0)
    && (w.pc.Took? ==> EntryOk(s, w.pc.e) && s.log[w.pc.e.ticket].place == Hand(i))
    && (JobOf(w.pc).Some? ==> JobOk(s, i, JobOf(w.pc).value))
    && (w.slot.Some? ==>
          || (JobOf(w.pc).Some? && JobOf(w.pc).value.viaCb && JobOf(w.pc).value.c == w.slot.value)
          || (w.slot.value in s.co && s.co[w.slot.value].loc == Slot(i) && s.co[w.slot.value].state.INIT?))
  }

  ghost predicate PushOk(s: State, tk: nat)
    requires tk < |s.log|
  {
    match s.log[tk].place
    case Queued => Entry(s.log[tk].work, s.log[tk].thread, tk) in s.queue && s.log[tk].slices == 0
    case Hand(i) => i < |s.ws| && TicketOf(s.ws[i].pc) == Some(tk)
    case Retired => s.log[tk].slices == 1
  }

  ghost predicate CoroutineOk(s: State, c: Cid)
    requires c in s.co
  {
    match s.co[c].loc
    case Parked => !s.co[c].state.EXEC? && !s.co[c].state.READY?
    case Slot(i) => i < |s.ws| && s.ws[i].slot == Some(c) && s.co[c].state.INIT?
    case Out(tk) =>
      && tk < |s.log|
      && match s.log[tk].place
         case Queued => s.log[tk].work == Co(c)
         case Hand(i) =>
           && i < |s.ws|
           && if s.ws[i].pc.Took? then s.log[tk].work == Co(c)
              else JobOf(s.ws[i].pc).Some? && JobOf(s.ws[i].pc).value.c == c
         case Retired => false
  }

  ghost predicate ControlOk(s: State) {
    && 0 < |s.ws|
    && (s.control.Open? ==> !s.stopping)
    && (s.control.AutoSet? ==> s.autoStop && !s.stopping)
    && (s.control.StopSet? || s.control.Joining? || s.control.Stopped? ==> s.autoStop && s.stopping)
    && ((s.hasRoot && (s.control.Open? || s.control.AutoSet? || s.control.StopSet?)) ==>
          s.ws[0].pc.NotStarted?)
  }

  ghost predicate UnpinnedQueued(s: State) {
    exists k :: 0 <= k < |s.queue| && s.queue[k].thread == ANY_THREAD
  }

  ghost predicate SomeoneWillScan(s: State) {
    exists i :: 0 <= i < |s.ws| && WillScan(s, i)
  }

  ghost predicate Inv(s: State) {
    && ControlOk(s)
    && QueueOk(s)
    && (forall i :: 0 <= i < |s.ws| ==> WorkerOk(s, i))
    && (forall tk :: 0 <= tk < |s.log| ==> PushOk(s, tk))
    && (forall c {:trigger CoroutineOk(s, c)} :: c in s.co ==> CoroutineOk(s, c))
    && s.active == Sum(s.ws, Counted)
    && (UnpinnedQueued(s) ==> SomeoneWillScan(s))
  }

  lemma {:induction false} SumZero(ws: seq<Worker>, f: Worker -> nat)
    requires forall i :: 0 <= i < |ws| ==> f(ws[i]) == 0
    ensures Sum(ws, f) == 0
  {
    if ws != [] { SumZero(ws[1..], f); }
  }

  lemma InitInv(s: State)
    requires Init(s)
    ensures Inv(s)
  {
    SumZero(s.ws, Counted);
  }

  // ---------- What an event leaves alone ----------

  /** The worker whose locals an event changes; `stop` starts the caller's worker, number 0. */
  predicate ActsFor(ev: Event, i: nat) {
    match ev
    case Enter(j) => i == j
    case Scan(j) => i == j
    case SwapIn(j, _) => i == j
    case EndSlice(j, _) => i == j
    case Decrement(j) => i == j
    case Settle(j) => i == j
    case IdleTest(j) => i == j
    case IdleCheck(j) => i == j
    case Leave(j) => i == j
    case TaskPush(j, _, _) => i == j
    case TaskGrab(j) => i == j
    case StopRoot => i == 0
    case _ => false
  }

  predicate SameLocals(s: State, t: State, i: nat)
    requires i < |s.ws|
  {
    |t.ws| == |s.ws| && t.ws[i] == s.ws[i]
  }

  lemma LeavesLocals(s: State, ev: Event, i: nat)
    requires Possible(s, ev) && i < |s.ws| && !ActsFor(ev, i)
    ensures SameLocals(s, Apply(s, ev), i)
  {
    match ev
    case Enter(j) => assert SameLocals(s, Entered(s, j), i);
    case Scan(j) => assert SameLocals(s, Scanned(s, j), i);
    case SwapIn(j, spare) => assert SameLocals(s, SwappedIn(s, j, spare), i);
    case EndSlice(j, out) => assert SameLocals(s, SwappedOut(s, j, out), i);
    case Decrement(j) => assert SameLocals(s, Decremented(s, j), i);
    case Settle(j) => SettleLeavesLocals(s, j, i);
    case IdleTest(j) => assert SameLocals(s, IdleTested(s, j), i);
    case IdleCheck(j) => assert SameLocals(s, IdleChecked(s, j), i);
    case Leave(j) => assert SameLocals(s, Left(s, j), i);
    case StopRoot => assert SameLocals(s, RootCalled(s), i);
    case _ => assert Apply(s, ev).ws == s.ws;
  }

  lemma SettleLeavesLocals(s: State, j: nat, i: nat)
    requires j < |s.ws| && i < |s.ws| && i != j && s.ws[j].pc.Settling? && s.ws[j].pc.job.c in s.co
    ensures SameLocals(s, Settled(s, j), i)
  {
  }

  /** The events of the thread that calls `stop`. */
  predicate ByStop(ev: Event) {
    ev.StopAuto? || ev.StopFlag? || ev.StopRoot? || ev.Join?
  }

  lemma LeavesControl(s: State, ev: Event)
    requires Possible(s, ev) && !ByStop(ev)
    ensures SameControl(s, Apply(s, ev))
  {
    match ev
    case Scan(j) => assert SameControl(s, Scanned(s, j));
    case SwapIn(j, spare) => SwapInControl(s, j, spare);
    case EndSlice(j, out) => assert SameControl(s, SwappedOut(s, j, out));
    case Settle(j) => SettleControl(s, j);
    case Decrement(j) => assert SameControl(s, Decremented(s, j));
    case TaskPush(_, work, thread) => assert SameControl(s, Pushed(s, work, thread));
    case ClientPush(work, thread) => assert SameControl(s, Pushed(s, work, thread));
    case _ =>
  }

  lemma SwapInControl(s: State, j: nat, spare: Cid)
    requires j < |s.ws| && s.ws[j].pc.Took?
    ensures SameControl(s, SwappedIn(s, j, spare))
  {
  }

  lemma SettleControl(s: State, j: nat)
    requires j < |s.ws| && s.ws[j].pc.Settling? && s.ws[j].pc.job.c in s.co
    ensures SameControl(s, Settled(s, j))
  {
  }

  predicate SameControl(s: State, t: State) {
    t.control == s.control && t.autoStop == s.autoStop && t.stopping == s.stopping && t.hasRoot == s.hasRoot
  }

  /**
   From `s` to `t` only worker `i`, the push `tk` and the coroutine `c` changed, and these belong
   together: `tk` is queued or in the hand of `i`, and the token of `c` is with `tk` or `i` or parked.
   An index past the end stands for nothing.
   */
  ghost predicate OnlyTouches(s: State, t: State, i: nat, tk: nat, c: Option<Cid>) {
    && |t.ws| == |s.ws| && |s.log| <= |t.log|
    && (s.autoStop ==> t.autoStop) && (s.stopping ==> t.stopping) && t.hasRoot == s.hasRoot
    && (forall j :: 0 <= j < |s.ws| && j != i ==> t.ws[j] == s.ws[j])
    && (forall x :: 0 <= x < |s.log| && x != tk ==> t.log[x] == s.log[x])
    && (forall d :: d in s.co && Some(d) != c ==> d in t.co && t.co[d] == s.co[d])
    && (forall d :: d in t.co && Some(d) != c ==> d in s.co)
    && (tk < |s.log| ==> s.log[tk].place.Queued? || s.log[tk].place == Hand(i))
    && (c.Some? && c.value in s.co ==>
          s.co[c.value].loc == Out(tk) || s.co[c.value].loc == Slot(i) || s.co[c.value].loc.Parked?)
    && (i < |s.ws| && TicketOf(s.ws[i].pc).Some? ==> TicketOf(s.ws[i].pc).value == tk)
    && (forall d :: d in s.co && Some(d) != c ==> s.co[d].loc != Out(tk))
    && (i < |s.ws| && s.ws[i].slot.Some? && s.ws[i].slot != c ==> t.ws[i].slot == s.ws[i].slot)
  }

  lemma OtherWorkers(s: State, t: State, i: nat, tk: nat, c: Option<Cid>)
    requires Inv(s) && OnlyTouches(s, t, i, tk, c)
    ensures forall j :: 0 <= j < |t.ws| && j != i ==> WorkerOk(t, j)
  {
    forall j | 0 <= j < |t.ws| && j != i ensures WorkerOk(t, j) {
      assert WorkerOk(s, j);
    }
  }

  lemma OtherPushes(s: State, t: State, i: nat, tk: nat, c: Option<Cid>)
    requires Inv(s) && OnlyTouches(s, t, i, tk, c)
    requires forall e :: e in s.queue && e.ticket != tk ==> e in t.queue
    ensures forall x :: 0 <= x < |s.log| && x != tk ==> PushOk(t, x)
  {
    forall x | 0 <= x < |s.log| && x != tk ensures PushOk(t, x) {
      assert PushOk(s, x);
    }
  }

  lemma OtherCoroutines(s: State, t: State, i: nat, tk: nat, c: Option<Cid>)
    requires Inv(s) && OnlyTouches(s, t, i, tk, c)
    ensures forall d :: d in t.co && Some(d) != c ==> CoroutineOk(t, d)
  {
    forall d | d in t.co && Some(d) != c ensures CoroutineOk(t, d) {
      assert CoroutineOk(s, d);
      if s.co[d].loc.Out? {
        assert PushOk(s, s.co[d].loc.ticket);
      }
    }
  }

  /** The coroutine a push carries, or none, is the only one whose token is with that push. */
  lemma SoleToken(s: State, tk: nat)
    requires Inv(s) && tk < |s.log| && !s.log[tk].place.Retired?
    ensures forall d :: d in s.co && s.co[d].loc == Out(tk) ==> Some(d) == Carried(s, tk)
  {
    assert PushOk(s, tk);
    forall d | d in s.co && s.co[d].loc == Out(tk) ensures Some(d) == Carried(s, tk) {
      assert CoroutineOk(s, d);
      if s.log[tk].place.Hand? {
        assert WorkerOk(s, s.log[tk].place.i);
      }
    }
  }

  function Carried(s: State, tk: nat): Option<Cid>
    requires tk < |s.log|
  {
    var p := s.log[tk];
    if p.work.Co? then Some(p.work.c)
    else if p.place.Hand? && p.place.i < |s.ws| && JobOf(s.ws[p.place.i].pc).Some? then
      Some(JobOf(s.ws[p.place.i].pc).value.c)
    else None
  }

  /** What is left to show about an event once `OnlyTouches` has dealt with the rest. */
  ghost predicate Locally(s: State, t: State, i: nat, tk: nat, c: Option<Cid>)
    requires |s.ws| == |t.ws| && |s.log| <= |t.log|
  {
    && ControlOk(t) && QueueOk(t)
    && (forall e :: e in s.queue && e.ticket != tk ==> e in t.queue)
    && (i < |t.ws| ==> WorkerOk(t, i))
    && (tk < |s.log| ==> PushOk(t, tk))
    && (forall x :: |s.log| <= x < |t.log| ==> PushOk(t, x))
    && (c.Some? && c.value in t.co ==> CoroutineOk(t, c.value))
    && (t.active - s.active == if i < |s.ws| then Counted(t.ws[i]) - Counted(s.ws[i]) else 0)
    && (UnpinnedQueued(t) ==> SomeoneWillScan(t))
  }

  lemma Assemble(s: State, t: State, i: nat, tk: nat, c: Option<Cid>)
    requires Inv(s) && OnlyTouches(s, t, i, tk, c) && Locally(s, t, i, tk, c)
    ensures Inv(t)
  {
    OtherWorkers(s, t, i, tk, c);
    OtherPushes(s, t, i, tk, c);
    OtherCoroutines(s, t, i, tk, c);
    if i < |s.ws| {
      SumUpdate(s.ws, i, t.ws[i], Counted);
      assert t.ws == s.ws[i := t.ws[i]];
    } else {
      assert t.ws == s.ws;
    }
  }

  // ---------- Every event keeps the invariant ----------

  lemma KeepsScan(s: State, i: nat)
    requires Inv(s) && i < |s.ws| && s.ws[i].pc.Top?
    ensures Inv(Scanned(s, i))
  {
    var k := FirstEligible(s.queue, s.ws[i].tid, s.co);
    if k < |s.queue| {
      KeepsTake(s, Scanned(s, i), i, k);
    } else {
      KeepsNoWork(s, i);
    }
  }

  lemma KeepsNoWork(s: State, i: nat)
    requires Inv(s) && i < |s.ws| && s.ws[i].pc.Top?
    requires FirstEligible(s.queue, s.ws[i].tid, s.co) == |s.queue|
    ensures Inv(SetPc(s, i, NoWork))
  {
    SkippedAll(s, i);
    assert WorkerOk(s, i) && WorkerOk(SetPc(s, i, NoWork), i);
    KeepsWorker(s, SetPc(s, i, NoWork), i);
  }

  lemma KeepsTake(s: State, t: State, i: nat, k: nat)
    requires Inv(s) && i < |s.ws| && s.ws[i].pc.Top? && k < |s.queue|
    requires t == Scanned(s, i) && k == FirstEligible(s.queue, s.ws[i].tid, s.co)
    ensures Inv(t)
  {
    var e := s.queue[k];
    assert QueuedOk(s, k);
    assert OnlyTouches(s, t, i, e.ticket, WorkCoroutine(e.work)) by {
      assert WorkerOk(s, i);
      SoleToken(s, e.ticket);
    }
    TakeQueue(s, t, i, k);
    TakeLocal(s, t, i, k);
    assert WillScan(t, i);
    Assemble(s, t, i, e.ticket, WorkCoroutine(e.work));
  }

  lemma TakeQueue(s: State, t: State, i: nat, k: nat)
    requires Inv(s) && i < |s.ws| && s.ws[i].pc.Top? && k < |s.queue|
    requires t == Scanned(s, i) && k == FirstEligible(s.queue, s.ws[i].tid, s.co)
    ensures QueueOk(t)
  {
    AscendingWithout(s.queue, k);
    forall j | 0 <= j < |t.queue| ensures QueuedOk(t, j) {
      TakeQueued(s, t, i, k, j);
    }
  }

  lemma AscendingWithout(q: seq<Entry>, k: nat)
    requires Ascending(q) && k < |q|
    ensures Ascending(q[..k] + q[k + 1..])
  {
  }

  lemma TakeQueued(s: State, t: State, i: nat, k: nat, j: nat)
    requires QueueOk(s) && i < |s.ws| && k < |s.queue| && j < |t.queue|
    requires t == Scanned(s, i) && k == FirstEligible(s.queue, s.ws[i].tid, s.co)
    ensures QueuedOk(t, j)
  {
    assert QueuedOk(s, k) && QueuedOk(s, if j < k then j else j + 1);
  }

  lemma TakeLocal(s: State, t: State, i: nat, k: nat)
    requires Inv(s) && i < |s.ws| && s.ws[i].pc.Top? && k < |s.queue|
    requires t == Scanned(s, i) && k == FirstEligible(s.queue, s.ws[i].tid, s.co)
    ensures WorkerOk(t, i) && PushOk(t, s.queue[k].ticket)
    ensures s.queue[k].work.Co? ==> CoroutineOk(t, s.queue[k].work.c)
  {
    assert QueuedOk(s, k);
    assert WorkerOk(s, i);
    var w := s.queue[k].work;
    assert w.Co? ==> CoroutineOk(s, w.c);
  }

  /** A scan that takes nothing has seen only entries pinned to other threads. */
  lemma SkippedAll(s: State, i: nat)
    requires Inv(s) && i < |s.ws| && FirstEligible(s.queue, s.ws[i].tid, s.co) == |s.queue|
    ensures forall k :: 0 <= k < |s.queue| ==> s.queue[k].thread != ANY_THREAD && s.queue[k].thread != s.ws[i].tid
  {
    forall k | 0 <= k < |s.queue|
      ensures s.queue[k].thread != ANY_THREAD && s.queue[k].thread != s.ws[i].tid
    {
      assert QueuedOk(s, k);
    }
  }

  /** An event of worker `i` on the push in its hand and on one coroutine, `queue` and flags untouched. */
  ghost predicate HandStep(s: State, t: State, i: nat, tk: nat, c: Cid) {
    && i < |s.ws| && |t.ws| == |s.ws| && tk < |s.log| && |t.log| == |s.log| && c in t.co
    && TicketOf(s.ws[i].pc) == Some(tk)
    && (Carried(s, tk) == Some(c) || (Carried(s, tk) == None && (c in s.co ==> s.co[c].loc == Slot(i))))
    && t == s.(ws := s.ws[i := t.ws[i]], log := s.log[tk := t.log[tk]], co := s.co[c := t.co[c]], active := t.active)
    && (s.ws[i].slot.Some? && s.ws[i].slot.value != c ==> t.ws[i].slot == s.ws[i].slot)
  }

  lemma HandStepTouches(s: State, t: State, i: nat, tk: nat, c: Cid)
    requires Inv(s) && HandStep(s, t, i, tk, c)
    ensures OnlyTouches(s, t, i, tk, Some(c)) && QueueOk(t)
  {
    assert WorkerOk(s, i);
    SoleToken(s, tk);
    forall j | 0 <= j < |t.queue| ensures QueuedOk(t, j) {
      assert QueuedOk(s, j);
    }
  }

  lemma KeepsSwapIn(s: State, i: nat, spare: Cid)
    requires Inv(s) && i < |s.ws| && s.ws[i].pc.Took? && spare !in s.co
    ensures Inv(SwappedIn(s, i, spare))
  {
    var t := SwappedIn(s, i, spare);
    SwapInLocal(s, t, i, spare);
    var job := t.ws[i].pc.job;
    HandStepTouches(s, t, i, job.ticket, job.c);
    assert WillScan(t, i);
    Assemble(s, t, i, job.ticket, Some(job.c));
  }

  lemma SwapInLocal(s: State, t: State, i: nat, spare: Cid)
    requires Inv(s) && i < |s.ws| && s.ws[i].pc.Took? && spare !in s.co
    requires t == SwappedIn(s, i, spare)
    ensures t.ws[i].pc.Running? && WorkerOk(t, i)
    ensures HandStep(s, t, i, t.ws[i].pc.job.ticket, t.ws[i].pc.job.c)
    ensures PushOk(t, t.ws[i].pc.job.ticket) && CoroutineOk(t, t.ws[i].pc.job.c)
  {
    assert WorkerOk(s, i);
  }

  lemma KeepsEndSlice(s: State, i: nat, out: CState)
    requires Inv(s) && i < |s.ws| && s.ws[i].pc.Running? && s.ws[i].pc.job.c in s.co && !out.INIT?
    ensures Inv(SwappedOut(s, i, out))
  {
    var t := SwappedOut(s, i, out);
    var job := s.ws[i].pc.job;
    assert WorkerOk(s, i);
    assert CoroutineOk(s, job.c);
    HandStepTouches(s, t, i, job.ticket, job.c);
    assert WillScan(t, i);
    Assemble(s, t, i, job.ticket, Some(job.c));
  }

  lemma KeepsDecrement(s: State, i: nat)
    requires Inv(s) && i < |s.ws| && s.ws[i].pc.Swapped?
    ensures Inv(Decremented(s, i))
  {
    var t := Decremented(s, i);
    var job := s.ws[i].pc.job;
    assert WorkerOk(s, i);
    assert CoroutineOk(s, job.c);
    HandStepTouches(s, t, i, job.ticket, job.c);
    assert WillScan(t, i);
    Assemble(s, t, i, job.ticket, Some(job.c));
  }

  lemma KeepsRested(s: State, i: nat)
    requires Inv(s) && i < |s.ws| && s.ws[i].pc.Settling? && s.ws[i].pc.job.c in s.co
    requires !s.co[s.ws[i].pc.job.c].state.READY?
    ensures Inv(Rested(s, i))
  {
    var t := Rested(s, i);
    var job := s.ws[i].pc.job;
    RestedStep(s, t, i);
    RestedWorker(s, t, i);
    RestedCoroutine(s, t, i);
    HandStepTouches(s, t, i, job.ticket, job.c);
    assert WillScan(t, i);
    Assemble(s, t, i, job.ticket, Some(job.c));
  }

  lemma RestedStep(s: State, t: State, i: nat)
    requires Inv(s) && i < |s.ws| && s.ws[i].pc.Settling? && s.ws[i].pc.job.c in s.co
    requires !s.co[s.ws[i].pc.job.c].state.READY? && t == Rested(s, i)
    ensures s.ws[i].pc.job.ticket < |s.log|
    ensures HandStep(s, t, i, s.ws[i].pc.job.ticket, s.ws[i].pc.job.c)
    ensures PushOk(t, s.ws[i].pc.job.ticket)
  {
    assert WorkerOk(s, i);
  }

  lemma RestedWorker(s: State, t: State, i: nat)
    requires Inv(s) && i < |s.ws| && s.ws[i].pc.Settling? && s.ws[i].pc.job.c in s.co
    requires !s.co[s.ws[i].pc.job.c].state.READY? && t == Rested(s, i)
    ensures |t.ws| == |s.ws| && WorkerOk(t, i)
  {
    assert WorkerOk(s, i);
  }

  lemma RestedCoroutine(s: State, t: State, i: nat)
    requires Inv(s) && i < |s.ws| && s.ws[i].pc.Settling? && s.ws[i].pc.job.c in s.co
    requires !s.co[s.ws[i].pc.job.c].state.READY? && t == Rested(s, i)
    ensures s.ws[i].pc.job.c in t.co && CoroutineOk(t, s.ws[i].pc.job.c)
  {
    assert WorkerOk(s, i);
  }

  lemma KeepsRequeued(s: State, i: nat)
    requires Inv(s) && i < |s.ws| && s.ws[i].pc.Settling? && s.ws[i].pc.job.c in s.co
    requires s.co[s.ws[i].pc.job.c].state.READY?
    ensures Inv(Requeued(s, i))
  {
    var t := Requeued(s, i);
    var job := s.ws[i].pc.job;
    RequeueTouches(s, t, i);
    RequeueLocal(s, t, i);
    assert WillScan(t, i);
    Assemble(s, t, i, job.ticket, Some(job.c));
  }

  lemma RequeueTouches(s: State, t: State, i: nat)
    requires Inv(s) && i < |s.ws| && s.ws[i].pc.Settling? && s.ws[i].pc.job.c in s.co
    requires s.co[s.ws[i].pc.job.c].state.READY? && t == Requeued(s, i)
    ensures OnlyTouches(s, t, i, s.ws[i].pc.job.ticket, Some(s.ws[i].pc.job.c))
  {
    assert WorkerOk(s, i);
    SoleToken(s, s.ws[i].pc.job.ticket);
  }

  lemma RequeueLocal(s: State, t: State, i: nat)
    requires Inv(s) && i < |s.ws| && s.ws[i].pc.Settling? && s.ws[i].pc.job.c in s.co
    requires s.co[s.ws[i].pc.job.c].state.READY? && t == Requeued(s, i)
    ensures s.ws[i].pc.job.ticket < |s.log|
    ensures WorkerOk(t, i) && PushOk(t, s.ws[i].pc.job.ticket) && CoroutineOk(t, s.ws[i].pc.job.c)
    ensures |t.log| == |s.log| + 1 && PushOk(t, |s.log|) && QueueOk(t)
  {
    var job := s.ws[i].pc.job;
    assert WorkerOk(s, i);
    assert CoroutineOk(s, job.c);
    assert t.queue[|s.queue|] == Entry(Co(job.c), ANY_THREAD, |s.log|);
    forall j | 0 <= j < |t.queue| ensures QueuedOk(t, j) {
      assert j < |s.queue| ==> QueuedOk(s, j);
    }
    forall j | 0 <= j < |s.queue| ensures s.queue[j].ticket < |s.log| {
      assert QueuedOk(s, j);
    }
  }

  /** A push by a client or a running task. */
  lemma KeepsPush(s: State, work: Work, thread: int)
    requires Inv(s) && HasPointer(s, work) && MayPush(s, work)
    requires SomeoneWillScan(s)
    ensures Inv(Pushed(s, work, thread))
  {
    var t := Pushed(s, work, thread);
    var c := WorkCoroutine(work);
    assert c.Some? ==> CoroutineOk(s, c.value);
    assert OnlyTouches(s, t, |s.ws|, |s.log|, c) by {
      forall d | d in s.co ensures s.co[d].loc != Out(|s.log|) { assert CoroutineOk(s, d); }
    }
    PushQueue(s, t, work, thread);
    var j :| 0 <= j < |s.ws| && WillScan(s, j);
    assert WillScan(t, j);
    Assemble(s, t, |s.ws|, |s.log|, c);
  }

  lemma PushQueue(s: State, t: State, work: Work, thread: int)
    requires Inv(s) && HasPointer(s, work) && MayPush(s, work)
    requires t == Pushed(s, work, thread)
    ensures QueueOk(t) && PushOk(t, |s.log|)
    ensures work.Co? ==> CoroutineOk(t, work.c)
  {
    assert work.Co? ==> CoroutineOk(s, work.c);
    forall j | 0 <= j < |t.queue| ensures QueuedOk(t, j) {
      assert j < |s.queue| ==> QueuedOk(s, j);
    }
    forall j | 0 <= j < |s.queue| ensures s.queue[j].ticket < |s.log| {
      assert QueuedOk(s, j);
    }
    assert t.queue[|s.queue|] == Entry(work, thread, |s.log|);
  }

  /** Before `stop` nobody is about to leave, and there is at least one worker. */
  lemma OpenMeansWillScan(s: State)
    requires Inv(s) && s.control.Open?
    ensures SomeoneWillScan(s)
  {
    assert WorkerOk(s, 0);
    assert WillScan(s, 0);
  }

  /** Events that change at most one worker without a ticket, one coroutine outside all hands, and flags. */
  lemma KeepsSmall(s: State, t: State, i: nat, c: Option<Cid>)
    requires Inv(s) && t.queue == s.queue && t.log == s.log && t.active == s.active && |t.ws| == |s.ws|
    requires OnlyTouches(s, t, i, |s.log|, c)
    requires c.Some? && c.value in s.co ==> !s.co[c.value].loc.Out?
    requires c.Some? && c.value in t.co ==> CoroutineOk(t, c.value)
    requires i < |s.ws| ==> WorkerOk(t, i) && Counted(t.ws[i]) == Counted(s.ws[i])
    requires ControlOk(t)
    requires UnpinnedQueued(s) ==> SomeoneWillScan(t)
    ensures Inv(t)
  {
    forall j | 0 <= j < |t.queue| ensures QueuedOk(t, j) {
      assert QueuedOk(s, j);
    }
    Assemble(s, t, i, |s.log|, c);
  }

  lemma NoFutureTicket(s: State)
    requires Inv(s)
    ensures forall d :: d in s.co ==> s.co[d].loc != Out(|s.log|)
  {
    forall d | d in s.co ensures s.co[d].loc != Out(|s.log|) { assert CoroutineOk(s, d); }
  }

  /** An event that changes only the record of worker `i`, which has no push in hand. */
  lemma KeepsWorker(s: State, t: State, i: nat)
    requires Inv(s) && i < |s.ws| && |t.ws| == |s.ws| && t == s.(ws := s.ws[i := t.ws[i]])
    requires TicketOf(s.ws[i].pc).None? && t.ws[i].slot == s.ws[i].slot
    requires Counted(t.ws[i]) == Counted(s.ws[i]) && WorkerOk(t, i)
    requires t.ws[i].pc.NotStarted? <==> s.ws[i].pc.NotStarted?
    requires UnpinnedQueued(s) && WillScan(s, i) ==> WillScan(t, i)
    ensures Inv(t)
  {
    NoFutureTicket(s);
    if UnpinnedQueued(s) {
      StillWillScan(s, t, i);
    }
    KeepsSmall(s, t, i, None);
  }

  lemma KeepsEnter(s: State, i: nat)
    requires Inv(s) && i < |s.ws| && s.ws[i].pc.Entering?
    ensures Inv(Entered(s, i))
  {
    assert WorkerOk(s, i) && WorkerOk(Entered(s, i), i);
    KeepsWorker(s, Entered(s, i), i);
  }

  lemma KeepsIdleTest(s: State, i: nat)
    requires Inv(s) && i < |s.ws| && s.ws[i].pc.NoWork?
    ensures Inv(IdleTested(s, i))
  {
    assert WorkerOk(s, i) && WorkerOk(IdleTested(s, i), i);
    KeepsWorker(s, IdleTested(s, i), i);
  }

  lemma KeepsIdleCheck(s: State, i: nat)
    requires Inv(s) && i < |s.ws| && s.ws[i].pc.InIdle?
    ensures Inv(IdleChecked(s, i))
  {
    assert WorkerOk(s, i) && WorkerOk(IdleChecked(s, i), i);
    KeepsWorker(s, IdleChecked(s, i), i);
  }

  lemma KeepsLeave(s: State, i: nat)
    requires Inv(s) && i < |s.ws| && s.ws[i].pc.Leaving?
    ensures Inv(Left(s, i))
  {
    var t := Left(s, i);
    var c := s.ws[i].slot;
    NoFutureTicket(s);
    assert WorkerOk(s, i);
    assert c.Some? ==> CoroutineOk(s, c.value);
    StillWillScan(s, t, i);
    KeepsSmall(s, t, i, c);
  }

  /** A worker that is about to leave, or goes on to scan, takes nobody's place. */
  lemma StillWillScan(s: State, t: State, i: nat)
    requires |t.ws| == |s.ws| && t.control == s.control && i < |s.ws|
    requires forall j :: 0 <= j < |s.ws| && j != i ==> t.ws[j] == s.ws[j]
    requires WillScan(s, i) ==> WillScan(t, i)
    ensures SomeoneWillScan(s) ==> SomeoneWillScan(t)
  {
    if SomeoneWillScan(s) {
      var j :| 0 <= j < |s.ws| && WillScan(s, j);
      assert WillScan(t, j);
    }
  }

  /** Taking or dropping a pointer. */
  lemma KeepsPointer(s: State, c: Cid, clients: nat)
    requires Inv(s) && c in s.co
    ensures Inv(Held(s, c, clients))
  {
    var t := Held(s, c, clients);
    forall j | 0 <= j < |t.queue| ensures QueuedOk(t, j) { assert QueuedOk(s, j); }
    forall j | 0 <= j < |t.ws| ensures WorkerOk(t, j) { assert WorkerOk(s, j); }
    forall tk | 0 <= tk < |t.log| ensures PushOk(t, tk) { assert PushOk(s, tk); }
    forall d | d in t.co ensures CoroutineOk(t, d) { assert CoroutineOk(s, d); }
    SameWorkersWillScan(s, t);
  }

  lemma SameWorkersWillScan(s: State, t: State)
    requires t.ws == s.ws && t.control == s.control
    ensures SomeoneWillScan(s) ==> SomeoneWillScan(t)
  {
    if SomeoneWillScan(s) {
      var j :| 0 <= j < |s.ws| && WillScan(s, j);
      assert WillScan(t, j);
    }
  }

  lemma KeepsNew(s: State, c: Cid)
    requires Inv(s) && c !in s.co
    ensures Inv(s.(co := s.co[c := Coroutine(INIT, Parked, AtEntry, 1)]))
  {
    var t := s.(co := s.co[c := Coroutine(INIT, Parked, AtEntry, 1)]);
    NoFutureTicket(s);
    SameWorkersWillScan(s, t);
    KeepsSmall(s, t, |s.ws|, Some(c));
  }

  /** The worker has the coroutine in `coe`, as its job or in `cb_coroutine`. */
  predicate Holds(w: Worker, c: Cid) {
    || (w.pc.Took? && w.pc.e.work == Co(c))
    || (JobOf(w.pc).Some? && JobOf(w.pc).value.c == c)
    || w.slot == Some(c)
  }

  /** The token of a coroutine is parked exactly if neither the list nor a worker has the coroutine. */
  lemma ParkedIffUnheld(s: State, c: Cid)
    requires Inv(s) && c in s.co
    ensures s.co[c].loc.Parked? <==>
            && (forall k :: 0 <= k < |s.queue| ==> s.queue[k].work != Co(c))
            && (forall i :: 0 <= i < |s.ws| ==> !Holds(s.ws[i], c))
  {
    assert CoroutineOk(s, c);
    if s.co[c].loc.Parked? {
      forall k | 0 <= k < |s.queue| ensures s.queue[k].work != Co(c) { assert QueuedOk(s, k); }
      forall i | 0 <= i < |s.ws| ensures !Holds(s.ws[i], c) { assert WorkerOk(s, i); }
    } else if s.co[c].loc.Out? {
      var tk := s.co[c].loc.ticket;
      assert PushOk(s, tk);
      if s.log[tk].place.Queued? {
        var k :| 0 <= k < |s.queue| && s.queue[k] == Entry(s.log[tk].work, s.log[tk].thread, tk);
      } else {
        assert WorkerOk(s, s.log[tk].place.i) && Holds(s.ws[s.log[tk].place.i], c);
      }
    }
  }

  /** A count of zero means that none of the counted places has the coroutine. */
  lemma NoRefs(s: State, c: Cid)
    requires Inv(s) && c in s.co && Refs(s, c) == 0
    ensures s.co[c].loc.Parked?
  {
    NoQueueRefs(s.queue, c);
    forall i | 0 <= i < |s.ws| ensures !Holds(s.ws[i], c) {
      NoWorkerRefs(s.ws, i, c);
      assert WorkerOk(s, i);
    }
    ParkedIffUnheld(s, c);
  }

  lemma {:induction false} NoQueueRefs(q: seq<Entry>, c: Cid)
    requires QueueRefs(q, c) == 0
    ensures forall k :: 0 <= k < |q| ==> q[k].work != Co(c)
  {
    if q != [] {
      NoQueueRefs(q[1..], c);
      assert forall k :: 1 <= k < |q| ==> q[k] == q[1..][k - 1];
    }
  }

  lemma {:induction false} NoWorkerRefs(ws: seq<Worker>, i: nat, c: Cid)
    requires WorkerRefs(ws, c) == 0 && i < |ws|
    ensures CoeOf(ws[i].pc) != Some(c) && ws[i].slot != Some(c)
  {
    if i > 0 { NoWorkerRefs(ws[1..], i - 1, c); }
  }

  lemma KeepsDestroy(s: State, c: Cid)
    requires Inv(s) && c in s.co && Refs(s, c) == 0
    ensures Inv(s.(co := s.co - {c}))
  {
    var t := s.(co := s.co - {c});
    ParkedIffUnheld(s, c);
    NoRefs(s, c);
    NoFutureTicket(s);
    SameWorkersWillScan(s, t);
    KeepsSmall(s, t, |s.ws|, Some(c));
  }

  lemma KeepsStop(s: State, ev: Event)
    requires Inv(s) && Enabled(s, ev) && (ev == StopAuto || ev == StopFlag || ev == Join)
    ensures Inv(Apply(s, ev))
  {
    var t := Apply(s, ev);
    NoFutureTicket(s);
    if UnpinnedQueued(s) {
      var j :| 0 <= j < |s.ws| && WillScan(s, j);
      assert WorkerOk(s, j);
      assert WillScan(t, j);
    }
    KeepsSmall(s, t, |s.ws|, None);
  }

  lemma KeepsStopRoot(s: State)
    requires Inv(s) && s.control.StopSet?
    ensures Inv(RootCalled(s))
  {
    var t := RootCalled(s);
    NoFutureTicket(s);
    assert WorkerOk(s, 0);
    if UnpinnedQueued(s) {
      var j :| 0 <= j < |s.ws| && WillScan(s, j);
      assert WorkerOk(s, j);
      assert WillScan(t, j);
    }
    KeepsSmall(s, t, if s.hasRoot && !Stopping(s) then 0 else |s.ws|, None);
  }

  /** The main step lemma. */
  lemma Keeps(s: State, ev: Event)
    requires Inv(s) && Enabled(s, ev)
    ensures Inv(Apply(s, ev))
  {
    match ev
    case Enter(i) => KeepsEnter(s, i);
    case Scan(i) => KeepsScan(s, i);
    case SwapIn(i, spare) => KeepsSwapIn(s, i, spare);
    case EndSlice(i, out) => KeepsEndSlice(s, i, out);
    case Decrement(i) => assert WorkerOk(s, i); KeepsDecrement(s, i);
    case Settle(i) =>
      if s.co[s.ws[i].pc.job.c].state.READY? { KeepsRequeued(s, i); } else { KeepsRested(s, i); }
    case IdleTest(i) => KeepsIdleTest(s, i);
    case IdleCheck(i) => KeepsIdleCheck(s, i);
    case Leave(i) => KeepsLeave(s, i);
    case TaskPush(i, work, thread) => assert WillScan(s, i); KeepsPush(s, work, thread);
    case TaskGrab(i) => KeepsPointer(s, s.ws[i].pc.job.c, s.co[s.ws[i].pc.job.c].clients + 1);
    case ClientPush(work, thread) => OpenMeansWillScan(s); KeepsPush(s, work, thread);
    case ClientNew(c) => KeepsNew(s, c);
    case ClientCopy(c) => KeepsPointer(s, c, s.co[c].clients + 1);
    case ClientDrop(c) => KeepsPointer(s, c, s.co[c].clients - 1);
    case Destroy(c) => KeepsDestroy(s, c);
    case StopRoot => KeepsStopRoot(s);
    case _ => KeepsStop(s, ev);
  }

  lemma {:induction false} RunKeeps(s: State, evs: seq<Event>)
    requires Inv(s) && IsRun(s, evs)
    ensures Inv(Final(s, evs))
    decreases |evs|
  {
    if evs != [] {
      Keeps(s, evs[0]);
      RunKeeps(Apply(s, evs[0]), evs[1..]);
    }
  }

  /** `s` can be reached from a start by some interleaving. */
  ghost predicate Reachable(s: State) {
    exists s0, evs :: Init(s0) && IsRun(s0, evs) && Final(s0, evs) == s
  }

  lemma ReachableInv(s: State)
    requires Reachable(s)
    ensures Inv(s)
  {
    var s0, evs :| Init(s0) && IsRun(s0, evs) && Final(s0, evs) == s;
    InitInv(s0);
    RunKeeps(s0, evs);
  }

  lemma {:induction false} RunSnoc(s: State, evs: seq<Event>, ev: Event)
    requires IsRun(s, evs) && Enabled(Final(s, evs), ev)
    ensures IsRun(s, evs + [ev]) && Final(s, evs + [ev]) == Apply(Final(s, evs), ev)
    decreases |evs|
  {
    if evs == [] {
      assert IsRun(Apply(s, ev), [ev][1..]);
    } else {
      RunSnoc(Apply(s, evs[0]), evs[1..], ev);
      assert (evs + [ev])[1..] == evs[1..] + [ev];
    }
  }
}
