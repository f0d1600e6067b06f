/**
 Contexts in every interleaving: on each thread the coroutines switched to form a stack, and what is saved
 in a context agrees with the state of its coroutine, whichever worker ran it last.
 */
module ProtocolContexts {
  import opened Common
  import opened SchedulerProtocol
  import opened ProtocolInvariant

  // ---------- The invariant ----------

  /** What a saved context must be for a state; a coroutine in EXEC may have been swapped out bare. */
  predicate Agree(st: CState, ctx: Resume) {
    match st
    case INIT => ctx.AtEntry?
    case READY => ctx == Suspended(true)
    case HOLD => ctx.Suspended?
    case EXEC => ctx.Live? || ctx == Suspended(false)
    case TERM => ctx.PastEnd?
    case EXCEPT => ctx.PastEnd?
  }

  /** Below the loop of `run` lie the thread's own coroutine and, on the caller's thread, the root. */
  function LoopChain(caller: bool): seq<Frame> {
    if caller then [ThreadMain, Root] else [ThreadMain]
  }

  predicate LoopBelow(st: Stack, caller: bool) {
    if caller then st.sched == Some(Root) && st.main == Suspended(false) else st.sched == Some(ThreadMain)
  }

  predicate InLoop(st: Stack, caller: bool) {
    LoopBelow(st, caller) && AtLoop(st) && st.chain == LoopChain(caller)
  }

  predicate InFrame(st: Stack, caller: bool, f: Frame) {
    LoopBelow(st, caller) && Inside(st, f) && st.chain == LoopChain(caller) + [f]
  }

  /** `swapIn` from the loop, and `swapOut` back to it, undo each other. */
  lemma SwitchAndBack(st: Stack, caller: bool, f: Frame, r: Resume)
    requires f.Task? || f.Idle?
    ensures InLoop(st, caller) ==> InFrame(SwitchTo(st, f), caller, f)
    ensures InFrame(st, caller, f) ==> InLoop(SwitchBack(st, r), caller)
    ensures InLoop(st, caller) ==> SwitchBack(SwitchTo(st, f), r) == if f.Idle? then st.(idle := r) else st
  {
    assert Popped(LoopChain(caller) + [f]) == LoopChain(caller);
  }

  predicate StackOk(w: Worker, caller: bool) {
    match w.pc
    case NotStarted => caller && w.stack == CallerStack()
    case Entering => w.stack == if caller then CallRoot(CallerStack()) else PoolStack()
    case Running(job) => InFrame(w.stack, caller, Task(job.c))
    case InIdle => InFrame(w.stack, caller, Idle)
    case Exited =>
      w.stack.chain == [ThreadMain] && w.stack.current == Some(ThreadMain) && w.stack.main.Live?
    case _ => InLoop(w.stack, caller)
  }

  predicate IdleCtxOk(w: Worker) {
    Agree(w.idle, w.stack.idle) && (w.pc.InIdle? <==> w.stack.idle.Live?)
  }

  ghost predicate JobCtxOk(s: State, i: nat)
    requires i < |s.ws|
  {
    JobOf(s.ws[i].pc).Some? ==>
      var c := JobOf(s.ws[i].pc).value.c;
      c in s.co && (s.co[c].ctx.Live? <==> s.ws[i].pc.Running?)
  }

  ghost predicate ThreadOk(s: State, i: nat)
    requires i < |s.ws|
  {
    StackOk(s.ws[i], IsCaller(s, i)) && IdleCtxOk(s.ws[i]) && JobCtxOk(s, i)
  }

  ghost predicate CtxOk(s: State, c: Cid)
    requires c in s.co
  {
    Agree(s.co[c].state, s.co[c].ctx)
  }

  ghost predicate Contexts(s: State) {
    && (forall i :: 0 <= i < |s.ws| ==> ThreadOk(s, i))
    && (forall c {:trigger CtxOk(s, c)} :: c in s.co ==> CtxOk(s, c))
  }

  lemma InitContexts(s: State)
    requires Init(s)
    ensures Contexts(s)
  {
  }

  // ---------- Every event keeps it ----------

  /** Only worker `i` and the state and context of `c` may have changed. */
  ghost predicate Elsewhere(s: State, t: State, i: nat, c: Option<Cid>) {
    && |t.ws| == |s.ws| && t.hasRoot == s.hasRoot
    && (forall j :: 0 <= j < |s.ws| && j != i ==> t.ws[j] == s.ws[j])
    && (forall d :: d in s.co && Some(d) != c ==>
                      d in t.co && t.co[d].state == s.co[d].state && t.co[d].ctx == s.co[d].ctx)
    && (forall d :: d in t.co && Some(d) != c ==> d in s.co)
    && (forall j :: 0 <= j < |s.ws| && j != i && JobOf(s.ws[j].pc).Some? ==> Some(JobOf(s.ws[j].pc).value.c) != c)
  }

  lemma ContextsStep(s: State, t: State, i: nat, c: Option<Cid>)
    requires Contexts(s) && Elsewhere(s, t, i, c)
    requires i < |s.ws| ==> ThreadOk(t, i)
    requires c.Some? && c.value in t.co ==> CtxOk(t, c.value)
    ensures Contexts(t)
  {
    forall j | 0 <= j < |t.ws| ensures ThreadOk(t, j) {
      if j != i { assert ThreadOk(s, j); }
    }
    forall d | d in t.co ensures CtxOk(t, d) {
      if Some(d) != c { assert CtxOk(s, d); }
    }
  }

  /** A coroutine in the hand of worker `i`, parked, or not yet made is not the job of another. */
  lemma NobodyElses(s: State, i: nat, c: Cid)
    requires Inv(s)
    requires c in s.co ==> s.co[c].loc.Parked? || s.co[c].loc == Slot(i) || (i < |s.ws| && Carrying(s, i, c))
    ensures forall j :: 0 <= j < |s.ws| && j != i && JobOf(s.ws[j].pc).Some? ==> JobOf(s.ws[j].pc).value.c != c
  {
    forall j | 0 <= j < |s.ws| && j != i && JobOf(s.ws[j].pc).Some?
      ensures JobOf(s.ws[j].pc).value.c != c
    {
      assert WorkerOk(s, j);
      if i < |s.ws| { assert WorkerOk(s, i); }
    }
  }

  ghost predicate Carrying(s: State, i: nat, c: Cid)
    requires i < |s.ws|
  {
    (s.ws[i].pc.Took? && s.ws[i].pc.e.work == Co(c)) || (JobOf(s.ws[i].pc).Some? && JobOf(s.ws[i].pc).value.c == c)
  }

  /** An event that moves worker `i` between points of the loop where no task is swapped in. */
  lemma KeepsAtLoop(s: State, t: State, i: nat)
    requires Contexts(s) && i < |s.ws| && Elsewhere(s, t, i, None)
    requires t.ws[i].stack == s.ws[i].stack && t.ws[i].idle == s.ws[i].idle
    requires LoopPc(s.ws[i].pc) && LoopPc(t.ws[i].pc)
    requires JobOf(t.ws[i].pc).Some? ==> JobOf(t.ws[i].pc) == JobOf(s.ws[i].pc)
    ensures Contexts(t)
  {
    assert ThreadOk(s, i);
    assert ThreadOk(t, i);
    ContextsStep(s, t, i, None);
  }

  predicate LoopPc(pc: Pc) {
    pc.Top? || pc.Took? || pc.NoWork? || pc.Swapped? || pc.Settling? || pc.Discarding? || pc.Leaving?
  }

  lemma EnterContexts(s: State, i: nat)
    requires Contexts(s) && i < |s.ws| && s.ws[i].pc.Entering?
    ensures Contexts(Entered(s, i))
  {
    assert ThreadOk(s, i);
    assert ThreadOk(Entered(s, i), i);
    ContextsStep(s, Entered(s, i), i, None);
  }

  lemma ScanContexts(s: State, i: nat)
    requires Contexts(s) && i < |s.ws| && s.ws[i].pc.Top?
    ensures Contexts(Scanned(s, i))
  {
    KeepsAtLoop(s, Scanned(s, i), i);
  }

  lemma SwapInContexts(s: State, i: nat, spare: Cid)
    requires Inv(s) && Contexts(s) && i < |s.ws| && s.ws[i].pc.Took? && spare !in s.co
    ensures Contexts(SwappedIn(s, i, spare))
  {
    var t := SwappedIn(s, i, spare);
    assert WorkerOk(s, i);
    var job := t.ws[i].pc.job;
    SwitchedInContexts(s, t, i, job, t.ws[i].slot);
  }

  /** Both branches: a job is swapped in, in EXEC, and only its coroutine changes. */
  lemma SwitchedInContexts(s: State, t: State, i: nat, job: Job, slot: Option<Cid>)
    requires Inv(s) && Contexts(s) && i < |s.ws| && s.ws[i].pc.Took?
    requires job.c in t.co && t == SwitchedIn(s, i, job, slot).(co := s.co[job.c := t.co[job.c]])
    requires t.co[job.c].state.EXEC? && t.co[job.c].ctx.Live?
    requires job.c in s.co ==> s.co[job.c].loc == Slot(i) || s.ws[i].pc.e.work == Co(job.c)
    ensures Contexts(t)
  {
    var w := s.ws[i];
    assert ThreadOk(s, i);
    SwitchAndBack(w.stack, IsCaller(s, i), Task(job.c), Live);
    assert StackOk(t.ws[i], IsCaller(t, i)) && IdleCtxOk(t.ws[i]);
    NobodyElses(s, i, job.c);
    ContextsStep(s, t, i, Some(job.c));
  }

  lemma EndSliceContexts(s: State, i: nat, out: CState)
    requires Inv(s) && Contexts(s) && i < |s.ws| && s.ws[i].pc.Running? && s.ws[i].pc.job.c in s.co && !out.INIT?
    ensures Contexts(SwappedOut(s, i, out))
  {
    var t := SwappedOut(s, i, out);
    var c := s.ws[i].pc.job.c;
    EndSliceThread(s, t, i, out);
    assert WorkerOk(s, i);
    NobodyElses(s, i, c);
    ContextsStep(s, t, i, Some(c));
  }

  lemma EndSliceThread(s: State, t: State, i: nat, out: CState)
    requires Contexts(s) && i < |s.ws| && s.ws[i].pc.Running? && s.ws[i].pc.job.c in s.co && !out.INIT?
    requires t == SwappedOut(s, i, out)
    ensures ThreadOk(t, i) && CtxOk(t, s.ws[i].pc.job.c)
  {
    assert ThreadOk(s, i);
    SwitchAndBack(s.ws[i].stack, IsCaller(s, i), Task(s.ws[i].pc.job.c), AfterSlice(out));
    assert StackOk(t.ws[i], IsCaller(t, i)) && IdleCtxOk(t.ws[i]);
  }

  lemma DecrementContexts(s: State, i: nat)
    requires Contexts(s) && i < |s.ws| && (s.ws[i].pc.Swapped? || s.ws[i].pc.Discarding?)
    ensures Contexts(Decremented(s, i))
  {
    KeepsAtLoop(s, Decremented(s, i), i);
  }

  lemma SettleContexts(s: State, i: nat)
    requires Inv(s) && Contexts(s) && i < |s.ws| && s.ws[i].pc.Settling? && s.ws[i].pc.job.c in s.co
    ensures Contexts(Settled(s, i))
  {
    var t := Settled(s, i);
    var c := s.ws[i].pc.job.c;
    assert WorkerOk(s, i);
    SettleThread(s, i);
    SettleCtx(s, i);
    NobodyElses(s, i, c);
    SettleElsewhere(s, i);
    ContextsStep(s, t, i, Some(c));
  }

  lemma SettleElsewhere(s: State, i: nat)
    requires i < |s.ws| && s.ws[i].pc.Settling? && s.ws[i].pc.job.c in s.co
    requires forall j :: 0 <= j < |s.ws| && j != i && JobOf(s.ws[j].pc).Some? ==>
                           JobOf(s.ws[j].pc).value.c != s.ws[i].pc.job.c
    ensures Elsewhere(s, Settled(s, i), i, Some(s.ws[i].pc.job.c))
  {
  }

  lemma SettleThread(s: State, i: nat)
    requires Contexts(s) && i < |s.ws| && s.ws[i].pc.Settling? && s.ws[i].pc.job.c in s.co
    ensures i < |Settled(s, i).ws| && ThreadOk(Settled(s, i), i)
  {
    var t := Settled(s, i);
    assert ThreadOk(s, i);
    assert t.ws[i].stack == s.ws[i].stack && t.ws[i].pc.Top? && t.ws[i].idle == s.ws[i].idle && t.hasRoot == s.hasRoot;
  }

  lemma SettleCtx(s: State, i: nat)
    requires Contexts(s) && i < |s.ws| && s.ws[i].pc.Settling? && s.ws[i].pc.job.c in s.co
    requires !s.co[s.ws[i].pc.job.c].state.INIT?
    ensures s.ws[i].pc.job.c in Settled(s, i).co && CtxOk(Settled(s, i), s.ws[i].pc.job.c)
  {
    assert ThreadOk(s, i) && CtxOk(s, s.ws[i].pc.job.c);
  }

  lemma IdleTestContexts(s: State, i: nat)
    requires Inv(s) && Contexts(s) && i < |s.ws| && s.ws[i].pc.NoWork?
    ensures Contexts(IdleTested(s, i))
  {
    assert ThreadOk(s, i);
    if s.ws[i].idle.TERM? {
      KeepsAtLoop(s, IdleTested(s, i), i);
    } else {
      SwitchAndBack(s.ws[i].stack, IsCaller(s, i), Idle, Live);
      IdleMoves(s, IdleTested(s, i), i);
    }
  }

  /** An event that changes only the record of worker `i`, entering or leaving its idle coroutine. */
  lemma IdleMoves(s: State, t: State, i: nat)
    requires Contexts(s) && i < |s.ws| && |t.ws| == |s.ws| && t == s.(ws := s.ws[i := t.ws[i]])
    requires StackOk(t.ws[i], IsCaller(s, i)) && IdleCtxOk(t.ws[i]) && JobOf(t.ws[i].pc).None?
    ensures Contexts(t)
  {
    assert ThreadOk(t, i);
    ContextsStep(s, t, i, None);
  }

  lemma IdleCheckContexts(s: State, i: nat)
    requires Inv(s) && Contexts(s) && i < |s.ws| && s.ws[i].pc.InIdle?
    ensures Contexts(IdleChecked(s, i))
  {
    assert ThreadOk(s, i);
    SwitchAndBack(s.ws[i].stack, IsCaller(s, i), Idle, AfterSlice(if Stopping(s) then TERM else HOLD));
    IdleMoves(s, IdleChecked(s, i), i);
  }

  lemma LeaveContexts(s: State, i: nat)
    requires Contexts(s) && i < |s.ws| && s.ws[i].pc.Leaving?
    ensures Contexts(Left(s, i))
  {
    var t := Left(s, i);
    assert ThreadOk(s, i);
    assert Popped([ThreadMain, Root]) == [ThreadMain];
    assert ThreadOk(t, i);
    ContextsStep(s, t, i, None);
  }

  lemma PushContexts(s: State, work: Work, thread: int)
    requires Contexts(s)
    ensures Contexts(Pushed(s, work, thread))
  {
    ContextsStep(s, Pushed(s, work, thread), |s.ws|, None);
  }

  lemma HeldContexts(s: State, c: Cid, clients: nat)
    requires Contexts(s) && c in s.co
    ensures Contexts(Held(s, c, clients))
  {
    ContextsStep(s, Held(s, c, clients), |s.ws|, None);
  }

  /** A coroutine is made or destroyed. */
  lemma ClientContexts(s: State, t: State, c: Cid)
    requires Inv(s) && Contexts(s)
    requires (c !in s.co && t == s.(co := s.co[c := Coroutine(INIT, Parked, AtEntry, 1)]))
             || (c in s.co && s.co[c].loc.Parked? && t == s.(co := s.co - {c}))
    ensures Contexts(t)
  {
    NobodyElses(s, |s.ws|, c);
    ContextsStep(s, t, |s.ws|, Some(c));
  }

  lemma StopContexts(s: State)
    requires Inv(s) && Contexts(s) && s.control.StopSet?
    ensures Contexts(RootCalled(s))
  {
    var t := RootCalled(s);
    if s.hasRoot && !Stopping(s) {
      assert ThreadOk(s, 0) && ThreadOk(t, 0);
      ContextsStep(s, t, 0, None);
    } else {
      ContextsStep(s, t, |s.ws|, None);
    }
  }

  lemma KeepsContexts(s: State, ev: Event)
    requires Inv(s) && Contexts(s) && Enabled(s, ev)
    ensures Contexts(Apply(s, ev))
  {
    match ev
    case Enter(i) => EnterContexts(s, i);
    case Scan(i) => ScanContexts(s, i);
    case SwapIn(i, spare) => SwapInContexts(s, i, spare);
    case EndSlice(i, out) => EndSliceContexts(s, i, out);
    case Decrement(i) => DecrementContexts(s, i);
    case Settle(i) => SettleContexts(s, i);
    case IdleTest(i) => IdleTestContexts(s, i);
    case IdleCheck(i) => IdleCheckContexts(s, i);
    case Leave(i) => LeaveContexts(s, i);
    case TaskPush(i, work, thread) => PushContexts(s, work, thread);
    case TaskGrab(i) => HeldContexts(s, s.ws[i].pc.job.c, s.co[s.ws[i].pc.job.c].clients + 1);
    case ClientPush(work, thread) => PushContexts(s, work, thread);
    case ClientNew(c) => ClientContexts(s, Apply(s, ev), c);
    case ClientCopy(c) => HeldContexts(s, c, s.co[c].clients + 1);
    case ClientDrop(c) => HeldContexts(s, c, s.co[c].clients - 1);
    case Destroy(c) => NoRefs(s, c); ClientContexts(s, Apply(s, ev), c);
    case StopRoot => StopContexts(s);
    case StopAuto => ContextsStep(s, Apply(s, ev), |s.ws|, None);
    case StopFlag => ContextsStep(s, Apply(s, ev), |s.ws|, None);
    case Join => ContextsStep(s, Apply(s, ev), |s.ws|, None);
  }

  lemma {:induction false} RunKeepsContexts(s: State, evs: seq<Event>)
    requires Inv(s) && Contexts(s) && IsRun(s, evs)
    ensures Contexts(Final(s, evs))
    decreases |evs|
  {
    if evs != [] {
      KeepsContexts(s, evs[0]);
      Keeps(s, evs[0]);
      RunKeepsContexts(Apply(s, evs[0]), evs[1..]);
    }
  }

  lemma ReachableContexts(s: State)
    requires Reachable(s)
    ensures Contexts(s)
  {
    var s0, evs :| Init(s0) && IsRun(s0, evs) && Final(s0, evs) == s;
    InitInv(s0);
    InitContexts(s0);
    RunKeepsContexts(s0, evs);
  }

  // ---------- Nesting ----------

  /** The context of a frame on thread `i`. */
  ghost function FrameCtx(s: State, i: nat, f: Frame): Option<Resume>
    requires i < |s.ws|
  {
    match f
    case Task(c) => if c in s.co then Some(s.co[c].ctx) else None
    case _ => CtxOf(s.ws[i].stack, Some(f))
  }

  /** On every thread the top of the chain is current and on the processor, and all below are saved. */
  lemma ChainIsStack(s: State, i: nat)
    requires Reachable(s) && i < |s.ws| && s.ws[i].stack.chain != []
    ensures
      var chain := s.ws[i].stack.chain;
      var n := |chain| - 1;
      && s.ws[i].stack.current == Some(chain[n]) && FrameCtx(s, i, chain[n]) == Some(Live)
      && (forall k :: 0 <= k < n ==> FrameCtx(s, i, chain[k]) == Some(Suspended(false)))
      && (forall j, k :: 0 <= j < k <= n ==> chain[j] != chain[k])
  {
    ReachableContexts(s);
    assert ThreadOk(s, i);
  }

  /** Whenever a worker is in its loop and no task is swapped in, the scheduling coroutine is current. */
  lemma LoopIsCurrent(s: State, i: nat)
    requires Reachable(s) && i < |s.ws| && LoopPc(s.ws[i].pc)
    ensures AtLoop(s.ws[i].stack) && s.ws[i].stack.chain == LoopChain(IsCaller(s, i))
  {
    ReachableContexts(s);
    assert ThreadOk(s, i);
  }

  predicate Runs(w: Worker, c: Cid) {
    w.pc.Running? && w.pc.job.c == c
  }

  /** A coroutine's context is on a processor exactly while one worker has it swapped in. */
  lemma LiveIsRunning(s: State, c: Cid)
    requires Reachable(s) && c in s.co
    ensures s.co[c].ctx.Live? <==> exists i :: 0 <= i < |s.ws| && Runs(s.ws[i], c)
    ensures forall i, j :: 0 <= i < |s.ws| && 0 <= j < |s.ws| && Runs(s.ws[i], c) && Runs(s.ws[j], c) ==> i == j
  {
    ReachableInv(s);
    ReachableContexts(s);
    if s.co[c].ctx.Live? {
      assert CtxOk(s, c) && CoroutineOk(s, c);
      var tk := s.co[c].loc.ticket;
      assert PushOk(s, tk);
      ExecInHand(s, c);
      assert ThreadOk(s, s.log[tk].place.i);
    }
    forall i | 0 <= i < |s.ws| && Runs(s.ws[i], c)
      ensures s.co[c].ctx.Live? && s.co[c].loc == Out(s.ws[i].pc.job.ticket) &&
              s.log[s.ws[i].pc.job.ticket].place == Hand(i)
    {
      assert ThreadOk(s, i) && WorkerOk(s, i);
    }
  }

  /** A coroutine in EXEC is the job of the worker that has its push in hand. */
  lemma ExecInHand(s: State, c: Cid)
    requires Inv(s) && c in s.co && s.co[c].state.EXEC?
    ensures s.co[c].loc.Out? && s.co[c].loc.ticket < |s.log|
    ensures var place := s.log[s.co[c].loc.ticket].place;
            place.Hand? && place.i < |s.ws| && JobOf(s.ws[place.i].pc).Some? && JobOf(s.ws[place.i].pc).value.c == c
  {
    assert CoroutineOk(s, c);
    var tk := s.co[c].loc.ticket;
    assert PushOk(s, tk);
    forall e | e in s.queue ensures EntryOk(s, e) {
      var k :| 0 <= k < |s.queue| && s.queue[k] == e;
      assert QueuedOk(s, k);
    }
    if s.log[tk].place.Hand? {
      assert WorkerOk(s, s.log[tk].place.i);
    }
  }

  // ---------- Dead coroutines ----------

  /** A finished coroutine that nobody has is not touched again by any event. */
  predicate Dead(s: State, c: Cid) {
    c in s.co && Finished(s.co[c].state) && s.co[c].loc.Parked?
  }

  /** Coroutine `c` has the state, the context and the token it had. */
  predicate AsItWas(s: State, t: State, c: Cid)
    requires c in s.co
  {
    c in t.co && t.co[c].state == s.co[c].state && t.co[c].ctx == s.co[c].ctx && t.co[c].loc == s.co[c].loc
  }

  lemma DeadStep(s: State, ev: Event, c: Cid)
    requires Inv(s) && Enabled(s, ev) && Dead(s, c) && ev != Destroy(c)
    ensures AsItWas(s, Apply(s, ev), c)
  {
    ParkedIffUnheld(s, c);
    forall i | 0 <= i < |s.ws| ensures !s.ws[i].pc.Discarding? { assert WorkerOk(s, i); }
    UnheldStep(s, ev, c);
  }

  lemma UnheldStep(s: State, ev: Event, c: Cid)
    requires Enabled(s, ev) && Dead(s, c) && ev != Destroy(c)
    requires forall i :: 0 <= i < |s.ws| ==> !Holds(s.ws[i], c) && !s.ws[i].pc.Discarding?
    ensures AsItWas(s, Apply(s, ev), c)
  {
    match ev
    case Scan(i) => assert AsItWas(s, Scanned(s, i), c);
    case SwapIn(i, spare) => DeadAtSwapIn(s, i, spare, c);
    case EndSlice(i, out) => DeadAtEndSlice(s, i, out, c);
    case Decrement(i) => assert AsItWas(s, Decremented(s, i), c);
    case Settle(i) => DeadAtSettle(s, i, c);
    case Leave(i) => DeadAtLeave(s, i, c);
    case TaskPush(_, work, thread) => DeadAtPush(s, work, thread, c);
    case ClientPush(work, thread) => DeadAtPush(s, work, thread, c);
    case TaskGrab(i) => assert AsItWas(s, Held(s, s.ws[i].pc.job.c, s.co[s.ws[i].pc.job.c].clients + 1), c);
    case ClientCopy(d) => assert AsItWas(s, Held(s, d, s.co[d].clients + 1), c);
    case ClientDrop(d) => assert AsItWas(s, Held(s, d, s.co[d].clients - 1), c);
    case ClientNew(d) => assert AsItWas(s, Apply(s, ev), c);
    case Destroy(d) => assert AsItWas(s, Apply(s, ev), c);
    case _ => assert Apply(s, ev).co == s.co;
  }

  lemma DeadAtSwapIn(s: State, i: nat, spare: Cid, c: Cid)
    requires i < |s.ws| && s.ws[i].pc.Took? && c in s.co && spare !in s.co && !Holds(s.ws[i], c)
    ensures AsItWas(s, SwappedIn(s, i, spare), c)
  {
  }

  lemma DeadAtEndSlice(s: State, i: nat, out: CState, c: Cid)
    requires i < |s.ws| && s.ws[i].pc.Running? && s.ws[i].pc.job.c in s.co && c in s.co && !Holds(s.ws[i], c)
    ensures AsItWas(s, SwappedOut(s, i, out), c)
  {
  }

  lemma DeadAtSettle(s: State, i: nat, c: Cid)
    requires i < |s.ws| && s.ws[i].pc.Settling? && s.ws[i].pc.job.c in s.co && c in s.co && !Holds(s.ws[i], c)
    ensures AsItWas(s, Settled(s, i), c)
  {
  }

  lemma DeadAtLeave(s: State, i: nat, c: Cid)
    requires i < |s.ws| && c in s.co && !Holds(s.ws[i], c)
    ensures AsItWas(s, Left(s, i), c)
  {
  }

  lemma DeadAtPush(s: State, work: Work, thread: int, c: Cid)
    requires Dead(s, c) && MayPush(s, work)
    ensures AsItWas(s, Pushed(s, work, thread), c)
  {
  }

  /** Over any run a finished coroutine that was dropped is never resumed and never changes. */
  lemma {:induction false} DeadStaysDead(s: State, evs: seq<Event>, c: Cid)
    requires Inv(s) && IsRun(s, evs) && Dead(s, c) && Destroy(c) !in evs
    ensures AsItWas(s, Final(s, evs), c)
    decreases |evs|
  {
    if evs != [] {
      assert evs[0] in evs;
      DeadStep(s, evs[0], c);
      Keeps(s, evs[0]);
      DeadStaysDead(Apply(s, evs[0]), evs[1..], c);
    }
  }
}
