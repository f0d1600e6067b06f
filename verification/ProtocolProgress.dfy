/** What can still happen: which entries some run serves, and from where `stop` can return. */
module ProtocolProgress {
  import opened Common
  import opened SchedulerProtocol
  import opened ProtocolInvariant
  import opened ProtocolContexts
  import opened ProtocolTheorems
  import opened ProtocolService

  ghost predicate Steady(s: State) {
    Inv(s) && Contexts(s)
  }

  // ---------- One worker going on ----------

  /** What a worker still has to do if every task it has ends at its next opportunity. */
  function Load(s: State, i: nat): nat
    requires i < |s.ws|
  {
    match s.ws[i].pc
    case Leaving => 1
    case NoWork => if s.ws[i].idle.TERM? then 2 else 5
    case Top => 3
    case InIdle => 4
    case Entering => 4
    case NotStarted => 5
    case Settling(job) => if ReadyJob(s, job) then 13 else 4
    case Swapped(job) => if ReadyJob(s, job) then 14 else 5
    case Running(_) => 6
    case Took(_) => 7
    case _ => 0
  }

  predicate ReadyJob(s: State, job: Job) {
    job.c in s.co && s.co[job.c].state.READY?
  }

  function Loads(s: State, n: nat): nat
    requires n <= |s.ws|
  {
    if n == 0 then 0 else Loads(s, n - 1) + Load(s, n - 1)
  }

  /** What `stop` still has to do before it joins. */
  function CallsLeft(control: Control): nat {
    match control
    case Open => 3
    case AutoSet => 2
    case StopSet => 1
    case _ => 0
  }

  function Remaining(s: State): nat {
    Loads(s, |s.ws|) + 9 * |s.queue| + CallsLeft(s.control)
  }

  lemma {:induction false} LoadsChange(s: State, t: State, i: nat, n: nat)
    requires |s.ws| == |t.ws| && n <= |s.ws| && i < |s.ws|
    requires forall j :: 0 <= j < n && j != i ==> Load(t, j) == Load(s, j)
    ensures Loads(t, n) == Loads(s, n) + if i < n then Load(t, i) - Load(s, i) else 0
  {
    if n > 0 { LoadsChange(s, t, i, n - 1); }
  }

  predicate Busy(pc: Pc) {
    pc.Took? || pc.Running? || pc.Swapped? || pc.Settling?
  }

  /** The worker can take a step that is not a scan in vain. */
  predicate CanGoOn(s: State, i: nat)
    requires i < |s.ws|
  {
    var w := s.ws[i];
    || Busy(w.pc) || w.pc.Entering? || w.pc.NoWork? || w.pc.InIdle? || w.pc.Leaving?
    || (w.pc.Top? && (w.idle.TERM? || FirstEligible(s.queue, w.tid, s.co) < |s.queue|))
  }

  /** That step; a task that runs ends. */
  function Onward(s: State, i: nat, spare: Cid): Event
    requires i < |s.ws|
  {
    match s.ws[i].pc
    case Entering => Enter(i)
    case Took(_) => SwapIn(i, spare)
    case Running(_) => EndSlice(i, TERM)
    case Swapped(_) => Decrement(i)
    case Settling(_) => Settle(i)
    case NoWork => IdleTest(i)
    case InIdle => IdleCheck(i)
    case Leaving => Leave(i)
    case _ => Scan(i)
  }

  /** Only worker `i` has moved, nearer to its end, and an idle coroutine that had ended still has. */
  ghost predicate Nearer(s: State, t: State, i: nat)
    requires i < |s.ws|
  {
    && Steady(t) && Remaining(t) < Remaining(s) && t.control == s.control && |t.ws| == |s.ws|
    && (forall j :: 0 <= j < |s.ws| && j != i ==> t.ws[j] == s.ws[j])
    && (s.ws[i].idle.TERM? ==> t.ws[i].idle.TERM?)
  }

  lemma LoadDrops(s: State, t: State, i: nat, c: Option<Cid>)
    requires Contexts(s) && Steady(t) && Elsewhere(s, t, i, c) && i < |s.ws|
    requires t.control == s.control && (s.ws[i].idle.TERM? ==> t.ws[i].idle.TERM?)
    requires Load(t, i) + 9 * |t.queue| < Load(s, i) + 9 * |s.queue|
    ensures Nearer(s, t, i)
  {
    forall j | 0 <= j < |s.ws| && j != i ensures Load(t, j) == Load(s, j) { SameLoad(s, t, i, c, j); }
    LoadsChange(s, t, i, |s.ws|);
  }

  lemma SameLoad(s: State, t: State, i: nat, c: Option<Cid>, j: nat)
    requires Contexts(s) && Elsewhere(s, t, i, c) && j < |s.ws| && j != i
    ensures Load(t, j) == Load(s, j)
  {
    assert ThreadOk(s, j);
  }

  /** A worker that can go on may do so, and gets nearer to its end. */
  lemma OnwardStep(s: State, i: nat, spare: Cid)
    requires Steady(s) && i < |s.ws| && CanGoOn(s, i) && spare !in s.co
    ensures Enabled(s, Onward(s, i, spare))
    ensures Nearer(s, Apply(s, Onward(s, i, spare)), i)
  {
    OnwardEnabled(s, i, spare);
    match s.ws[i].pc
    case Entering => EnterOnward(s, i);
    case Top => ScanOnward(s, i);
    case Took(_) => SwapInOnward(s, i, spare);
    case Running(_) => EndSliceOnward(s, i);
    case Swapped(_) => DecrementOnward(s, i);
    case Settling(_) => SettleOnward(s, i);
    case NoWork => IdleTestOnward(s, i);
    case InIdle => IdleCheckOnward(s, i);
    case Leaving => LeaveOnward(s, i);
  }

  lemma OnwardEnabled(s: State, i: nat, spare: Cid)
    requires Inv(s) && i < |s.ws| && CanGoOn(s, i) && spare !in s.co
    ensures Enabled(s, Onward(s, i, spare))
  {
    assert WorkerOk(s, i);
  }

  lemma EnterOnward(s: State, i: nat)
    requires Steady(s) && i < |s.ws| && s.ws[i].pc.Entering?
    ensures Nearer(s, Entered(s, i), i)
  {
    KeepsEnter(s, i);
    EnterContexts(s, i);
    LoadDrops(s, Entered(s, i), i, None);
  }

  lemma ScanOnward(s: State, i: nat)
    requires Steady(s) && i < |s.ws| && s.ws[i].pc.Top? && CanGoOn(s, i)
    ensures Nearer(s, Scanned(s, i), i)
  {
    KeepsScan(s, i);
    ScanContexts(s, i);
    LoadDrops(s, Scanned(s, i), i, None);
  }

  lemma SwapInOnward(s: State, i: nat, spare: Cid)
    requires Steady(s) && i < |s.ws| && s.ws[i].pc.Took? && spare !in s.co
    ensures Nearer(s, SwappedIn(s, i, spare), i)
  {
    var t := SwappedIn(s, i, spare);
    KeepsSwapIn(s, i, spare);
    SwapInContexts(s, i, spare);
    SwapInElsewhere(s, i, spare);
    LoadDrops(s, t, i, Some(t.ws[i].pc.job.c));
  }

  lemma SwapInElsewhere(s: State, i: nat, spare: Cid)
    requires Inv(s) && i < |s.ws| && s.ws[i].pc.Took? && spare !in s.co
    ensures SwappedIn(s, i, spare).ws[i].pc.Running?
    ensures Elsewhere(s, SwappedIn(s, i, spare), i, Some(SwappedIn(s, i, spare).ws[i].pc.job.c))
  {
    assert WorkerOk(s, i);
    NobodyElses(s, i, SwappedIn(s, i, spare).ws[i].pc.job.c);
  }

  lemma EndSliceOnward(s: State, i: nat)
    requires Steady(s) && i < |s.ws| && s.ws[i].pc.Running? && s.ws[i].pc.job.c in s.co
    ensures Nearer(s, SwappedOut(s, i, TERM), i)
  {
    NobodyElses(s, i, s.ws[i].pc.job.c);
    KeepsEndSlice(s, i, TERM);
    EndSliceContexts(s, i, TERM);
    LoadDrops(s, SwappedOut(s, i, TERM), i, Some(s.ws[i].pc.job.c));
  }

  lemma DecrementOnward(s: State, i: nat)
    requires Steady(s) && i < |s.ws| && s.ws[i].pc.Swapped?
    ensures Nearer(s, Decremented(s, i), i)
  {
    KeepsDecrement(s, i);
    DecrementContexts(s, i);
    LoadDrops(s, Decremented(s, i), i, None);
  }

  lemma SettleOnward(s: State, i: nat)
    requires Steady(s) && i < |s.ws| && s.ws[i].pc.Settling? && s.ws[i].pc.job.c in s.co
    ensures Nearer(s, Settled(s, i), i)
  {
    NobodyElses(s, i, s.ws[i].pc.job.c);
    SettleElsewhere(s, i);
    if s.co[s.ws[i].pc.job.c].state.READY? { KeepsRequeued(s, i); } else { KeepsRested(s, i); }
    SettleContexts(s, i);
    LoadDrops(s, Settled(s, i), i, Some(s.ws[i].pc.job.c));
  }

  lemma IdleTestOnward(s: State, i: nat)
    requires Steady(s) && i < |s.ws| && s.ws[i].pc.NoWork?
    ensures Nearer(s, IdleTested(s, i), i)
  {
    KeepsIdleTest(s, i);
    IdleTestContexts(s, i);
    LoadDrops(s, IdleTested(s, i), i, None);
  }

  lemma IdleCheckOnward(s: State, i: nat)
    requires Steady(s) && i < |s.ws| && s.ws[i].pc.InIdle?
    ensures Nearer(s, IdleChecked(s, i), i)
  {
    KeepsIdleCheck(s, i);
    IdleCheckContexts(s, i);
    assert WorkerOk(s, i);
    LoadDrops(s, IdleChecked(s, i), i, None);
  }

  lemma LeaveOnward(s: State, i: nat)
    requires Steady(s) && i < |s.ws| && s.ws[i].pc.Leaving?
    ensures Nearer(s, Left(s, i), i)
  {
    KeepsLeave(s, i);
    LeaveContexts(s, i);
    LoadDrops(s, Left(s, i), i, None);
  }

  // ---------- `stop` going on ----------

  /** The next thing `stop` does. */
  function NextCall(s: State): Event {
    match s.control
    case Open => StopAuto
    case AutoSet => StopFlag
    case _ => StopRoot
  }

  lemma CallStep(s: State)
    requires Steady(s) && CallsLeft(s.control) > 0
    ensures Enabled(s, NextCall(s))
    ensures Steady(Apply(s, NextCall(s))) && Remaining(Apply(s, NextCall(s))) < Remaining(s)
  {
    var t := Apply(s, NextCall(s));
    Keeps(s, NextCall(s));
    KeepsContexts(s, NextCall(s));
    LoadsChange(s, t, 0, |s.ws|);
  }

  // ---------- Runs ----------

  /** There is always an identity that no coroutine has. */
  lemma SpareExists(s: State) returns (spare: Cid)
    ensures spare !in s.co
  {
    spare := Beyond(s.co.Keys);
    assert spare in s.co ==> spare in s.co.Keys;
  }

  lemma {:induction false} Beyond(keys: set<Cid>) returns (bound: nat)
    ensures forall c :: c in keys ==> c < bound
    decreases |keys|
  {
    if keys == {} {
      bound := 0;
    } else {
      var c :| c in keys;
      var b := Beyond(keys - {c});
      bound := if b <= c then c + 1 else b;
      forall d | d in keys ensures d < bound { assert d == c || d in keys - {c}; }
    }
  }

  lemma RunCons(s: State, ev: Event, evs: seq<Event>)
    requires Enabled(s, ev) && IsRun(Apply(s, ev), evs)
    ensures IsRun(s, [ev] + evs) && Final(s, [ev] + evs) == Final(Apply(s, ev), evs)
  {
    assert ([ev] + evs)[1..] == evs;
  }

  /** Some run from here lets the push run exactly once. */
  ghost predicate CanRun(s: State, tk: nat) {
    exists evs :: IsRun(s, evs) && RanOnce(Final(s, evs), tk)
  }

  lemma CanRunBefore(s: State, ev: Event, tk: nat)
    requires Enabled(s, ev) && CanRun(Apply(s, ev), tk)
    ensures CanRun(s, tk)
  {
    var evs :| IsRun(Apply(s, ev), evs) && RanOnce(Final(Apply(s, ev), evs), tk);
    RunCons(s, ev, evs);
  }

  /** The joins of `stop` can return some time from here on. */
  ghost predicate StopCanReturn(s: State) {
    exists evs :: IsRun(s, evs) && Enabled(Final(s, evs), Join)
  }

  lemma CanReturnBefore(s: State, ev: Event)
    requires Enabled(s, ev) && StopCanReturn(Apply(s, ev))
    ensures StopCanReturn(s)
  {
    var evs :| IsRun(Apply(s, ev), evs) && Enabled(Final(Apply(s, ev), evs), Join);
    RunCons(s, ev, evs);
  }

  // ---------- Serving an entry ----------

  /** A worker with a push in its hand can bring it to its end. */
  lemma {:induction false} TaskCanEnd(s: State, i: nat, tk: nat)
    requires Steady(s) && i < |s.ws| && TicketOf(s.ws[i].pc) == Some(tk)
    ensures CanRun(s, tk)
    decreases Remaining(s)
  {
    var spare := SpareExists(s);
    var ev := Onward(s, i, spare);
    OnwardStep(s, i, spare);
    var t := Apply(s, ev);
    assert WorkerOk(s, i);
    TicketOnward(s, i, spare, tk);
    if t.ws[i].pc.Top? {
      assert PushOk(t, tk);
      assert IsRun(t, []) && RanOnce(Final(t, []), tk);
    } else {
      TaskCanEnd(t, i, tk);
    }
    CanRunBefore(s, ev, tk);
  }

  /** The push is still with worker `i`, or done with and the worker at the top of its loop. */
  predicate StillWith(t: State, i: nat, tk: nat) {
    && i < |t.ws| && tk < |t.log|
    && if t.ws[i].pc.Top? then t.log[tk].place.Retired? else TicketOf(t.ws[i].pc) == Some(tk)
  }

  lemma TicketOnward(s: State, i: nat, spare: Cid, tk: nat)
    requires i < |s.ws| && WorkerOk(s, i) && TicketOf(s.ws[i].pc) == Some(tk) && Possible(s, Onward(s, i, spare))
    ensures StillWith(Apply(s, Onward(s, i, spare)), i, tk)
  {
    match s.ws[i].pc
    case Took(_) => SwapInKeepsPush(s, i, spare);
    case Running(_) => assert StillWith(SwappedOut(s, i, TERM), i, tk);
    case Swapped(_) => assert StillWith(Decremented(s, i), i, tk);
    case Settling(_) => SettleRetires(s, i);
  }

  lemma SwapInKeepsPush(s: State, i: nat, spare: Cid)
    requires i < |s.ws| && WorkerOk(s, i) && s.ws[i].pc.Took?
    ensures StillWith(SwappedIn(s, i, spare), i, s.ws[i].pc.e.ticket)
  {
  }

  lemma SettleRetires(s: State, i: nat)
    requires i < |s.ws| && s.ws[i].pc.Settling? && s.ws[i].pc.job.c in s.co && s.ws[i].pc.job.ticket < |s.log|
    ensures StillWith(Settled(s, i), i, s.ws[i].pc.job.ticket)
  {
  }

  /** A worker that may take an entry and will scan again can go on until it has taken and ended it. */
  lemma {:induction false} AwaitedCanRun(s: State, k: nat, i: nat)
    requires Steady(s) && k < |s.queue| && i < |s.ws|
    requires MayRunOn(s.queue[k].thread, s.ws[i].tid) && WillScan(s, i)
    ensures CanRun(s, s.queue[k].ticket)
    decreases Remaining(s)
  {
    var tk := s.queue[k].ticket;
    var ev := TowardsScan(s, k, i);
    var t := Apply(s, ev);
    assert QueuedOk(s, k);
    HistoryStep(s, ev, tk);
    if t.log[tk].place.Queued? {
      var k' := Advance(s, ev, k);
      WillScanStep(s, ev, i, k);
      AwaitedCanRun(t, k', i);
    } else {
      TakenBy(s, ev, i, k);
      TaskCanEnd(t, i, tk);
    }
    CanRunBefore(s, ev, tk);
  }

  /** The next event on the way of worker `i` to entry `k`. */
  lemma TowardsScan(s: State, k: nat, i: nat) returns (ev: Event)
    requires Steady(s) && k < |s.queue| && i < |s.ws|
    requires MayRunOn(s.queue[k].thread, s.ws[i].tid) && WillScan(s, i)
    ensures Enabled(s, ev) && Steady(Apply(s, ev)) && Remaining(Apply(s, ev)) < Remaining(s)
    ensures ev.Scan? ==> ev.i == i
  {
    assert QueuedOk(s, k) && WorkerOk(s, i);
    if s.ws[i].pc.NotStarted? {
      ev := NextCall(s);
      CallStep(s);
    } else {
      var spare := SpareExists(s);
      ev := Onward(s, i, spare);
      OnwardStep(s, i, spare);
    }
  }

  /** Nothing but a scan takes an entry, and then the worker that scanned has it. */
  lemma TakenBy(s: State, ev: Event, i: nat, k: nat)
    requires Inv(s) && Enabled(s, ev) && i < |s.ws| && k < |s.queue| && (ev.Scan? ==> ev.i == i)
    requires s.queue[k].ticket < |Apply(s, ev).log| && !Apply(s, ev).log[s.queue[k].ticket].place.Queued?
    ensures i < |Apply(s, ev).ws| && TicketOf(Apply(s, ev).ws[i].pc) == Some(s.queue[k].ticket)
  {
    if ev.Scan? {
      ScanTakes(s, i, k);
    } else {
      OnlyScanTakes(s, ev, k);
    }
  }

  lemma OnlyScanTakes(s: State, ev: Event, k: nat)
    requires Inv(s) && Enabled(s, ev) && k < |s.queue| && !ev.Scan?
    ensures s.queue[k].ticket < |Apply(s, ev).log| && Apply(s, ev).log[s.queue[k].ticket].place.Queued?
  {
    Keeps(s, ev);
    QueueGrows(s, ev);
    assert QueuedOk(Apply(s, ev), k);
  }

  lemma ScanTakes(s: State, i: nat, k: nat)
    requires Inv(s) && i < |s.ws| && s.ws[i].pc.Top? && k < |s.queue| && s.queue[k].ticket < |s.log|
    requires !Scanned(s, i).log[s.queue[k].ticket].place.Queued?
    ensures TicketOf(Scanned(s, i).ws[i].pc) == Some(s.queue[k].ticket)
  {
    assert QueuedOk(s, k);
  }

  /** An entry can still be served exactly if some worker that may take it will scan again. */
  lemma CanRunIff(s: State, k: nat)
    requires Steady(s) && k < |s.queue|
    ensures CanRun(s, s.queue[k].ticket) <==> Awaited(s, s.queue[k].thread)
  {
    if i :| 0 <= i < |s.ws| && MayRunOn(s.queue[k].thread, s.ws[i].tid) && WillScan(s, i) {
      AwaitedCanRun(s, k, i);
    }
    if evs :| IsRun(s, evs) && RanOnce(Final(s, evs), s.queue[k].ticket) {
      if Orphan(s, k) {
        OrphanStays(s, evs, k);
        RunKeeps(s, evs);
        StillQueued(Final(s, evs), s.queue[k]);
      }
    }
  }

  lemma StillQueued(s: State, e: Entry)
    requires Inv(s) && e in s.queue
    ensures e.ticket < |s.log| && s.log[e.ticket].place.Queued?
  {
    var k :| 0 <= k < |s.queue| && s.queue[k] == e;
    assert QueuedOk(s, k);
  }

  // ---------- When `stop` can return ----------

  /** With an orphan in the list a worker whose idle coroutine has not ended will never leave. */
  lemma OrphanBlocksStop(s: State, evs: seq<Event>, k: nat, i: nat)
    requires Inv(s) && IsRun(s, evs) && k < |s.queue| && Orphan(s, k)
    requires i < |s.ws| && Blocking(s, i)
    ensures !Enabled(Final(s, evs), Join) && !AllLeft(Final(s, evs))
  {
    var t := Final(s, evs);
    OrphanStays(s, evs, k);
    RunKeeps(s, evs);
    assert KeptBusy(s, t, i) && Blocking(t, i);
    assert WorkerOk(t, i);
  }

  /** No worker is in the way of `stop`: each has left, or its idle coroutine has ended. */
  ghost predicate Unblocked(s: State) {
    forall i :: 0 <= i < |s.ws| ==> !Blocking(s, i)
  }

  lemma UnblockedCanGoOn(s: State, i: nat)
    requires Steady(s) && Unblocked(s) && i < |s.ws| && !HasLeft(s.ws[i])
    ensures CanGoOn(s, i) && s.ws[i].idle.TERM?
  {
    assert !Blocking(s, i) && WorkerOk(s, i) && ThreadOk(s, i);
  }

  /** Nobody is in the way: some run brings `stop` to its end. */
  lemma {:induction false} UnblockedReturns(s: State)
    requires Steady(s) && Unblocked(s) && !s.control.Stopped?
    ensures StopCanReturn(s)
    decreases Remaining(s)
  {
    if i :| 0 <= i < |s.ws| && !HasLeft(s.ws[i]) {
      UnblockedCanGoOn(s, i);
      var spare := SpareExists(s);
      OnwardStep(s, i, spare);
      var t := Apply(s, Onward(s, i, spare));
      forall j | 0 <= j < |t.ws| ensures !Blocking(t, j) { assert !Blocking(s, j); }
      UnblockedReturns(t);
      CanReturnBefore(s, Onward(s, i, spare));
    } else {
      assert !Blocking(s, 0) && WorkerOk(s, 0) && ThreadOk(s, 0);
      AllHomeReturns(s);
    }
  }

  lemma AllHomeReturns(s: State)
    requires Inv(s) && (s.control.StopSet? || s.control.Joining?) && forall i :: 0 <= i < |s.ws| ==> HasLeft(s.ws[i])
    requires s.control.StopSet? && s.hasRoot ==> Stopping(s)
    ensures StopCanReturn(s)
  {
    if s.control.StopSet? {
      var t := RootCalled(s);
      assert t.ws == s.ws;
      assert IsRun(t, []) && Enabled(Final(t, []), Join);
      assert t == Apply(s, StopRoot);
      CanReturnBefore(s, StopRoot);
    } else {
      assert IsRun(s, []) && Enabled(Final(s, []), Join);
    }
  }

  /** Nothing left to do: the workers go home one after the other. */
  lemma {:induction false} QuietReturns(s: State)
    requires Inv(s) && Quiet(s) && !s.control.Stopped?
    ensures StopCanReturn(s)
    decreases Sum(s.ws, Rank)
  {
    ShutdownProgress(s);
    if i :| 0 <= i < |s.ws| && !HasLeft(s.ws[i]) {
      var ev := NextEvent(s, i);
      QuietStep(s, ev);
      Keeps(s, ev);
      NextEventControl(s, i);
      QuietReturns(Apply(s, ev));
      CanReturnBefore(s, ev);
    } else {
      AllHomeReturns(s);
    }
  }

  lemma NextEventControl(s: State, i: nat)
    requires i < |s.ws| && Possible(s, NextEvent(s, i))
    ensures OfWorker(NextEvent(s, i)) && Apply(s, NextEvent(s, i)).control == s.control
  {
    LeavesControl(s, NextEvent(s, i));
  }

  ghost predicate NoOrphans(s: State) {
    forall k :: 0 <= k < |s.queue| ==> Awaited(s, s.queue[k].thread)
  }

  /** No event but a push makes an orphan. */
  lemma NoOrphansStep(s: State, ev: Event)
    requires Inv(s) && Enabled(s, ev) && NoOrphans(s) && !ev.TaskPush? && !ev.ClientPush?
    ensures NoOrphans(Apply(s, ev))
  {
    var t := Apply(s, ev);
    Keeps(s, ev);
    NothingNewPinned(s, ev);
    forall k | 0 <= k < |t.queue| ensures Awaited(t, t.queue[k].thread) {
      if t.queue[k].thread == ANY_THREAD {
        UnpinnedIsAwaited(t, k);
      } else {
        var j :| 0 <= j < |s.queue| && s.queue[j] == t.queue[k];
        AwaitedStep(s, ev, j);
      }
    }
  }

  /** What is new in the list is unpinned. */
  predicate NewUnpinned(s: State, t: State) {
    forall e :: e in t.queue ==> e in s.queue || e.thread == ANY_THREAD
  }

  lemma NothingNewPinned(s: State, ev: Event)
    requires Possible(s, ev) && !ev.TaskPush? && !ev.ClientPush?
    ensures NewUnpinned(s, Apply(s, ev))
  {
    match ev
    case Scan(i) => assert NewUnpinned(s, Scanned(s, i));
    case SwapIn(i, spare) => assert NewUnpinned(s, SwappedIn(s, i, spare));
    case Decrement(i) => assert NewUnpinned(s, Decremented(s, i));
    case Settle(i) => SettleQueue(s, i);
    case _ =>
  }

  lemma SettleQueue(s: State, i: nat)
    requires i < |s.ws| && s.ws[i].pc.Settling? && s.ws[i].pc.job.c in s.co
    ensures NewUnpinned(s, Settled(s, i))
  {
  }

  /** Everything queued is awaited: some run drains the list, ends all tasks and brings `stop` to its end. */
  lemma {:induction false} NoOrphansReturns(s: State)
    requires Steady(s) && NoOrphans(s) && !s.control.Stopped?
    ensures StopCanReturn(s)
    decreases Remaining(s)
  {
    if CallsLeft(s.control) > 0 || s.queue != [] || exists i :: 0 <= i < |s.ws| && Busy(s.ws[i].pc) {
      var ev := NextToDrain(s);
      NoOrphansStep(s, ev);
      NoOrphansReturns(Apply(s, ev));
      CanReturnBefore(s, ev);
    } else {
      DrainedIsQuiet(s);
      QuietReturns(s);
    }
  }

  /** First `stop` goes on to its joins, then tasks in hand end, then somebody moves towards the first entry. */
  lemma NextToDrain(s: State) returns (ev: Event)
    requires Steady(s) && NoOrphans(s) && !s.control.Stopped?
    requires CallsLeft(s.control) > 0 || s.queue != [] || exists i :: 0 <= i < |s.ws| && Busy(s.ws[i].pc)
    ensures Enabled(s, ev) && !ev.TaskPush? && !ev.ClientPush?
    ensures var t := Apply(s, ev); Steady(t) && Remaining(t) < Remaining(s) && !t.control.Stopped?
  {
    if CallsLeft(s.control) > 0 {
      ev := NextCall(s);
      CallStep(s);
    } else {
      var i: nat;
      if j :| 0 <= j < |s.ws| && Busy(s.ws[j].pc) {
        i := j;
      } else {
        i := FirstIsAwaited(s);
      }
      var spare := SpareExists(s);
      ev := Onward(s, i, spare);
      OnwardStep(s, i, spare);
    }
  }

  lemma FirstIsAwaited(s: State) returns (i: nat)
    requires Steady(s) && NoOrphans(s) && s.queue != [] && CallsLeft(s.control) == 0
    ensures i < |s.ws| && CanGoOn(s, i)
  {
    assert Awaited(s, s.queue[0].thread);
    i :| 0 <= i < |s.ws| && MayRunOn(s.queue[0].thread, s.ws[i].tid) && WillScan(s, i);
    assert QueuedOk(s, 0) && WorkerOk(s, i);
  }

  lemma DrainedIsQuiet(s: State)
    requires Inv(s) && s.queue == [] && CallsLeft(s.control) == 0
    requires forall i :: 0 <= i < |s.ws| ==> !Busy(s.ws[i].pc)
    ensures Quiet(s)
  {
    forall i | 0 <= i < |s.ws| ensures Counted(s.ws[i]) == 0 { assert WorkerOk(s, i); }
    SumZero(s.ws, Counted);
  }

  /**
   `stop` can return exactly if nothing is queued that nobody will take, or else every idle coroutine has
   ended or never starts. In the second case it leaves that entry behind.
   */
  lemma StopReturnsIff(s: State)
    requires Reachable(s) && !s.control.Stopped?
    ensures StopCanReturn(s) <==> (NoOrphans(s) || Unblocked(s))
    ensures forall k, evs :: 0 <= k < |s.queue| && Orphan(s, k) && IsRun(s, evs) ==> s.queue[k] in Final(s, evs).queue
  {
    ReachableInv(s);
    ReachableContexts(s);
    if Unblocked(s) {
      UnblockedReturns(s);
    } else if NoOrphans(s) {
      NoOrphansReturns(s);
    } else {
      var k :| 0 <= k < |s.queue| && !Awaited(s, s.queue[k].thread);
      var i :| 0 <= i < |s.ws| && Blocking(s, i);
      forall evs | IsRun(s, evs) ensures !Enabled(Final(s, evs), Join) { OrphanBlocksStop(s, evs, k, i); }
    }
    forall k, evs | 0 <= k < |s.queue| && Orphan(s, k) && IsRun(s, evs)
      ensures s.queue[k] in Final(s, evs).queue
    {
      OrphanStays(s, evs, k);
    }
  }

  // ---------- What that means for a client ----------

  /** Before `stop` an entry pinned to no worker's thread keeps every worker there, and `stop` from returning. */
  lemma OpenOrphanBlocks(s: State, evs: seq<Event>, k: nat)
    requires Inv(s) && s.control.Open? && IsRun(s, evs) && k < |s.queue| && !HasWorker(s, s.queue[k].thread)
    ensures !AllLeft(Final(s, evs)) && !Enabled(Final(s, evs), Join) && s.queue[k] in Final(s, evs).queue
  {
    OpenAwaitedIff(s, s.queue[k].thread);
    assert WorkerOk(s, 0);
    OrphanBlocksStop(s, evs, k, 0);
    OrphanStays(s, evs, k);
  }

  /** What anybody pushes, at any time, can run exactly if some worker that may take it will scan again. */
  lemma PushCanRunIff(s: State, work: Work, thread: int)
    requires Steady(s) && HasPointer(s, work) && MayPush(s, work)
    ensures CanRun(Pushed(s, work, thread), |s.log|) <==> Awaited(s, thread)
  {
    var t := Pushed(s, work, thread);
    SameWorkersAwait(s, t, thread);
    if SomeoneWillScan(s) {
      KeepsPush(s, work, thread);
      PushContexts(s, work, thread);
      assert t.queue[|s.queue|] == Entry(work, thread, |s.log|);
      CanRunIff(t, |s.queue|);
    } else {
      NobodyAfterPush(s, work, thread);
      forall evs | IsRun(t, evs) ensures !RanOnce(Final(t, evs), |s.log|) { NobodyTakes(t, evs); }
    }
  }

  /**
   What a client pushes before `stop` can run exactly if it is unpinned or pinned to a worker. If so it has run
   once in every run at whose end all workers have left; if not `stop` returns in no run.
   */
  lemma ClientPushServedIff(s: State, work: Work, thread: int)
    requires Reachable(s) && Enabled(s, ClientPush(work, thread))
    ensures CanRun(Pushed(s, work, thread), |s.log|) <==> HasWorker(s, thread)
    ensures HasWorker(s, thread) ==>
              forall evs :: IsRun(Pushed(s, work, thread), evs) ==>
                              RunsUnlessWorking(Final(Pushed(s, work, thread), evs), |s.log|)
    ensures !HasWorker(s, thread) ==>
              forall evs :: IsRun(Pushed(s, work, thread), evs) ==> NeverEnds(Final(Pushed(s, work, thread), evs))
  {
    var t := Pushed(s, work, thread);
    ReachableInv(s);
    ReachableContexts(s);
    PushCanRunIff(s, work, thread);
    OpenAwaitedIff(s, thread);
    Keeps(s, ClientPush(work, thread));
    assert t.queue[|s.queue|] == Entry(work, thread, |s.log|);
    forall evs | IsRun(t, evs)
      ensures HasWorker(s, thread) ==> RunsUnlessWorking(Final(t, evs), |s.log|)
      ensures !HasWorker(s, thread) ==> NeverEnds(Final(t, evs))
    {
      if !HasWorker(s, thread) {
        OpenOrphanBlocks(t, evs, |s.queue|);
      } else if AllLeft(Final(t, evs)) {
        PushServedIff(s, work, thread, evs);
      }
    }
  }

  /** Once all workers have left, the push has run exactly once. */
  predicate RunsUnlessWorking(s: State, tk: nat) {
    AllLeft(s) ==> RanOnce(s, tk)
  }

  /** Some worker is still there, and the joins of `stop` cannot return. */
  predicate NeverEnds(s: State) {
    !AllLeft(s) && !Enabled(s, Join)
  }
}
