/**
 Which entries are served: exactly those some worker will still scan for. Unpinned work is never stranded;
 an entry pinned to nobody stays, and either `stop` never returns or it returns with that entry left.
 */
module ProtocolService {
  import opened SchedulerProtocol
  import opened ProtocolInvariant
  import opened ProtocolTheorems

  predicate MayRunOn(thread: int, tid: int) {
    thread == ANY_THREAD || thread == tid
  }

  /** Some worker that may take an entry with this pin will scan again before it leaves. */
  ghost predicate Awaited(s: State, thread: int) {
    exists i :: 0 <= i < |s.ws| && MayRunOn(thread, s.ws[i].tid) && WillScan(s, i)
  }

  // ---------- An awaited entry stays awaited until it is taken ----------

  /**
   What one event may make of worker `i`: it turns home only after a scan that found nothing for it (or a
   finished coroutine), its idle coroutine ends only when `stopping()` holds, and only `stop` starts it.
   */
  predicate MayBecome(s: State, t: State, i: nat)
    requires i < |s.ws|
  {
    && |t.ws| == |s.ws| && t.ws[i].tid == s.ws[i].tid
    && (Stuck(s.ws[i]) ==> Stuck(t.ws[i]))
    && (Stuck(t.ws[i]) && !Stuck(s.ws[i]) ==>
          s.ws[i].pc.Discarding? || (s.ws[i].pc.Top? && FirstEligible(s.queue, s.ws[i].tid, s.co) == |s.queue|))
    && (t.ws[i].idle.TERM? && !s.ws[i].idle.TERM? ==> Stopping(s))
    && (t.ws[i].pc.NotStarted? ==> s.ws[i].pc.NotStarted?)
    && (s.ws[i].pc.NotStarted? && !t.ws[i].pc.NotStarted? ==> s.control.StopSet?)
    && (Joins(s.control) ==> Joins(t.control))
    && (t.ws[i].pc.NotStarted? && Joins(t.control) ==> Joins(s.control) || Stopping(s) || !IsCaller(s, i))
  }

  predicate Joins(control: Control) {
    control.Joining? || control.Stopped?
  }

  lemma EventMoves(s: State, ev: Event, i: nat)
    requires ControlOk(s) && Possible(s, ev) && i < |s.ws|
    ensures MayBecome(s, Apply(s, ev), i)
  {
    match ev
    case Enter(j) => assert MayBecome(s, Entered(s, j), i);
    case Scan(j) => ScanMoves(s, j, i);
    case SwapIn(j, spare) => SwapInMoves(s, j, spare, i);
    case EndSlice(j, out) => EndSliceMoves(s, j, out, i);
    case Decrement(j) => DecrementMoves(s, j, i);
    case Settle(j) => SettleMoves(s, j, i);
    case IdleTest(j) => assert MayBecome(s, IdleTested(s, j), i);
    case IdleCheck(j) => assert MayBecome(s, IdleChecked(s, j), i);
    case Leave(j) => LeaveMoves(s, j, i);
    case StopRoot => RootMoves(s, i);
    case _ => assert Apply(s, ev).ws == s.ws;
  }

  lemma ScanMoves(s: State, j: nat, i: nat)
    requires j < |s.ws| && s.ws[j].pc.Top? && i < |s.ws|
    ensures MayBecome(s, Scanned(s, j), i)
  {
  }

  lemma SwapInMoves(s: State, j: nat, spare: Cid, i: nat)
    requires j < |s.ws| && s.ws[j].pc.Took? && i < |s.ws|
    ensures MayBecome(s, SwappedIn(s, j, spare), i)
  {
  }

  lemma EndSliceMoves(s: State, j: nat, out: CState, i: nat)
    requires j < |s.ws| && s.ws[j].pc.Running? && s.ws[j].pc.job.c in s.co && i < |s.ws|
    ensures MayBecome(s, SwappedOut(s, j, out), i)
  {
  }

  lemma DecrementMoves(s: State, j: nat, i: nat)
    requires j < |s.ws| && (s.ws[j].pc.Swapped? || s.ws[j].pc.Discarding?) && i < |s.ws|
    ensures MayBecome(s, Decremented(s, j), i)
  {
  }

  lemma LeaveMoves(s: State, j: nat, i: nat)
    requires j < |s.ws| && s.ws[j].pc.Leaving? && i < |s.ws|
    ensures MayBecome(s, Left(s, j), i)
  {
  }

  lemma RootMoves(s: State, i: nat)
    requires ControlOk(s) && s.control.StopSet? && i < |s.ws|
    ensures MayBecome(s, RootCalled(s), i)
  {
  }

  lemma SettleMoves(s: State, j: nat, i: nat)
    requires j < |s.ws| && s.ws[j].pc.Settling? && s.ws[j].pc.job.c in s.co && i < |s.ws|
    ensures MayBecome(s, Settled(s, j), i)
  {
  }

  /** Worker `i` is there with its thread id and will scan again. */
  predicate ScansOn(s: State, t: State, i: nat)
    requires i < |s.ws|
  {
    |t.ws| == |s.ws| && t.ws[i].tid == s.ws[i].tid && WillScan(t, i)
  }

  /** No event sends a worker home past an entry it may take. */
  lemma WillScanStep(s: State, ev: Event, i: nat, k: nat)
    requires Inv(s) && Enabled(s, ev) && i < |s.ws| && WillScan(s, i)
    requires k < |s.queue| && MayRunOn(s.queue[k].thread, s.ws[i].tid)
    ensures ScansOn(s, Apply(s, ev), i)
  {
    assert QueuedOk(s, k) && WorkerOk(s, i);
    EventMoves(s, ev, i);
  }

  lemma AwaitedStep(s: State, ev: Event, k: nat)
    requires Inv(s) && Enabled(s, ev) && k < |s.queue| && Awaited(s, s.queue[k].thread)
    ensures Awaited(Apply(s, ev), s.queue[k].thread)
  {
    var i :| 0 <= i < |s.ws| && MayRunOn(s.queue[k].thread, s.ws[i].tid) && WillScan(s, i);
    WillScanStep(s, ev, i, k);
  }

  // ---------- The exact condition ----------

  /** Nobody will ever scan the list again. */
  predicate AllLeft(s: State) {
    forall i :: 0 <= i < |s.ws| ==>
                  s.ws[i].pc.Exited? || (s.ws[i].pc.NotStarted? && (s.control.Joining? || s.control.Stopped?))
  }

  /** An awaited entry has run exactly once when all workers have left. */
  lemma {:induction false} AwaitedRuns(s: State, evs: seq<Event>, k: nat)
    requires Inv(s) && IsRun(s, evs) && AllLeft(Final(s, evs))
    requires k < |s.queue| && Awaited(s, s.queue[k].thread)
    ensures RanOnce(Final(s, evs), s.queue[k].ticket)
    decreases |evs|
  {
    NobodyAwaits(Final(s, evs), s.queue[k].thread);
    if evs != [] {
      var t := Apply(s, evs[0]);
      var tk := s.queue[k].ticket;
      assert QueuedOk(s, k);
      Keeps(s, evs[0]);
      HistoryStep(s, evs[0], tk);
      if t.log[tk].place.Queued? {
        var k' := Advance(s, evs[0], k);
        AwaitedStep(s, evs[0], k);
        AwaitedRuns(t, evs[1..], k');
      } else {
        HistoryOnlyGrows(t, evs[1..], tk);
        RunKeeps(t, evs[1..]);
        TakenIsRun(Final(t, evs[1..]), tk);
      }
    }
  }

  lemma NobodyAwaits(s: State, thread: int)
    requires AllLeft(s)
    ensures !Awaited(s, thread)
  {
  }

  predicate RanOnce(s: State, tk: nat) {
    tk < |s.log| && s.log[tk].place.Retired? && s.log[tk].slices == 1
  }

  lemma TakenIsRun(s: State, tk: nat)
    requires Inv(s) && AllLeft(s) && tk < |s.log| && !s.log[tk].place.Queued?
    ensures RanOnce(s, tk)
  {
    assert PushOk(s, tk);
  }

  /** Pinned to a thread that is no worker, or only to workers that will not scan again. */
  ghost predicate Orphan(s: State, k: nat)
    requires k < |s.queue|
  {
    !Awaited(s, s.queue[k].thread)
  }

  /** A worker that will not scan again stays so, and no idle coroutine comes to its end. */
  predicate KeptBusy(s: State, t: State, i: nat)
    requires i < |s.ws| && |t.ws| == |s.ws|
  {
    && t.ws[i].tid == s.ws[i].tid
    && (!WillScan(s, i) ==> !WillScan(t, i))
    && (Blocking(s, i) ==> Blocking(t, i))
  }

  /** The worker has started, or will be started by `stop`, and its idle coroutine has not ended. */
  predicate Blocking(s: State, i: nat)
    requires i < |s.ws|
  {
    !s.ws[i].idle.TERM? && !(s.ws[i].pc.NotStarted? && (s.control.Joining? || s.control.Stopped?))
  }

  ghost predicate NoneFreed(s: State, t: State) {
    |t.ws| == |s.ws| && forall i :: 0 <= i < |s.ws| ==> KeptBusy(s, t, i)
  }

  lemma FreesNone(s: State, ev: Event)
    requires Inv(s) && Enabled(s, ev) && s.queue != []
    ensures NoneFreed(s, Apply(s, ev))
  {
    EventMoves(s, ev, 0);
    forall i | 0 <= i < |s.ws| ensures KeptBusy(s, Apply(s, ev), i) {
      assert WorkerOk(s, i);
      EventMoves(s, ev, i);
    }
  }

  /** An orphan is passed over by every scan, in this state and for ever. */
  lemma OrphanStep(s: State, ev: Event, k: nat) returns (k': nat)
    requires Inv(s) && Enabled(s, ev) && k < |s.queue| && Orphan(s, k)
    ensures k' < |Apply(s, ev).queue| && Apply(s, ev).queue[k'] == s.queue[k]
    ensures NoneFreed(s, Apply(s, ev)) && Orphan(Apply(s, ev), k')
  {
    FreesNone(s, ev);
    if ev.Scan? {
      k' := OrphanPassedOver(s, ev.i, k);
    } else {
      QueueGrows(s, ev);
      k' := k;
    }
    OrphanKept(s, Apply(s, ev), k, k');
  }

  lemma OrphanPassedOver(s: State, i: nat, k: nat) returns (k': nat)
    requires i < |s.ws| && s.ws[i].pc.Top? && k < |s.queue| && Orphan(s, k)
    ensures k' < |Scanned(s, i).queue| && Scanned(s, i).queue[k'] == s.queue[k]
  {
    assert WillScan(s, i);
    k' := if FirstEligible(s.queue, s.ws[i].tid, s.co) < k then k - 1 else k;
  }

  lemma OrphanKept(s: State, t: State, k: nat, k': nat)
    requires k < |s.queue| && Orphan(s, k) && NoneFreed(s, t)
    requires k' < |t.queue| && t.queue[k'] == s.queue[k]
    ensures Orphan(t, k')
  {
    forall i | 0 <= i < |t.ws| && MayRunOn(s.queue[k].thread, t.ws[i].tid) ensures !WillScan(t, i) {
      assert KeptBusy(s, t, i);
    }
  }

  lemma NoneFreedTrans(s: State, t: State, u: State)
    requires NoneFreed(s, t) && NoneFreed(t, u)
    ensures NoneFreed(s, u)
  {
    forall i | 0 <= i < |s.ws| ensures KeptBusy(s, u, i) { assert KeptBusy(s, t, i) && KeptBusy(t, u, i); }
  }

  /** An orphan stays in the list for ever, so `stopping()` stays false and no idle coroutine ends. */
  lemma {:induction false} OrphanStays(s: State, evs: seq<Event>, k: nat)
    requires Inv(s) && IsRun(s, evs) && k < |s.queue| && Orphan(s, k)
    ensures s.queue[k] in Final(s, evs).queue && !Stopping(Final(s, evs)) && NoneFreed(s, Final(s, evs))
    decreases |evs|
  {
    if evs != [] {
      var t := Apply(s, evs[0]);
      var k' := OrphanStep(s, evs[0], k);
      Keeps(s, evs[0]);
      OrphanStays(t, evs[1..], k');
      NoneFreedTrans(s, t, Final(s, evs));
    }
  }

  /** When all workers have left, an entry is still there exactly if nobody was going to scan for it. */
  lemma LeftOverIff(s: State, evs: seq<Event>, k: nat)
    requires Inv(s) && IsRun(s, evs) && AllLeft(Final(s, evs)) && k < |s.queue|
    ensures s.queue[k] in Final(s, evs).queue <==> !Awaited(s, s.queue[k].thread)
    ensures RanOnce(Final(s, evs), s.queue[k].ticket) <==> Awaited(s, s.queue[k].thread)
  {
    var t := Final(s, evs);
    RunKeeps(s, evs);
    if Awaited(s, s.queue[k].thread) {
      AwaitedRuns(s, evs, k);
    } else {
      OrphanStays(s, evs, k);
    }
    forall e | e in t.queue ensures e.ticket < |t.log| && t.log[e.ticket].place.Queued? {
      var j :| 0 <= j < |t.queue| && t.queue[j] == e;
      assert QueuedOk(t, j);
    }
  }

  // ---------- What that means for callers ----------

  /** The condition as a caller can check it before `stop`: unpinned, or pinned to a worker's thread. */
  predicate HasWorker(s: State, thread: int) {
    thread == ANY_THREAD || exists i :: 0 <= i < |s.ws| && s.ws[i].tid == thread
  }

  lemma OpenAwaitedIff(s: State, thread: int)
    requires Inv(s) && s.control.Open?
    ensures Awaited(s, thread) <==> HasWorker(s, thread)
  {
    forall i | 0 <= i < |s.ws| ensures WillScan(s, i) { assert WorkerOk(s, i); }
    assert WillScan(s, 0);
  }

  // ---------- A push at any time ----------

  /** No worker will scan the list again. */
  ghost predicate NobodyScans(s: State) {
    ControlOk(s) && !SomeoneWillScan(s)
  }

  /** Then entries only come, whatever happens. */
  lemma NobodyStep(s: State, ev: Event)
    requires NobodyScans(s) && Possible(s, ev)
    ensures NobodyScans(Apply(s, ev)) && s.queue <= Apply(s, ev).queue && s.log <= Apply(s, ev).log
  {
    forall i | 0 <= i < |s.ws| ensures Stuck(s.ws[i]) || (s.ws[i].pc.NotStarted? && Joins(s.control)) {
      assert !WillScan(s, i);
    }
    QueueGrows(s, ev);
    LogKept(s, ev);
    EventMoves(s, ev, 0);
    forall i | 0 <= i < |s.ws| ensures !WillScan(Apply(s, ev), i) { EventMoves(s, ev, i); }
    NobodyControl(s, ev);
  }

  lemma NobodyControl(s: State, ev: Event)
    requires ControlOk(s) && Possible(s, ev) && (s.hasRoot ==> Joins(s.control))
    ensures ControlOk(Apply(s, ev))
  {
    EventMoves(s, ev, 0);
    if !ByStop(ev) { LeavesControl(s, ev); }
  }

  lemma {:induction false} NobodyTakes(s: State, evs: seq<Event>)
    requires NobodyScans(s) && IsRun(s, evs)
    ensures s.queue <= Final(s, evs).queue && s.log <= Final(s, evs).log
    decreases |evs|
  {
    if evs != [] {
      NobodyStep(s, evs[0]);
      NobodyTakes(Apply(s, evs[0]), evs[1..]);
    }
  }

  lemma NobodyAfterPush(s: State, work: Work, thread: int)
    requires NobodyScans(s)
    ensures NobodyScans(Pushed(s, work, thread))
  {
    forall i | 0 <= i < |s.ws| ensures !WillScan(Pushed(s, work, thread), i) { assert !WillScan(s, i); }
  }

  /**
   Whoever pushes, at whatever time, `stop` or no `stop`: when all workers have left, the push has run exactly
   once exactly if a worker that may take it was going to scan again.
   */
  lemma PushServedIff(s: State, work: Work, thread: int, evs: seq<Event>)
    requires Inv(s) && HasPointer(s, work) && MayPush(s, work)
    requires IsRun(Pushed(s, work, thread), evs) && AllLeft(Final(Pushed(s, work, thread), evs))
    ensures RanOnce(Final(Pushed(s, work, thread), evs), |s.log|) <==> Awaited(s, thread)
  {
    var t := Pushed(s, work, thread);
    SameWorkersAwait(s, t, thread);
    if SomeoneWillScan(s) {
      KeepsPush(s, work, thread);
      assert t.queue[|s.queue|] == Entry(work, thread, |s.log|);
      LeftOverIff(t, evs, |s.queue|);
    } else {
      NobodyAfterPush(s, work, thread);
      NobodyTakes(t, evs);
    }
  }

  /** For a running task that means at least its own worker. */
  lemma TaskPushServedIff(s: State, i: nat, work: Work, thread: int, evs: seq<Event>)
    requires Reachable(s) && Enabled(s, TaskPush(i, work, thread))
    requires IsRun(Apply(s, TaskPush(i, work, thread)), evs) && AllLeft(Final(Apply(s, TaskPush(i, work, thread)), evs))
    ensures RanOnce(Final(Apply(s, TaskPush(i, work, thread)), evs), |s.log|) <==> Awaited(s, thread)
    ensures MayRunOn(thread, s.ws[i].tid) ==> Awaited(s, thread)
  {
    ReachableInv(s);
    PushServedIff(s, work, thread, evs);
    assert WillScan(s, i);
  }

  lemma SameWorkersAwait(s: State, t: State, thread: int)
    requires t.ws == s.ws && t.control == s.control
    ensures Awaited(s, thread) <==> Awaited(t, thread)
  {
    forall i | 0 <= i < |s.ws| ensures WillScan(s, i) <==> WillScan(t, i) {}
  }

  /** An unpinned entry is always awaited. */
  lemma UnpinnedIsAwaited(s: State, k: nat)
    requires Inv(s) && k < |s.queue| && s.queue[k].thread == ANY_THREAD
    ensures Awaited(s, ANY_THREAD)
  {
    var i :| 0 <= i < |s.ws| && WillScan(s, i);
    assert MayRunOn(ANY_THREAD, s.ws[i].tid);
  }

  lemma NoUnpinnedStranded(s: State)
    requires Reachable(s) && AllLeft(s)
    ensures forall k :: 0 <= k < |s.queue| ==> s.queue[k].thread != ANY_THREAD
  {
    ReachableInv(s);
    forall k | 0 <= k < |s.queue| ensures s.queue[k].thread != ANY_THREAD {
      LeftOverIff(s, [], k);
      if s.queue[k].thread == ANY_THREAD { UnpinnedIsAwaited(s, k); }
    }
  }

  /** The same at the moment the joins of `stop` can return. */
  lemma JoinFindsOnlyPinned(s: State)
    requires Reachable(s) && Enabled(s, Join)
    ensures forall k :: 0 <= k < |s.queue| ==> s.queue[k].thread != ANY_THREAD
  {
    NoUnpinnedStranded(s);
  }

  /** When every worker has left, every unpinned push has run exactly once. */
  lemma UnpinnedRanExactlyOnce(s: State, tk: nat)
    requires Reachable(s) && AllLeft(s) && tk < |s.log| && s.log[tk].thread == ANY_THREAD
    ensures RanOnce(s, tk)
  {
    ReachableInv(s);
    assert PushOk(s, tk);
    NoUnpinnedStranded(s);
    TakenIsRun(s, tk);
  }

  /** The event pins nothing to a thread. */
  predicate Unpinning(ev: Event) {
    (ev.TaskPush? ==> ev.thread == ANY_THREAD) && (ev.ClientPush? ==> ev.thread == ANY_THREAD)
  }

  predicate AllUnpinned(log: seq<Push>) {
    forall tk :: 0 <= tk < |log| ==> log[tk].thread == ANY_THREAD
  }

  lemma {:induction false} NothingPinned(s: State, evs: seq<Event>)
    requires Inv(s) && IsRun(s, evs) && forall ev :: ev in evs ==> Unpinning(ev)
    requires AllUnpinned(s.log)
    ensures AllUnpinned(Final(s, evs).log)
    decreases |evs|
  {
    if evs != [] {
      Keeps(s, evs[0]);
      assert evs[0] in evs;
      PinsNothing(s, evs[0]);
      NothingPinned(Apply(s, evs[0]), evs[1..]);
    }
  }

  lemma PinsNothing(s: State, ev: Event)
    requires Possible(s, ev) && Unpinning(ev) && AllUnpinned(s.log)
    ensures AllUnpinned(Apply(s, ev).log)
  {
    match ev
    case Scan(i) => assert AllUnpinned(Scanned(s, i).log);
    case SwapIn(i, spare) => assert AllUnpinned(SwappedIn(s, i, spare).log);
    case Decrement(i) => assert AllUnpinned(Decremented(s, i).log);
    case Settle(i) => SettlePinsNothing(s, i);
    case TaskPush(_, work, thread) => assert AllUnpinned(Pushed(s, work, thread).log);
    case ClientPush(work, thread) => assert AllUnpinned(Pushed(s, work, thread).log);
    case _ => assert Apply(s, ev).log == s.log;
  }

  lemma SettlePinsNothing(s: State, i: nat)
    requires i < |s.ws| && s.ws[i].pc.Settling? && s.ws[i].pc.job.c in s.co && AllUnpinned(s.log)
    ensures AllUnpinned(Settled(s, i).log)
  {
  }

  /** A run that never pins ends with an empty list. */
  lemma UnpinnedRunDrains(s: State, evs: seq<Event>)
    requires Init(s) && IsRun(s, evs) && forall ev :: ev in evs ==> Unpinning(ev)
    requires AllLeft(Final(s, evs))
    ensures Final(s, evs).queue == []
  {
    InitInv(s);
    NothingPinned(s, evs);
    var t := Final(s, evs);
    assert Reachable(t);
    RunKeeps(s, evs);
    forall k | 0 <= k < |t.queue| ensures t.queue[k].thread == ANY_THREAD { assert QueuedOk(t, k); }
    assert t.queue == [] || t.queue[0].thread == ANY_THREAD;
    NoUnpinnedStranded(t);
  }
}
