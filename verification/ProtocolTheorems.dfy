/** The promises of the scheduler, for every interleaving of any number of workers. */
module ProtocolTheorems {
  import opened Common
  import opened SchedulerProtocol
  import opened ProtocolInvariant
  import opened ProtocolContexts

  // ---------- Exclusive execution ----------

  /** A coroutine is with at most one worker and never with a worker and in the list at once. */
  lemma OneHolder(s: State, i: nat, c: Cid)
    requires Reachable(s) && i < |s.ws| && Holds(s.ws[i], c)
    ensures forall j :: 0 <= j < |s.ws| && Holds(s.ws[j], c) ==> j == i
    ensures forall k :: 0 <= k < |s.queue| ==> s.queue[k].work != Co(c)
  {
    ReachableInv(s);
    HolderIsSole(s, i, c);
  }

  lemma HolderIsSole(s: State, i: nat, c: Cid)
    requires Inv(s) && i < |s.ws| && Holds(s.ws[i], c)
    ensures forall j :: 0 <= j < |s.ws| && Holds(s.ws[j], c) ==> j == i
    ensures forall k :: 0 <= k < |s.queue| ==> s.queue[k].work != Co(c)
  {
    assert WorkerOk(s, i);
    forall j | 0 <= j < |s.ws| && Holds(s.ws[j], c) ensures j == i { assert WorkerOk(s, j); }
    forall k | 0 <= k < |s.queue| ensures s.queue[k].work != Co(c) { assert QueuedOk(s, k); }
  }

  lemma QueuedOnce(s: State, j: nat, k: nat, c: Cid)
    requires Reachable(s) && j < |s.queue| && k < |s.queue|
    requires s.queue[j].work == Co(c) && s.queue[k].work == Co(c)
    ensures j == k
  {
    ReachableInv(s);
    assert QueuedOk(s, j) && QueuedOk(s, k);
  }

  /** A coroutine a worker has swapped in is in EXEC. */
  lemma RunningExecutes(s: State, i: nat)
    requires Reachable(s) && i < |s.ws| && s.ws[i].pc.Running?
    ensures s.ws[i].pc.job.c in s.co && s.co[s.ws[i].pc.job.c].state.EXEC?
  {
    ReachableInv(s);
    assert WorkerOk(s, i);
  }

  /** A coroutine in EXEC or READY is in exactly one place: one worker, or (READY only) one list entry. */
  lemma ActiveIsPlaced(s: State, c: Cid) returns (tk: nat)
    requires Inv(s) && c in s.co && (s.co[c].state.EXEC? || s.co[c].state.READY?)
    ensures s.co[c].loc == Out(tk) && tk < |s.log|
    ensures s.log[tk].place.Queued? ==> s.co[c].state.READY? && Entry(Co(c), s.log[tk].thread, tk) in s.queue
    ensures !s.log[tk].place.Queued? ==>
              s.log[tk].place.Hand? && s.log[tk].place.i < |s.ws| && Holds(s.ws[s.log[tk].place.i], c)
  {
    assert CoroutineOk(s, c);
    tk := s.co[c].loc.ticket;
    assert PushOk(s, tk);
    if s.log[tk].place.Queued? {
      var k :| 0 <= k < |s.queue| && s.queue[k] == Entry(s.log[tk].work, s.log[tk].thread, tk);
      assert QueuedOk(s, k);
    } else {
      assert WorkerOk(s, s.log[tk].place.i);
    }
  }

  /** A coroutine in EXEC is swapped in by a worker, or was swapped out bare and is not yet parked by it. */
  lemma ExecutingIsHeld(s: State, c: Cid)
    requires Reachable(s) && c in s.co && s.co[c].state.EXEC?
    ensures exists i :: 0 <= i < |s.ws| && JobOf(s.ws[i].pc) != None && JobOf(s.ws[i].pc).value.c == c
  {
    ReachableInv(s);
    var tk := ActiveIsPlaced(s, c);
    var i := s.log[tk].place.i;
    assert WorkerOk(s, i);
    assert PushOk(s, tk);
  }

  /**
   No assertion of the source fails in any run: swapIn, reset, the counter, the destructors. And every
   switch saves the context that was running and resumes one that is saved and not past its end.
   */
  lemma AssertionsHold(s: State, ev: Event)
    requires Reachable(s) && Enabled(s, ev)
    ensures Asserts(s, ev)
  {
    ReachableInv(s);
    ReachableContexts(s);
    AssertsAt(s, ev);
  }

  lemma AssertsAt(s: State, ev: Event)
    requires Inv(s) && Contexts(s) && Possible(s, ev)
    ensures Asserts(s, ev)
  {
    match ev
    case SwapIn(i, _) => SwapInHolds(s, i);
    case EndSlice(i, _) => assert ThreadOk(s, i);
    case Decrement(i) => SumPositive(s.ws, i, Counted);
    case Settle(i) => assert ThreadOk(s, i);
    case IdleTest(i) => assert WorkerOk(s, i) && ThreadOk(s, i);
    case IdleCheck(i) => assert ThreadOk(s, i);
    case Leave(i) => assert WorkerOk(s, i) && ThreadOk(s, i);
    case Destroy(c) => DestroyHolds(s, c);
    case StopRoot => assert ThreadOk(s, 0);
    case _ =>
  }

  lemma SwapInHolds(s: State, i: nat)
    requires Inv(s) && Contexts(s) && i < |s.ws| && s.ws[i].pc.Took?
    ensures AtLoop(s.ws[i].stack) && SwapInAsserts(s, s.ws[i])
  {
    assert WorkerOk(s, i) && ThreadOk(s, i);
    if s.ws[i].pc.e.work.Co? {
      assert CtxOk(s, s.ws[i].pc.e.work.c);
    }
  }

  lemma DestroyHolds(s: State, c: Cid)
    requires Inv(s) && Contexts(s) && c in s.co && Refs(s, c) == 0
    ensures s.co[c].state.INIT? || Finished(s.co[c].state)
  {
    assert CtxOk(s, c);
  }

  // ---------- The counter and `stopping` ----------

  lemma CounterAccurate(s: State)
    requires Reachable(s)
    ensures s.active == Sum(s.ws, Counted)
    ensures forall i :: 0 <= i < |s.ws| && Counted(s.ws[i]) == 1 ==> s.active > 0
  {
    ReachableInv(s);
    forall i | 0 <= i < |s.ws| && Counted(s.ws[i]) == 1 ensures s.active > 0 { SumPositive(s.ws, i, Counted); }
  }

  /** Started and neither finished nor parked. */
  predicate Outstanding(s: State, c: Cid) {
    c in s.co && (s.co[c].state.READY? || s.co[c].state.EXEC?)
  }

  /** Worker `i` is between decrement and re-queue, and the branch it will take is not that for the finished. */
  predicate Window(s: State, i: nat, c: Cid) {
    i < |s.ws| && s.ws[i].pc.Settling? && s.ws[i].pc.job.c == c && c in s.co
    && (s.co[c].state.READY? || s.co[c].state.EXEC?)
  }

  /**
   `stopping()` can be true while work is outstanding; it then is in the window of exactly one worker. So
   `stopping()` means that nothing is outstanding exactly if no worker is in that window.
   */
  lemma StoppingMeansWindow(s: State)
    requires Reachable(s) && Stopping(s)
    ensures forall c :: Outstanding(s, c) ==> exists i: nat :: Window(s, i, c)
    ensures forall c, i: nat, j: nat :: Window(s, i, c) && Window(s, j, c) ==> i == j
    ensures (forall c :: !Outstanding(s, c)) <==> (forall i: nat, c :: !Window(s, i, c))
  {
    ReachableInv(s);
    forall c | Outstanding(s, c) ensures exists i: nat :: Window(s, i, c) {
      assert CoroutineOk(s, c);
      var tk := s.co[c].loc.ticket;
      assert PushOk(s, tk);
      assert s.log[tk].place.Hand?;
      SumPositive(s.ws, s.log[tk].place.i, Counted);
      assert Window(s, s.log[tk].place.i, c);
    }
    forall c, i: nat, j: nat | Window(s, i, c) && Window(s, j, c) ensures i == j {
      assert WorkerOk(s, i) && WorkerOk(s, j);
    }
    forall i: nat, c | Window(s, i, c) ensures Outstanding(s, c) {}
  }

  // ---------- Conservation and exactly-once ----------

  ghost predicate InQueue(s: State, tk: nat) {
    exists k :: 0 <= k < |s.queue| && s.queue[k].ticket == tk
  }

  ghost predicate InHand(s: State, tk: nat) {
    exists i :: 0 <= i < |s.ws| && TicketOf(s.ws[i].pc) == Some(tk)
  }

  /** Every push, re-queues included, is in exactly one of: the list, one worker's hand, the past. */
  lemma EveryPushIsSomewhere(s: State, tk: nat)
    requires Reachable(s) && tk < |s.log|
    ensures s.log[tk].place.Queued? <==> InQueue(s, tk)
    ensures s.log[tk].place.Hand? <==> InHand(s, tk)
    ensures forall j, k :: 0 <= j < k < |s.queue| ==> !(s.queue[j].ticket == tk && s.queue[k].ticket == tk)
    ensures forall i, j :: 0 <= i < j < |s.ws| ==>
                             !(TicketOf(s.ws[i].pc) == Some(tk) && TicketOf(s.ws[j].pc) == Some(tk))
  {
    ReachableInv(s);
    assert PushOk(s, tk);
    if s.log[tk].place.Queued? {
      var k :| 0 <= k < |s.queue| && s.queue[k] == Entry(s.log[tk].work, s.log[tk].thread, tk);
      assert s.queue[k].ticket == tk;
    }
    forall i | 0 <= i < |s.ws| && TicketOf(s.ws[i].pc) == Some(tk) ensures s.log[tk].place == Hand(i) {
      assert WorkerOk(s, i);
    }
    forall k | 0 <= k < |s.queue| && s.queue[k].ticket == tk ensures s.log[tk].place.Queued? {
      assert QueuedOk(s, k);
    }
  }

  ghost predicate IsPush(s: State, e: Entry) {
    e.ticket < |s.log| && s.log[e.ticket].work == e.work && s.log[e.ticket].thread == e.thread
  }

  /** The list and the hands contain nothing but pushes, unaltered. */
  lemma NothingInvented(s: State)
    requires Reachable(s)
    ensures forall k :: 0 <= k < |s.queue| ==> IsPush(s, s.queue[k])
    ensures forall i :: 0 <= i < |s.ws| && s.ws[i].pc.Took? ==> IsPush(s, s.ws[i].pc.e)
  {
    ReachableInv(s);
    forall k | 0 <= k < |s.queue| ensures IsPush(s, s.queue[k]) { assert QueuedOk(s, k); }
    forall i | 0 <= i < |s.ws| && s.ws[i].pc.Took? ensures IsPush(s, s.ws[i].pc.e) { assert WorkerOk(s, i); }
  }

  /** A push is swapped in at most once, and exactly once when it is done with. */
  lemma AtMostOneSlice(s: State, tk: nat)
    requires Reachable(s) && tk < |s.log|
    ensures s.log[tk].slices <= 1
    ensures s.log[tk].place.Retired? ==> s.log[tk].slices == 1
    ensures s.log[tk].place.Queued? ==> s.log[tk].slices == 0
  {
    ReachableInv(s);
    assert PushOk(s, tk);
    if s.log[tk].place.Hand? { assert WorkerOk(s, s.log[tk].place.i); }
  }

  /** One push before and after: same content, no run undone, and what left the list stays out of it. */
  predicate Grew(p: Push, q: Push) {
    && q.work == p.work && q.thread == p.thread && q.slices >= p.slices
    && (!p.place.Queued? ==> !q.place.Queued?)
    && (p.place.Retired? ==> q.place.Retired?)
  }

  lemma {:induction false} HistoryOnlyGrows(s: State, evs: seq<Event>, tk: nat)
    requires Inv(s) && IsRun(s, evs) && tk < |s.log|
    ensures GrewAt(s, Final(s, evs), tk)
    decreases |evs|
  {
    if evs != [] {
      HistoryStep(s, evs[0], tk);
      Keeps(s, evs[0]);
      HistoryOnlyGrows(Apply(s, evs[0]), evs[1..], tk);
    }
  }

  lemma HistoryStep(s: State, ev: Event, tk: nat)
    requires Inv(s) && Enabled(s, ev) && tk < |s.log|
    ensures GrewAt(s, Apply(s, ev), tk)
  {
    match ev
    case Scan(i) => ScanGrows(s, i, tk);
    case SwapIn(i, spare) => SwapInGrows(s, i, spare, tk);
    case Settle(i) => SettleGrows(s, i, tk);
    case Decrement(i) => DecrementGrows(s, i, tk);
    case _ => LogKept(s, ev);
  }

  lemma SwapInGrows(s: State, i: nat, spare: Cid, tk: nat)
    requires i < |s.ws| && s.ws[i].pc.Took? && tk < |s.log|
    ensures GrewAt(s, SwappedIn(s, i, spare), tk)
  {
  }

  lemma LogKept(s: State, ev: Event)
    requires Possible(s, ev) && !ev.Scan? && !ev.SwapIn? && !ev.Settle? && !ev.Decrement?
    ensures s.log <= Apply(s, ev).log
  {
  }

  predicate GrewAt(s: State, t: State, tk: nat)
    requires tk < |s.log|
  {
    tk < |t.log| && Grew(s.log[tk], t.log[tk])
  }

  lemma ScanGrows(s: State, i: nat, tk: nat)
    requires Inv(s) && i < |s.ws| && s.ws[i].pc.Top? && tk < |s.log|
    ensures GrewAt(s, Scanned(s, i), tk)
  {
    var k := FirstEligible(s.queue, s.ws[i].tid, s.co);
    assert k < |s.queue| ==> QueuedOk(s, k);
  }

  lemma DecrementGrows(s: State, i: nat, tk: nat)
    requires Inv(s) && i < |s.ws| && (s.ws[i].pc.Swapped? || s.ws[i].pc.Discarding?) && tk < |s.log|
    ensures GrewAt(s, Decremented(s, i), tk)
  {
    assert WorkerOk(s, i);
  }

  lemma SettleGrows(s: State, i: nat, tk: nat)
    requires Inv(s) && i < |s.ws| && s.ws[i].pc.Settling? && s.ws[i].pc.job.c in s.co && tk < |s.log|
    ensures GrewAt(s, Settled(s, i), tk)
  {
    assert WorkerOk(s, i);
  }

  // ---------- Bounded bypass ----------

  predicate Matches(s: State, ev: Event, thread: int) {
    ev.Scan? && ev.i < |s.ws| && (thread == ANY_THREAD || thread == s.ws[ev.i].tid)
  }

  /** The worker passes the entry over: it is pinned to another thread, or its coroutine is executing. */
  predicate PassedOver(s: State, i: nat, e: Entry)
    requires i < |s.ws|
  {
    || (e.thread != -1 && e.thread != s.ws[i].tid)
    || (e.work.Co? && e.work.c in s.co && s.co[e.work.c].state == EXEC)
  }

  /**
   In any state a scan takes the first entry it need not pass over, and only that, and counts it; it finds
   no work exactly if every entry is passed over, and then leaves everything as it is.
   */
  lemma ScanTakesFirst(s: State, i: nat)
    requires i < |s.ws| && s.ws[i].pc.Top?
    ensures var t := Scanned(s, i);
            if forall k :: 0 <= k < |s.queue| ==> PassedOver(s, i, s.queue[k]) then
              t.ws[i].pc.NoWork? && t.queue == s.queue && t.active == s.active && t.log == s.log && t.co == s.co
            else
              exists k :: 0 <= k < |s.queue| && !PassedOver(s, i, s.queue[k])
                          && (forall j :: 0 <= j < k ==> PassedOver(s, i, s.queue[j]))
                          && t.ws[i].pc == Took(s.queue[k]) && t.queue == s.queue[..k] + s.queue[k + 1..]
                          && t.active == s.active + 1 && t.co == s.co
  {
    var k := FirstEligible(s.queue, s.ws[i].tid, s.co);
    if k < |s.queue| {
      assert !PassedOver(s, i, s.queue[k]);
    }
  }

  /** How many scans of the run were made by workers that may take an entry with this pin. */
  function ScansFor(s: State, evs: seq<Event>, thread: int): nat
    requires IsRun(s, evs)
    decreases |evs|
  {
    if evs == [] then 0
    else (if Matches(s, evs[0], thread) then 1 else 0) + ScansFor(Apply(s, evs[0]), evs[1..], thread)
  }

  /** An entry at index k is overtaken by at most k scans: the next eligible scan takes it. */
  lemma {:induction false} BoundedBypass(s: State, evs: seq<Event>, k: nat)
    requires Inv(s) && IsRun(s, evs) && k < |s.queue|
    requires var tk := s.queue[k].ticket; tk < |Final(s, evs).log| && Final(s, evs).log[tk].place.Queued?
    ensures ScansFor(s, evs, s.queue[k].thread) <= k
    decreases |evs|
  {
    if evs != [] {
      var tk := s.queue[k].ticket;
      var t := Apply(s, evs[0]);
      assert QueuedOk(s, k);
      Keeps(s, evs[0]);
      HistoryStep(s, evs[0], tk);
      HistoryOnlyGrows(t, evs[1..], tk);
      var k' := Advance(s, evs[0], k);
      BoundedBypass(t, evs[1..], k');
    }
  }

  lemma Advance(s: State, ev: Event, k: nat) returns (k': nat)
    requires Inv(s) && Enabled(s, ev) && k < |s.queue|
    requires s.queue[k].ticket < |Apply(s, ev).log| && Apply(s, ev).log[s.queue[k].ticket].place.Queued?
    ensures k' < |Apply(s, ev).queue| && Apply(s, ev).queue[k'] == s.queue[k]
    ensures if Matches(s, ev, s.queue[k].thread) then k' < k else k' <= k
  {
    if ev.Scan? {
      k' := Overtaken(s, ev.i, k);
    } else {
      QueueGrows(s, ev);
      k' := k;
    }
  }

  /** Pushes only append, and nothing but a scan takes an entry out. */
  lemma QueueGrows(s: State, ev: Event)
    requires Possible(s, ev) && !ev.Scan?
    ensures s.queue <= Apply(s, ev).queue
  {
    match ev
    case SwapIn(i, spare) => assert SwappedIn(s, i, spare).queue == s.queue;
    case Settle(i) => assert s.queue <= Settled(s, i).queue;
    case Decrement(i) => assert Decremented(s, i).queue == s.queue;
    case _ =>
  }

  lemma Overtaken(s: State, i: nat, k: nat) returns (k': nat)
    requires Inv(s) && i < |s.ws| && s.ws[i].pc.Top? && k < |s.queue|
    requires s.queue[k].ticket < |s.log| && Scanned(s, i).log[s.queue[k].ticket].place.Queued?
    ensures k' < |Scanned(s, i).queue| && Scanned(s, i).queue[k'] == s.queue[k]
    ensures if s.queue[k].thread == ANY_THREAD || s.queue[k].thread == s.ws[i].tid then k' < k else k' <= k
  {
    var j := FirstEligible(s.queue, s.ws[i].tid, s.co);
    assert QueuedOk(s, k);
    k' := if j < k then k - 1 else k;
  }

  // ---------- Shutdown ----------

  /** Both flags set, list empty, counter zero, and nothing about to be re-queued. */
  predicate Quiet(s: State) {
    && Stopping(s)
    && !s.control.Open? && !s.control.AutoSet?
    && forall i :: 0 <= i < |s.ws| && s.ws[i].pc.Settling? ==>
                     s.ws[i].pc.job.c in s.co && !s.co[s.ws[i].pc.job.c].state.READY?
  }

  /** How many events a worker still needs to return from `run`. */
  function Rank(w: Worker): nat {
    var more := if w.idle.TERM? then 0 else 3;
    match w.pc
    case Settling(_) => 4 + more
    case Entering => 4 + more
    case Top => 3 + more
    case NoWork => 2 + more
    case InIdle => 4
    case Leaving => 1
    case _ => 0
  }

  predicate OfWorker(ev: Event) {
    || ev.Enter? || ev.Scan? || ev.SwapIn? || ev.EndSlice? || ev.Decrement? || ev.Settle?
    || ev.IdleTest? || ev.IdleCheck? || ev.Leave?
    || ev.TaskPush? || ev.TaskGrab?
  }

  lemma QuietWorkers(s: State)
    requires Inv(s) && Quiet(s)
    ensures forall i :: 0 <= i < |s.ws| ==> Counted(s.ws[i]) == 0
  {
    forall i | 0 <= i < |s.ws| ensures Counted(s.ws[i]) == 0 { SumPositive(s.ws, i, Counted); }
  }

  /** Quiet is stable, and every event of a worker brings the end closer by exactly one. */
  lemma QuietStep(s: State, ev: Event)
    requires Inv(s) && Quiet(s) && Enabled(s, ev)
    ensures Quiet(Apply(s, ev))
    ensures Sum(Apply(s, ev).ws, Rank) + (if OfWorker(ev) then 1 else 0) == Sum(s.ws, Rank)
  {
    QuietWorkers(s);
    match ev
    case Settle(i) => QuietSettle(s, i); QuietSettleRank(s, i);
    case Enter(i) => QuietEnter(s, i);
    case Scan(i) => QuietScan(s, i);
    case IdleTest(i) => QuietIdleTest(s, i);
    case IdleCheck(i) => QuietIdleCheck(s, i);
    case Leave(i) => QuietLeave(s, i);
    case _ => QuietOther(s, ev);
  }

  lemma QuietSettle(s: State, i: nat)
    requires Inv(s) && Quiet(s) && i < |s.ws| && s.ws[i].pc.Settling? && s.ws[i].pc.job.c in s.co
    ensures Quiet(Settled(s, i))
  {
    var t := Rested(s, i);
    forall j | 0 <= j < |t.ws| && t.ws[j].pc.Settling?
      ensures t.ws[j].pc.job.c in t.co && !t.co[t.ws[j].pc.job.c].state.READY?
    {
      DifferentJobs(s, i, j);
    }
  }

  lemma QuietSettleRank(s: State, i: nat)
    requires Quiet(s) && i < |s.ws| && s.ws[i].pc.Settling? && s.ws[i].pc.job.c in s.co
    ensures Sum(Settled(s, i).ws, Rank) + 1 == Sum(s.ws, Rank)
  {
    SumUpdate(s.ws, i, Rested(s, i).ws[i], Rank);
  }

  lemma DifferentJobs(s: State, i: nat, j: nat)
    requires Inv(s) && i < |s.ws| && j < |s.ws| && i != j && s.ws[i].pc.Settling? && s.ws[j].pc.Settling?
    ensures s.ws[i].pc.job.c != s.ws[j].pc.job.c
  {
    assert WorkerOk(s, i) && WorkerOk(s, j);
  }

  lemma QuietEnter(s: State, i: nat)
    requires Quiet(s) && i < |s.ws| && s.ws[i].pc.Entering?
    ensures Quiet(Entered(s, i)) && Sum(Entered(s, i).ws, Rank) + 1 == Sum(s.ws, Rank)
  {
    QuietMove(s, Entered(s, i), i);
  }

  lemma QuietScan(s: State, i: nat)
    requires Quiet(s) && i < |s.ws| && s.ws[i].pc.Top?
    ensures Quiet(Scanned(s, i)) && Sum(Scanned(s, i).ws, Rank) + 1 == Sum(s.ws, Rank)
  {
    QuietMove(s, SetPc(s, i, NoWork), i);
  }

  lemma QuietIdleTest(s: State, i: nat)
    requires Quiet(s) && i < |s.ws| && s.ws[i].pc.NoWork?
    ensures Quiet(IdleTested(s, i)) && Sum(IdleTested(s, i).ws, Rank) + 1 == Sum(s.ws, Rank)
  {
    QuietMove(s, IdleTested(s, i), i);
  }

  lemma QuietIdleCheck(s: State, i: nat)
    requires Quiet(s) && i < |s.ws| && s.ws[i].pc.InIdle?
    ensures Quiet(IdleChecked(s, i)) && Sum(IdleChecked(s, i).ws, Rank) + 1 == Sum(s.ws, Rank)
  {
    QuietMove(s, IdleChecked(s, i), i);
  }

  lemma QuietLeave(s: State, i: nat)
    requires Quiet(s) && i < |s.ws| && s.ws[i].pc.Leaving?
    ensures Quiet(Left(s, i)) && Sum(Left(s, i).ws, Rank) + 1 == Sum(s.ws, Rank)
  {
    QuietMove(s, Left(s, i), i);
  }

  /** A worker moves on, and no coroutine changes its state. */
  lemma QuietMove(s: State, t: State, i: nat)
    requires Quiet(s) && i < |s.ws| && |t.ws| == |s.ws| && t == s.(ws := s.ws[i := t.ws[i]], co := t.co)
    requires !t.ws[i].pc.Settling? && Rank(t.ws[i]) + 1 == Rank(s.ws[i])
    requires forall c :: c in s.co ==> c in t.co && t.co[c].state == s.co[c].state
    ensures Quiet(t) && Sum(t.ws, Rank) + 1 == Sum(s.ws, Rank)
  {
    SumUpdate(s.ws, i, t.ws[i], Rank);
  }

  lemma QuietOther(s: State, ev: Event)
    requires Inv(s) && Quiet(s) && Enabled(s, ev)
    requires forall i :: 0 <= i < |s.ws| ==> Counted(s.ws[i]) == 0
    requires !ev.Settle? && !ev.Enter? && !ev.Scan? && !ev.IdleTest? && !ev.IdleCheck? && !ev.Leave?
    ensures Quiet(Apply(s, ev)) && Apply(s, ev).ws == s.ws && !OfWorker(ev)
  {
    if ev.Destroy? {
      NoRefs(s, ev.c);
      forall j | 0 <= j < |s.ws| && s.ws[j].pc.Settling? ensures s.ws[j].pc.job.c != ev.c { assert WorkerOk(s, j); }
    }
  }

  function WorkerEvents(evs: seq<Event>): nat {
    if evs == [] then 0 else (if OfWorker(evs[0]) then 1 else 0) + WorkerEvents(evs[1..])
  }

  /** From a quiet state the workers can take exactly as many events as their ranks add up to. */
  lemma {:induction false} ShutdownTerminates(s: State, evs: seq<Event>)
    requires Inv(s) && Quiet(s) && IsRun(s, evs)
    ensures Quiet(Final(s, evs))
    ensures WorkerEvents(evs) + Sum(Final(s, evs).ws, Rank) == Sum(s.ws, Rank)
    ensures WorkerEvents(evs) <= 7 * |s.ws|
    decreases |evs|
  {
    RankBounded(s.ws);
    if evs != [] {
      QuietStep(s, evs[0]);
      Keeps(s, evs[0]);
      ShutdownTerminates(Apply(s, evs[0]), evs[1..]);
    }
  }

  lemma {:induction false} RankBounded(ws: seq<Worker>)
    ensures Sum(ws, Rank) <= 7 * |ws|
  {
    if ws != [] { RankBounded(ws[1..]); }
  }

  /** The next event of a worker that is neither running a task nor gone. */
  function NextEvent(s: State, i: nat): Event
    requires i < |s.ws|
  {
    match s.ws[i].pc
    case Entering => Enter(i)
    case Settling(_) => Settle(i)
    case NoWork => IdleTest(i)
    case InIdle => IdleCheck(i)
    case Leaving => Leave(i)
    case _ => Scan(i)
  }

  /** No worker waits for another: until all have left one can move, and then the joins return. */
  lemma ShutdownProgress(s: State)
    requires Inv(s) && Quiet(s)
    ensures forall i :: 0 <= i < |s.ws| && !HasLeft(s.ws[i]) ==> Enabled(s, NextEvent(s, i))
    ensures (forall i :: 0 <= i < |s.ws| ==> HasLeft(s.ws[i])) <==> Sum(s.ws, Rank) == 0
    ensures Sum(s.ws, Rank) == 0 ==> s.control.Stopped? || Enabled(s, StopRoot) || Enabled(s, Join)
  {
    QuietWorkers(s);
    forall i | 0 <= i < |s.ws| && !HasLeft(s.ws[i])
      ensures Enabled(s, NextEvent(s, i)) && Rank(s.ws[i]) > 0
    {
      assert WorkerOk(s, i);
    }
    if forall i :: 0 <= i < |s.ws| ==> HasLeft(s.ws[i]) {
      SumZero(s.ws, Rank);
    } else {
      var i :| 0 <= i < |s.ws| && !HasLeft(s.ws[i]);
      SumPositive(s.ws, i, Rank);
    }
  }
}
