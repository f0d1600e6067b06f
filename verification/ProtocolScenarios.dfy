/** Single runs that show why an assumption or a restriction in a promise is there. */
module ProtocolScenarios {
  import opened SchedulerProtocol
  import opened ProtocolInvariant
  import opened ProtocolTheorems
  import opened ProtocolService

  // ---------- Runs in which clients may break the discipline ----------

  /** A run the code permits, whatever the clients do. */
  predicate PossibleRun(s: State, evs: seq<Event>)
    decreases |evs|
  {
    evs == [] || (Possible(s, evs[0]) && PossibleRun(Apply(s, evs[0]), evs[1..]))
  }

  function PossibleEnd(s: State, evs: seq<Event>): State
    requires PossibleRun(s, evs)
    decreases |evs|
  {
    if evs == [] then s else PossibleEnd(Apply(s, evs[0]), evs[1..])
  }

  /** How many of its events a well-behaved client would not have caused. */
  function Breaches(s: State, evs: seq<Event>): nat
    requires PossibleRun(s, evs)
    decreases |evs|
  {
    if evs == [] then 0
    else (if Disciplined(s, evs[0]) then 0 else 1) + Breaches(Apply(s, evs[0]), evs[1..])
  }

  /** Some run from a start gets to `s` with exactly `n` breaches. */
  ghost predicate CanHappen(s: State, n: nat) {
    exists s0, evs :: Init(s0) && PossibleRun(s0, evs) && PossibleEnd(s0, evs) == s && Breaches(s0, evs) == n
  }

  lemma {:induction false} PossibleSnoc(s: State, evs: seq<Event>, ev: Event)
    requires PossibleRun(s, evs) && Possible(PossibleEnd(s, evs), ev)
    ensures PossibleRun(s, evs + [ev]) && PossibleEnd(s, evs + [ev]) == Apply(PossibleEnd(s, evs), ev)
    ensures Breaches(s, evs + [ev]) == Breaches(s, evs) + if Disciplined(PossibleEnd(s, evs), ev) then 0 else 1
    decreases |evs|
  {
    if evs == [] {
      assert evs + [ev] == [ev] && [ev][1..] == [];
      assert PossibleEnd(Apply(s, ev), []) == Apply(s, ev) && Breaches(Apply(s, ev), []) == 0;
    } else {
      assert (evs + [ev])[1..] == evs[1..] + [ev];
      PossibleSnoc(Apply(s, evs[0]), evs[1..], ev);
    }
  }

  lemma Happens(s: State, ev: Event, n: nat)
    requires CanHappen(s, n) && Possible(s, ev)
    ensures CanHappen(Apply(s, ev), n + if Disciplined(s, ev) then 0 else 1)
  {
    var s0, evs :| Init(s0) && PossibleRun(s0, evs) && PossibleEnd(s0, evs) == s && Breaches(s0, evs) == n;
    PossibleSnoc(s0, evs, ev);
  }

  /** Without a breach it is a run of the system the promises are about. */
  lemma {:induction false} NoBreachIsRun(s: State, evs: seq<Event>)
    requires PossibleRun(s, evs) && Breaches(s, evs) == 0
    ensures IsRun(s, evs) && Final(s, evs) == PossibleEnd(s, evs)
    decreases |evs|
  {
    if evs != [] { NoBreachIsRun(Apply(s, evs[0]), evs[1..]); }
  }

  lemma HappensReachable(s: State)
    requires CanHappen(s, 0)
    ensures Reachable(s)
  {
    var s0, evs :| Init(s0) && PossibleRun(s0, evs) && PossibleEnd(s0, evs) == s && Breaches(s0, evs) == 0;
    NoBreachIsRun(s0, evs);
  }

  // ---------- What a worker does in one go ----------

  /** Worker `i` keeps its thread and its locals but for `pc` and `idle`; nobody else and no flag changes. */
  predicate OnlyWorker(s: State, t: State, i: nat) {
    && |t.ws| == |s.ws| && (forall j :: 0 <= j < |s.ws| && j != i ==> t.ws[j] == s.ws[j])
    && (i < |s.ws| ==> t.ws[i].tid == s.ws[i].tid && t.ws[i].slot == s.ws[i].slot)
    && t.autoStop == s.autoStop && t.stopping == s.stopping && t.hasRoot == s.hasRoot && t.control == s.control
  }

  predicate HasJob(w: Worker, pc: Pc, c: Cid) {
    w.pc == pc && JobOf(pc).Some? && JobOf(pc).value.c == c && !JobOf(pc).value.viaCb
  }

  /** Scan and swap in the first entry. */
  lemma Begin(s: State, n: nat, i: nat, c: Cid, spare: Cid) returns (t: State)
    requires CanHappen(s, n) && i < |s.ws| && s.ws[i].pc.Top? && spare !in s.co
    requires s.queue != [] && s.queue[0].work == Co(c) && MayRunOn(s.queue[0].thread, s.ws[i].tid)
    requires c in s.co && !s.co[c].state.EXEC? && !Finished(s.co[c].state)
    ensures CanHappen(t, n) && OnlyWorker(s, t, i) && t.ws[i].idle == s.ws[i].idle
    ensures t.ws[i].pc.Running? && HasJob(t.ws[i], t.ws[i].pc, c)
    ensures t.queue == s.queue[1..] && t.active == s.active + 1
    ensures t.co == s.co[c := s.co[c].(state := EXEC, ctx := Live)]
  {
    var u := Scanned(s, i);
    Happens(s, Scan(i), n);
    assert FirstEligible(s.queue, s.ws[i].tid, s.co) == 0;
    assert u.ws[i].pc == Took(s.queue[0]) && u.co == s.co;
    Happens(u, SwapIn(i, spare), n);
    t := SwappedIn(u, i, spare);
  }

  /** The task swaps out in state `out`, and the counter is decremented. */
  lemma Finish(s: State, n: nat, i: nat, c: Cid, out: CState) returns (t: State)
    requires CanHappen(s, n) && i < |s.ws| && s.ws[i].pc.Running? && HasJob(s.ws[i], s.ws[i].pc, c)
    requires c in s.co && !out.INIT?
    ensures CanHappen(t, n) && OnlyWorker(s, t, i) && t.ws[i].idle == s.ws[i].idle
    ensures t.ws[i].pc.Settling? && HasJob(t.ws[i], t.ws[i].pc, c)
    ensures t.queue == s.queue && t.active == s.active - 1
    ensures t.co == s.co[c := s.co[c].(state := out, ctx := AfterSlice(out))]
  {
    var u := SwappedOut(s, i, out);
    Happens(s, EndSlice(i, out), n);
    Happens(u, Decrement(i), n);
    t := Decremented(u, i);
  }

  /** A yielded coroutine is queued again, a finished one dropped. */
  lemma Settles(s: State, n: nat, i: nat, c: Cid) returns (t: State)
    requires CanHappen(s, n) && i < |s.ws| && s.ws[i].pc.Settling? && HasJob(s.ws[i], s.ws[i].pc, c)
    requires c in s.co && (s.co[c].state.READY? || Finished(s.co[c].state))
    ensures CanHappen(t, n) && OnlyWorker(s, t, i) && t.ws[i].idle == s.ws[i].idle && t.ws[i].pc.Top?
    ensures t.queue == s.queue + if s.co[c].state.READY? then [Entry(Co(c), ANY_THREAD, |s.log|)] else []
    ensures t.active == s.active && c in t.co && t.co == s.co[c := s.co[c].(loc := t.co[c].loc)]
  {
    Happens(s, Settle(i), n);
    t := Settled(s, i);
  }

  /** One look at `stopping()` from the idle coroutine ends it. */
  lemma SeesStop(s: State, n: nat, i: nat) returns (t: State)
    requires CanHappen(s, n) && i < |s.ws| && s.ws[i].pc.Top? && !s.ws[i].idle.TERM? && Stopping(s)
    ensures CanHappen(t, n) && OnlyWorker(s, t, i) && t.ws[i].idle.TERM? && t.ws[i].pc.Top?
    ensures t.queue == s.queue && t.active == s.active && t.co == s.co
  {
    Happens(s, Scan(i), n);
    var u := SetPc(s, i, NoWork);
    assert u == Scanned(s, i);
    Happens(u, IdleTest(i), n);
    var v := IdleTested(u, i);
    Happens(v, IdleCheck(i), n);
    t := IdleChecked(v, i);
  }

  /** A worker whose idle coroutine has ended finds nothing for it and leaves. */
  lemma GoesHome(s: State, n: nat, i: nat) returns (t: State)
    requires CanHappen(s, n) && i < |s.ws| && s.ws[i].pc.Top? && s.ws[i].idle.TERM? && s.ws[i].slot.None?
    requires FirstEligible(s.queue, s.ws[i].tid, s.co) == |s.queue|
    ensures CanHappen(t, n) && OnlyWorker(s, t, i) && t.ws[i].pc.Exited?
    ensures t.queue == s.queue && t.active == s.active && t.co == s.co
  {
    Happens(s, Scan(i), n);
    t := GoesHomeFrom(SetPc(s, i, NoWork), n, i);
  }

  lemma GoesHomeFrom(s: State, n: nat, i: nat) returns (t: State)
    requires CanHappen(s, n) && i < |s.ws| && s.ws[i].pc.NoWork? && s.ws[i].idle.TERM? && s.ws[i].slot.None?
    ensures CanHappen(t, n) && OnlyWorker(s, t, i) && t.ws[i].pc.Exited?
    ensures t.queue == s.queue && t.active == s.active && t.co == s.co
  {
    Happens(s, IdleTest(i), n);
    var u := IdleTested(s, i);
    Happens(u, Leave(i), n);
    t := Left(u, i);
  }

  /** It does so too when it takes a finished coroutine, whatever else is in the list. */
  lemma TakesDead(s: State, n: nat, i: nat, c: Cid, spare: Cid) returns (t: State)
    requires CanHappen(s, n) && i < |s.ws| && s.ws[i].pc.Top? && s.ws[i].idle.TERM? && s.ws[i].slot.None?
    requires s.queue != [] && s.queue[0].work == Co(c) && s.queue[0].thread == ANY_THREAD
    requires c in s.co && Finished(s.co[c].state) && spare !in s.co
    ensures CanHappen(t, n) && OnlyWorker(s, t, i) && t.ws[i].pc.Exited? && t.queue == s.queue[1..]
  {
    var u := Scanned(s, i);
    Happens(s, Scan(i), n);
    assert FirstEligible(s.queue, s.ws[i].tid, s.co) == 0;
    assert u.ws[i].pc == Took(s.queue[0]) && u.co == s.co;
    Happens(u, SwapIn(i, spare), n);
    var v := SwappedIn(u, i, spare);
    Happens(v, Decrement(i), n);
    t := GoesHomeFrom(Decremented(v, i), n, i);
  }

  /**
   What that does to the other entries: they are still awaited exactly as far as another worker will scan
   for them, so a finished coroutine in the list harms those that only this worker would have taken.
   */
  lemma DeadEntryHarms(s: State, n: nat, i: nat, c: Cid, spare: Cid) returns (t: State)
    requires CanHappen(s, n) && i < |s.ws| && s.ws[i].pc.Top? && s.ws[i].idle.TERM? && s.ws[i].slot.None?
    requires s.queue != [] && s.queue[0].work == Co(c) && s.queue[0].thread == ANY_THREAD
    requires c in s.co && Finished(s.co[c].state) && spare !in s.co
    ensures CanHappen(t, n) && t.queue == s.queue[1..]
    ensures forall thread :: Awaited(t, thread) <==> AwaitedFrom(s, thread, i)
  {
    t := TakesDead(s, n, i, c, spare);
    forall thread ensures Awaited(t, thread) <==> AwaitedFrom(s, thread, i) {
      forall j | 0 <= j < |s.ws| && j != i ensures WillScan(t, j) <==> WillScan(s, j) { assert t.ws[j] == s.ws[j]; }
    }
  }

  /** Some worker other than `i` that may take such an entry will scan again. */
  ghost predicate AwaitedFrom(s: State, thread: int, i: nat) {
    exists j :: 0 <= j < |s.ws| && j != i && MayRunOn(thread, s.ws[j].tid) && WillScan(s, j)
  }

  /** A running task pushes; `n` grows if it may not. */
  lemma Pushes(s: State, n: nat, i: nat, work: Work, thread: int) returns (t: State)
    requires CanHappen(s, n) && i < |s.ws| && s.ws[i].pc.Running? && HasPointer(s, work)
    ensures CanHappen(t, n + if MayPush(s, work) then 0 else 1) && t.ws == s.ws && OnlyWorker(s, t, |s.ws|)
    ensures t.queue == s.queue + [Entry(work, thread, |s.log|)] && t.active == s.active
    ensures t.co == MoveTo(s.co, work, Out(|s.log|))
  {
    Happens(s, TaskPush(i, work, thread), n);
    t := Pushed(s, work, thread);
  }

  // ---------- Two workers ----------

  /** Two workers on threads 1 and 2, not leaving, with no callback coroutine. */
  predicate Pair(s: State) {
    && |s.ws| == 2 && s.ws[0].tid == 1 && s.ws[1].tid == 2 && !s.hasRoot
    && s.ws[0].slot.None? && s.ws[1].slot.None?
  }

  lemma StartPair() returns (s: State)
    ensures CanHappen(s, 0) && Pair(s) && s.control.Open? && s.queue == [] && s.active == 0 && s.co == map[]
    ensures s.ws[0].pc.Top? && s.ws[1].pc.Top? && s.ws[0].idle.INIT? && s.ws[1].idle.INIT?
  {
    var s0 := State([], 0, false, false, false, [NewWorker(1, false), NewWorker(2, false)], map[], Open, []);
    assert PossibleRun(s0, []) && PossibleEnd(s0, []) == s0 && Breaches(s0, []) == 0;
    Happens(s0, Enter(0), 0);
    var s1 := Entered(s0, 0);
    Happens(s1, Enter(1), 0);
    s := Entered(s1, 1);
  }

  lemma ClientPushes(s: State, work: Work, thread: int) returns (t: State)
    requires CanHappen(s, 0) && s.control.Open? && HasPointer(s, work) && MayPush(s, work)
    ensures CanHappen(t, 0) && t == Pushed(s, work, thread)
  {
    Happens(s, ClientPush(work, thread), 0);
    t := Pushed(s, work, thread);
  }

  /** A client makes a coroutine, keeps a pointer to it and pushes it. */
  lemma ClientAdds(s: State, c: Cid) returns (t: State)
    requires CanHappen(s, 0) && s.control.Open? && c !in s.co
    ensures CanHappen(t, 0) && t.ws == s.ws && OnlyWorker(s, t, |s.ws|) && t.active == s.active
    ensures t.queue == s.queue + [Entry(Co(c), ANY_THREAD, |s.log|)]
    ensures t.co == s.co[c := Coroutine(INIT, Out(|s.log|), AtEntry, 1)]
  {
    Happens(s, ClientNew(c), 0);
    var u := s.(co := s.co[c := Coroutine(INIT, Parked, AtEntry, 1)]);
    t := ClientPushes(u, Co(c), ANY_THREAD);
  }

  lemma FlagsRaised(s: State) returns (t: State)
    requires CanHappen(s, 0) && s.control.Open?
    ensures CanHappen(t, 0) && t == s.(autoStop := true, stopping := true, control := StopSet)
  {
    Happens(s, StopAuto, 0);
    var u := s.(autoStop := true, control := AutoSet);
    Happens(u, StopFlag, 0);
    t := u.(stopping := true, control := StopSet);
  }

  // ---------- Early `stopping()` ----------

  /** The list holds just these coroutines, unpinned. */
  predicate Lists(q: seq<Entry>, cs: seq<Cid>) {
    |q| == |cs| && forall k :: 0 <= k < |q| ==> q[k].work == Co(cs[k]) && q[k].thread == ANY_THREAD
  }

  /** The states of the coroutines 0 and 1; a client has a pointer to coroutine 0. */
  predicate States(s: State, st0: CState, st1: CState) {
    s.co.Keys == {0, 1} && s.co[0].state == st0 && s.co[1].state == st1 && s.co[0].clients == 1
  }

  /** Two coroutines pushed by a client, both flags raised. */
  lemma TwoPushed() returns (t: State)
    ensures CanHappen(t, 0) && Pair(t) && t.control.StopSet? && t.autoStop && t.stopping && t.active == 0
    ensures t.ws[0].pc.Top? && t.ws[0].idle.INIT? && t.ws[1].pc.Top? && t.ws[1].idle.INIT?
    ensures States(t, INIT, INIT) && Lists(t.queue, [0, 1])
  {
    t := StartPair();
    t := ClientAdds(t, 0);
    t := ClientAdds(t, 1);
    t := FlagsRaised(t);
  }

  /** Coroutine 0 has finished. */
  lemma OneFinished() returns (t: State)
    ensures CanHappen(t, 0) && Pair(t) && t.control.StopSet? && t.autoStop && t.stopping && t.active == 0
    ensures t.ws[0].pc.Top? && t.ws[0].idle.INIT? && t.ws[1].pc.Top? && t.ws[1].idle.INIT?
    ensures States(t, TERM, INIT) && Lists(t.queue, [1])
  {
    t := TwoPushed();
    t := Begin(t, 0, 0, 0, 2);
    t := Finish(t, 0, 0, 0, TERM);
    t := Settles(t, 0, 0, 0);
  }

  /** Worker `i` is in the window with coroutine 1, which has yielded, and the other is at the top. */
  predicate InWindow(t: State, i: nat) {
    && i < 2 && Pair(t) && Stopping(t) && t.control.StopSet? && States(t, TERM, READY)
    && t.ws[i].pc.Settling? && HasJob(t.ws[i], t.ws[i].pc, 1) && t.ws[1 - i].pc.Top?
  }

  lemma FirstWindow() returns (t: State)
    ensures CanHappen(t, 0) && InWindow(t, 0) && t.ws[0].idle.INIT? && t.ws[1].idle.INIT?
  {
    t := OneFinished();
    t := Begin(t, 0, 0, 1, 2);
    t := Finish(t, 0, 0, 1, READY);
  }

  /** After the decrement `stopping()` is true although the task has not finished. */
  lemma StoppingTooEarly()
    ensures exists s :: Reachable(s) && Stopping(s) && Outstanding(s, 1)
  {
    var t := FirstWindow();
    HappensReachable(t);
    assert Outstanding(t, 1);
  }

  // ---------- Workers that leave while a task runs ----------

  /** In that window the other worker's idle coroutine ends; then that worker takes coroutine 1 and yields. */
  lemma WindowMoves(s: State, i: nat) returns (t: State)
    requires CanHappen(s, 0) && InWindow(s, i) && !s.ws[1 - i].idle.TERM?
    ensures CanHappen(t, 0) && InWindow(t, 1 - i) && t.ws[1 - i].idle.TERM? && t.ws[i].idle == s.ws[i].idle
  {
    t := SeesStop(s, 0, 1 - i);
    t := Settles(t, 0, i, 1);
    t := Begin(t, 0, 1 - i, 1, 2);
    t := Finish(t, 0, 1 - i, 1, READY);
  }

  /** Each worker saw `stopping()` in the other's window; worker 0 has left and worker 1 runs coroutine 1. */
  lemma LastTask() returns (t: State)
    ensures CanHappen(t, 0) && Pair(t) && t.control.StopSet? && t.queue == [] && t.ws[0].pc.Exited?
    ensures t.ws[1].pc.Running? && HasJob(t.ws[1], t.ws[1].pc, 1) && t.ws[1].idle.TERM?
    ensures States(t, TERM, EXEC)
  {
    t := FirstWindow();
    t := WindowMoves(t, 0);
    t := SeesStop(t, 0, 0);
    t := GoesHome(t, 0, 0);
    t := Settles(t, 0, 1, 1);
    t := Begin(t, 0, 1, 1, 2);
  }

  /** The last task ends and its worker finds nothing for it. */
  lemma LastGoesHome(s: State, e: Entry) returns (t: State)
    requires CanHappen(s, 0) && Pair(s) && s.ws[1].pc.Running? && HasJob(s.ws[1], s.ws[1].pc, 1) && s.ws[1].idle.TERM?
    requires 1 in s.co && s.queue == [e] && e.work.Cb? && !MayRunOn(e.thread, 2)
    ensures CanHappen(t, 0) && OnlyWorker(s, t, 1) && t.ws[1].pc.Exited? && t.queue == [e]
  {
    t := Finish(s, 0, 1, 1, TERM);
    t := Settles(t, 0, 1, 1);
    t := GoesHome(t, 0, 1);
  }

  /** `stop` can return with an entry left: one pinned to a worker that has gone home already. */
  lemma StopLeavesPinned()
    ensures exists s :: Reachable(s) && Enabled(s, Join) && s.queue != []
  {
    var t := LastTask();
    t := Pushes(t, 0, 1, Cb(0), 1);
    t := LastGoesHome(t, t.queue[0]);
    Happens(t, StopRoot, 0);
    var u := t.(control := Joining);
    assert u == RootCalled(t);
    HappensReachable(u);
    assert Enabled(u, Join);
  }

  /** Assumption (d) is needed: one push of a finished coroutine, and an unpinned entry is stranded. */
  lemma DeadPushStrands()
    ensures exists s :: CanHappen(s, 1) && AllLeft(s) && s.queue != [] && s.queue[0].thread == ANY_THREAD
  {
    var t := LastTask();
    t := Pushes(t, 0, 1, Co(0), ANY_THREAD);
    t := Pushes(t, 1, 1, Cb(0), ANY_THREAD);
    t := Finish(t, 1, 1, 1, TERM);
    t := Settles(t, 1, 1, 1);
    t := TakesDead(t, 1, 1, 0, 2);
    assert AllLeft(t);
  }

  /** Assumption (b) is needed: one push from outside after `stop`, and an unpinned entry is stranded. */
  lemma LatePushStrands()
    ensures exists s :: CanHappen(s, 1) && AllLeft(s) && s.queue != [] && s.queue[0].thread == ANY_THREAD
  {
    var t := LastTask();
    t := Finish(t, 0, 1, 1, TERM);
    t := Settles(t, 0, 1, 1);
    t := GoesHome(t, 0, 1);
    var u := PushesLate(t, 0);
    assert AllLeft(u) && u.queue[0].thread == ANY_THREAD;
  }

  lemma PushesLate(s: State, f: nat) returns (t: State)
    requires CanHappen(s, 0) && !s.control.Open? && s.queue == []
    ensures CanHappen(t, 1) && t.ws == s.ws && t.queue == [Entry(Cb(f), ANY_THREAD, |s.log|)]
  {
    Happens(s, ClientPush(Cb(f), ANY_THREAD), 0);
    t := Pushed(s, Cb(f), ANY_THREAD);
  }

  /** An entry pinned to a thread that is no worker is pushed within the rules, and is an orphan at once. */
  lemma OrphanReachable()
    ensures exists s :: Reachable(s) && s.queue != [] && s.ws != [] && Orphan(s, 0) && Blocking(s, 0)
  {
    var t := StartPair();
    var u := ClientPushes(t, Cb(0), 7);
    HappensReachable(u);
    assert u.queue[0].thread == 7 && u.ws == t.ws;
    assert Orphan(u, 0) && Blocking(u, 0);
  }

  // ---------- The token discipline ----------

  predicate RunsWithoutExec(s: State, i: nat) {
    i < |s.ws| && s.ws[i].pc.Running? && s.ws[i].pc.job.c in s.co && !s.co[s.ws[i].pc.job.c].state.EXEC?
  }

  /** Worker `i` settles a coroutine that worker `j` is running already. */
  lemma SettledWhileRunning(s: State, n: nat, i: nat, j: nat, c: Cid)
    requires CanHappen(s, n) && i < |s.ws| && j < |s.ws| && i != j && c in s.co && s.co[c].state.EXEC?
    requires s.ws[i].pc.Settling? && HasJob(s.ws[i], s.ws[i].pc, c)
    requires s.ws[j].pc.Running? && HasJob(s.ws[j], s.ws[j].pc, c)
    ensures exists t :: CanHappen(t, n) && RunsWithoutExec(t, j)
  {
    Happens(s, Settle(i), n);
    assert RunsWithoutExec(Settled(s, i), j);
  }

  /**
   Why a coroutine must not be pushed while a worker still has it: a task that pushed itself and went to
   sleep may be taken by worker `j` before worker `i` has settled it.
   */
  lemma SelfPushOverwritten(s: State, n: nat, i: nat, j: nat, spare: Cid, c: Cid)
    requires CanHappen(s, n) && i < |s.ws| && j < |s.ws| && i != j && spare !in s.co && c in s.co && s.co[c].state.HOLD?
    requires s.ws[i].pc.Settling? && HasJob(s.ws[i], s.ws[i].pc, c) && s.ws[j].pc.Top?
    requires s.queue != [] && s.queue[0].work == Co(c) && s.queue[0].thread == ANY_THREAD
    ensures exists t :: CanHappen(t, n) && RunsWithoutExec(t, j)
  {
    var t := Begin(s, n, j, c, spare);
    SettledWhileRunning(t, n, i, j, c);
  }

  /** Assumption (a) is needed: with one push that breaks it, a worker runs a coroutine not in EXEC. */
  lemma DisciplineNeeded()
    ensures exists s :: CanHappen(s, 1) && RunsWithoutExec(s, 1)
  {
    var t := StartPair();
    t := ClientAdds(t, 0);
    t := Begin(t, 0, 0, 0, 1);
    t := Pushes(t, 0, 0, Co(0), ANY_THREAD);
    t := Finish(t, 1, 0, 0, HOLD);
    SelfPushOverwritten(t, 1, 0, 1, 1, 0);
  }
}
