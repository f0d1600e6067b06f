/**
 The scheduler as it is programmed: one object whose list, counter and flags are updated in place, the
 scan loop, the pushes, and the body of the worker loop with other threads interfering at every gap.
 Every method is tied to an event of the transition system, so all its theorems hold of the code.
 */
module SchedulerObject {
  import opened Common
  import opened SchedulerProtocol
  import opened ProtocolInvariant
  import opened ProtocolService
  import opened ProtocolProgress
  import opened WorkerTraces

  /** The entries a batch adds: null arguments are dropped, the rest keep their order. */
  function BatchEntries(works: seq<Option<Work>>, ticket: nat): seq<Entry>
    decreases |works|
  {
    if works == [] then []
    else if works[0].None? then BatchEntries(works[1..], ticket)
    else [Entry(works[0].value, ANY_THREAD, ticket)] + BatchEntries(works[1..], ticket + 1)
  }

  /** One element of a batch: its pointer moves from the client to the list. */
  function Moved(s: State, work: Option<Work>): State {
    if work.None? then s
    else
      var t := Pushed(s, work.value, ANY_THREAD);
      if work.value.Co? && work.value.c in t.co && t.co[work.value.c].clients > 0 then
        Held(t, work.value.c, t.co[work.value.c].clients - 1)
      else t
  }

  function PushedAll(s: State, works: seq<Option<Work>>): State
    decreases |works|
  {
    if works == [] then s else PushedAll(Moved(s, works[0]), works[1..])
  }

  /** A batch appends its non-null arguments, in order and unpinned, to an otherwise unchanged list. */
  lemma {:induction false} BatchAppends(s: State, works: seq<Option<Work>>)
    ensures PushedAll(s, works).queue == s.queue + BatchEntries(works, |s.log|)
    ensures PushedAll(s, works).ws == s.ws && PushedAll(s, works).active == s.active
    decreases |works|
  {
    if works != [] {
      BatchAppends(Moved(s, works[0]), works[1..]);
    }
  }

  lemma {:induction false} BatchConcat(a: seq<Option<Work>>, b: seq<Option<Work>>, ticket: nat)
    ensures BatchEntries(a + b, ticket) == BatchEntries(a, ticket) + BatchEntries(b, ticket + |BatchEntries(a, ticket)|)
    decreases |a|
  {
    if a == [] {
      assert a + b == b;
    } else {
      assert (a + b)[1..] == a[1..] + b;
      BatchConcat(a[1..], b, if a[0].None? then ticket else ticket + 1);
    }
  }

  /** The `k`-th element comes right behind what the elements before it became, if it is not null. */
  lemma BatchAt(works: seq<Option<Work>>, k: nat, ticket: nat)
    requires k < |works|
    ensures var before := BatchEntries(works[..k], ticket);
            BatchEntries(works[..k + 1], ticket) ==
            before + (match works[k] case None => [] case Some(w) => [Entry(w, -1, ticket + |before|)])
    ensures BatchEntries(works[..k], ticket) <= BatchEntries(works, ticket)
  {
    assert works[..k + 1] == works[..k] + [works[k]] && works == works[..k] + works[k..];
    BatchConcat(works[..k], [works[k]], ticket);
    BatchConcat(works[..k], works[k..], ticket);
    assert [works[k]][1..] == [];
  }

  lemma {:induction false} PushedAllSnoc(s: State, works: seq<Option<Work>>, w: Option<Work>)
    ensures PushedAll(s, works + [w]) == Moved(PushedAll(s, works), w)
    decreases |works|
  {
    if works == [] {
      assert works + [w] == [w];
      assert PushedAll(s, [w]) == PushedAll(Moved(s, w), []);
    } else {
      assert (works + [w])[1..] == works[1..] + [w];
      PushedAllSnoc(Moved(s, works[0]), works[1..], w);
    }
  }

  /** The events of one element: a push, and then the client's pointer given up. */
  function ElementEvents(work: Option<Work>): seq<Event> {
    if work.None? then []
    else if work.value.Co? then [ClientPush(work.value, ANY_THREAD), ClientDrop(work.value.c)]
    else [ClientPush(work.value, ANY_THREAD)]
  }

  function BatchEvents(works: seq<Option<Work>>): seq<Event> {
    if works == [] then [] else ElementEvents(works[0]) + BatchEvents(works[1..])
  }

  /** Every element may be pushed when its turn comes. */
  predicate BatchAllowed(s: State, works: seq<Option<Work>>)
    decreases |works|
  {
    works == [] || (Allowed(s, works[0]) && BatchAllowed(Moved(s, works[0]), works[1..]))
  }

  predicate Allowed(s: State, work: Option<Work>) {
    work.Some? ==> Enabled(s, ClientPush(work.value, ANY_THREAD))
  }

  lemma MovedIsRun(s: State, work: Option<Work>)
    requires Allowed(s, work)
    ensures Leads(s, ElementEvents(work), Moved(s, work))
  {
    if work.Some? {
      var ev := ClientPush(work.value, ANY_THREAD);
      LeadsOnce(s, ev);
      if work.value.Co? {
        var drop := ClientDrop(work.value.c);
        LeadsOn(s, [ev], Pushed(s, work.value, ANY_THREAD), drop);
        assert [ev] + [drop] == [ev, drop];
      }
    }
  }

  /** A batch within the rules is a run. */
  lemma {:induction false} BatchIsRun(s: State, works: seq<Option<Work>>)
    requires BatchAllowed(s, works)
    ensures Leads(s, BatchEvents(works), PushedAll(s, works))
    decreases |works|
  {
    if works != [] {
      var t := Moved(s, works[0]);
      MovedIsRun(s, works[0]);
      BatchIsRun(t, works[1..]);
      LeadsFurther(s, ElementEvents(works[0]), t, BatchEvents(works[1..]), PushedAll(t, works[1..]));
    }
  }

  /** Among the first `n` entries some is pinned to another thread. */
  predicate SkipsPinned(q: seq<Entry>, tid: int, n: nat)
    requires n <= |q|
  {
    exists j :: 0 <= j < n && q[j].thread != ANY_THREAD && q[j].thread != tid
  }

  /** A worker's job is a coroutine that exists. */
  lemma JobStillExists(s: State, trace: seq<Event>, t: State, i: nat)
    requires Inv(s) && Leads(s, trace, t) && i < |t.ws| && JobOf(t.ws[i].pc).Some?
    ensures JobOf(t.ws[i].pc).value.c in t.co && JobOf(t.ws[i].pc).value.ticket < |t.log|
  {
    RunKeeps(s, trace);
    assert WorkerOk(t, i);
  }

  /** The events of one task from swap-in to settling. */
  predicate IsSlice(own: seq<Event>, me: nat, script: Script) {
    && |own| == script.count + 4
    && own[0].SwapIn? && own[0].i == me
    && own[script.count + 1] == EndSlice(me, script.out)
    && own[script.count + 2] == Decrement(me) && own[script.count + 3] == Settle(me)
  }

  /** What a scan took is run. */
  lemma TookRuns(s: State, i: nat)
    requires Inv(s) && i < |s.ws| && s.ws[i].pc.Took?
    ensures forall spare :: spare !in s.co ==> SwapsIn(s, SwappedIn(s, i, spare), i)
  {
    assert WorkerOk(s, i);
  }

  predicate SwapsIn(s: State, t: State, i: nat)
    requires i < |s.ws| && s.ws[i].pc.Took?
  {
    && |t.ws| == |s.ws| && t.ws[i].pc.Running? && t.ws[i].pc.job.ticket == s.ws[i].pc.e.ticket
    && t.ws[i].idle == s.ws[i].idle
  }

  /** A push done with has run once. */
  lemma RetiredRanOnce(s: State, trace: seq<Event>, t: State, tk: nat)
    requires Inv(s) && Leads(s, trace, t) && tk < |t.log| && t.log[tk].place.Retired?
    ensures RanOnce(t, tk)
  {
    RunKeeps(s, trace);
    assert PushOk(t, tk);
  }

  lemma RanOnceIsGone(s: State)
    requires Inv(s)
    ensures forall e :: e in s.queue ==> !RanOnce(s, e.ticket)
  {
    forall e | e in s.queue ensures !RanOnce(s, e.ticket) { StillQueued(s, e); }
  }

  /** Two events of a worker that do not move its cursor. */
  lemma EndPlays(s: State, trace: seq<Event>, t: State, me: nat, script: Script)
    requires Leads(s, trace, t) && Own(trace, me) == [Decrement(me), Settle(me)]
    ensures Plays(s, trace, t, me, [script], Cursor(1, script.count), Cursor(1, script.count))
  {
    StillPlays(s, trace, t, me, [script], Cursor(1, script.count));
  }

  lemma IdlePlays(s: State, trace: seq<Event>, t: State, me: nat, script: Script)
    requires Leads(s, trace, t) && (Own(trace, me) == [IdleTest(me)] || Own(trace, me) == [IdleTest(me), IdleCheck(me)])
    ensures Plays(s, trace, t, me, [script], Cursor(1, 0), Cursor(1, 0))
  {
    StillPlays(s, trace, t, me, [script], Cursor(1, 0));
  }

  /** A round starts with a scan, which sets the count of actions back, so it does not matter where it stood. */
  lemma RoundPlays(s: State, trace: seq<Event>, t: State, me: nat, scripts: seq<Script>, n: nat, cur: Cursor)
    requires n < |scripts| && cur.round == n && trace != [] && trace[0] == Scan(me)
    requires Plays(s, trace, t, me, [scripts[n]], Cursor(0, 0), After(trace, me, Cursor(0, 0)))
    ensures Plays(s, trace, t, me, scripts, cur, Shifted(After(trace, me, Cursor(0, 0)), n))
  {
    PlaysAmong(s, trace, t, me, scripts, n, Cursor(0, 0), After(trace, me, Cursor(0, 0)));
    assert Next(trace[0], me, cur) == Next(trace[0], me, Shifted(Cursor(0, 0), n));
  }

  /** The joins cannot have returned before this worker has. */
  lemma StillJoining(s: State, trace: seq<Event>, i: nat)
    requires IsRun(s, trace) && i < |Final(s, trace).ws| && !HasLeft(Final(s, trace).ws[i])
    ensures s.control.Joining? ==> Final(s, trace).control.Joining?
  {
    if s.control.Joining? { JoinsOrLeft(s, trace); }
  }

  /** From the joins on nothing happens to `stop` but that they return, when all have left. */
  ghost predicate JoinedRight(s: State) {
    Joins(s.control) && (s.control.Stopped? ==> forall i :: 0 <= i < |s.ws| ==> HasLeft(s.ws[i]))
  }

  lemma {:induction false} JoinsOrLeft(s: State, trace: seq<Event>)
    requires IsRun(s, trace) && JoinedRight(s)
    ensures JoinedRight(Final(s, trace))
    decreases |trace|
  {
    if trace != [] {
      JoinedStep(s, trace[0]);
      JoinsOrLeft(Apply(s, trace[0]), trace[1..]);
    }
  }

  lemma JoinedStep(s: State, ev: Event)
    requires Possible(s, ev) && JoinedRight(s)
    ensures JoinedRight(Apply(s, ev))
  {
    if !ByStop(ev) {
      LeavesControl(s, ev);
      if s.control.Stopped? { OnlyClients(s, ev); }
    }
  }

  /** When all workers have left, what still happens is the clients'. */
  lemma OnlyClients(s: State, ev: Event)
    requires Possible(s, ev) && !ByStop(ev) && forall i :: 0 <= i < |s.ws| ==> HasLeft(s.ws[i])
    ensures Apply(s, ev).ws == s.ws
  {
  }

  /** `trace` leads to a state where `stop` has raised both flags and not yet looked at the root coroutine. */
  ghost predicate FlagsUp(s: State, trace: seq<Event>, t: State) {
    && Leads(s, trace, t) && t.control.StopSet? && t.autoStop && t.stopping && t.hasRoot == s.hasRoot
  }

  /** The root coroutine is called and runs the loop until that ends or the scripts do. */
  ghost predicate RootRan(s: State, trace: seq<Event>, t: State, scripts: seq<Script>) {
    && trace != [] && trace[0] == StopRoot && 0 < |t.ws| && !t.ws[0].pc.NotStarted?
    && var cur := After(trace[1..], 0, Cursor(0, 0));
    && Plays(RootCalled(s), trace[1..], t, 0, scripts, Cursor(0, 0), cur)
    && (cur.round < |scripts| ==> t.ws[0].pc.Exited?)
  }

  lemma {:induction false} StartedStays(s: State, trace: seq<Event>)
    requires Inv(s) && IsRun(s, trace)
    ensures 0 < |Final(s, trace).ws| && (Final(s, trace).ws[0].pc.NotStarted? ==> s.ws[0].pc.NotStarted?)
    decreases |trace|
  {
    if trace != [] {
      EventMoves(s, trace[0], 0);
      Keeps(s, trace[0]);
      StartedStays(Apply(s, trace[0]), trace[1..]);
    }
  }

  /** Entry `k` of `s` had a worker it could run on, has run exactly once by `t` and is gone. */
  predicate Served(s: State, t: State, k: nat)
    requires k < |s.queue|
  {
    HasWorker(s, s.queue[k].thread) && RanOnce(t, s.queue[k].ticket) && s.queue[k] !in t.queue
  }

  /** If all workers have left, everything that was in the list before `stop` has been served. */
  lemma ServedAtEnd(s: State, trace: seq<Event>, k: nat)
    requires Inv(s) && s.control.Open? && IsRun(s, trace) && AllLeft(Final(s, trace)) && k < |s.queue|
    ensures Served(s, Final(s, trace), k)
  {
    LeftOverIff(s, trace, k);
    OpenAwaitedIff(s, s.queue[k].thread);
    if !HasWorker(s, s.queue[k].thread) {
      OpenOrphanBlocks(s, trace, k);
    }
  }

  class Scheduler {
    var coroutines: seq<Entry>
    var activeThreadCount: int
    var autoStop: bool
    var stopping: bool
    var hasRoot: bool
    var workers: seq<Worker>
    var states: map<Cid, Coroutine>
    var control: Control
    var log: seq<Push>

    function Abs(): State
      reads this
    {
      State(coroutines, activeThreadCount, autoStop, stopping, hasRoot, workers, states, control, log)
    }

    /** A scheduler that has been started: `threads` of its own, plus the caller's if asked for. */
    constructor (tids: seq<int>, useCaller: bool)
      requires 0 < |tids| && forall i :: 0 <= i < |tids| ==> tids[i] != ANY_THREAD
      ensures Init(Abs())
      ensures hasRoot == useCaller && |workers| == |tids|
      ensures forall i :: 0 <= i < |tids| ==> workers[i].tid == tids[i]
    {
      coroutines, activeThreadCount, autoStop, stopping := [], 0, false, false;
      hasRoot := useCaller;
      workers := seq(|tids|, i requires 0 <= i < |tids| =>
        NewWorker(tids[i], useCaller && i == 0));
      states, control, log := map[], Open, [];
    }

    /** `Scheduler::stopping`. */
    method IsStopping() returns (r: bool)
      ensures r <==> Stopping(Abs())
    {
      r := autoStop && stopping && coroutines == [] && activeThreadCount == 0;
    }

    /** `Scheduler::scheduleNoLock`: a null argument is dropped. */
    method ScheduleNoLock(work: Option<Work>, thread: int) returns (needTickle: bool)
      modifies this
      ensures needTickle <==> old(coroutines) == []
      ensures Abs() == if work.None? then old(Abs()) else Pushed(old(Abs()), work.value, thread)
    {
      needTickle := coroutines == [];
      if work.Some? {
        coroutines := coroutines + [Entry(work.value, thread, |log|)];
        states := MoveTo(states, work.value, Out(|log|));
        log := log + [Push(work.value, thread, Queued, 0)];
      }
    }

    /** `Scheduler::schedule(begin, end)`: the elements are swapped out of the caller's container. */
    method ScheduleBatch(slots: array<Option<Work>>) returns (needTickle: bool)
      modifies this, slots
      ensures needTickle <==> old(coroutines) == [] && slots.Length > 0
      ensures Abs() == PushedAll(old(Abs()), old(slots[..]))
      ensures coroutines == old(coroutines) + BatchEntries(old(slots[..]), |old(log)|)
      ensures forall k :: 0 <= k < slots.Length ==> slots[k] == None
      ensures BatchAllowed(old(Abs()), old(slots[..])) ==>
                Leads(old(Abs()), BatchEvents(old(slots[..])), Abs()) && (Inv(old(Abs())) ==> Inv(Abs()))
    {
      ghost var works := slots[..];
      needTickle := false;
      var n := 0;
      while n < slots.Length
        invariant 0 <= n <= slots.Length
        invariant forall k :: 0 <= k < slots.Length ==> slots[k] == if k < n then None else works[k]
        invariant needTickle <==> old(coroutines) == [] && n > 0
        invariant Abs() == PushedAll(old(Abs()), works[..n])
      {
        var first := ScheduleSwapped(slots, n);
        needTickle := first || needTickle;
        assert works[..n + 1] == works[..n] + [works[n]];
        PushedAllSnoc(old(Abs()), works[..n], works[n]);
        BatchAppends(old(Abs()), works[..n]);
        n := n + 1;
      }
      assert works[..n] == works;
      BatchAppends(old(Abs()), works);
      if BatchAllowed(old(Abs()), works) {
        BatchIsRun(old(Abs()), works);
        if Inv(old(Abs())) { RunKeeps(old(Abs()), BatchEvents(works)); }
      }
    }

    /** `ContextOfExecute` swaps with one element, whose pointer the client no longer has. */
    method ScheduleSwapped(slots: array<Option<Work>>, n: nat) returns (needTickle: bool)
      requires n < slots.Length
      modifies this, slots
      ensures needTickle <==> old(coroutines) == []
      ensures Abs() == Moved(old(Abs()), old(slots[n]))
      ensures forall k :: 0 <= k < slots.Length ==> slots[k] == if k == n then None else old(slots[k])
    {
      var work := slots[n];
      slots[n] := None;
      needTickle := ScheduleNoLock(work, ANY_THREAD);
      if work.Some? && work.value.Co? && work.value.c in states && states[work.value.c].clients > 0 {
        var c := work.value.c;
        states := states[c := states[c].(clients := states[c].clients - 1)];
      }
    }

    /** Lines 165-187: walk the list, take the first entry this thread may run. */
    method ScanList(me: nat) returns (tickleMe: bool)
      requires me < |workers| && workers[me].pc.Top?
      modifies this
      ensures Abs() == Scanned(old(Abs()), me)
      ensures tickleMe <==>
              SkipsPinned(old(coroutines), old(workers[me]).tid,
                          FirstEligible(old(coroutines), old(workers[me]).tid, old(states)))
    {
      tickleMe := false;
      var tid := workers[me].tid;
      ghost var k := FirstEligible(coroutines, tid, states);
      var it := 0;
      while it < |coroutines|
        invariant 0 <= it <= k && Abs() == old(Abs())
        invariant tickleMe <==> SkipsPinned(coroutines, tid, it)
      {
        var e := coroutines[it];
        if e.thread != ANY_THREAD && e.thread != tid {
          it := it + 1;
          tickleMe := true;
          continue;
        }
        if e.work.Co? && e.work.c in states && states[e.work.c].state == EXEC {
          it := it + 1;
          continue;
        }
        coroutines := coroutines[..it] + coroutines[it + 1..];
        activeThreadCount := activeThreadCount + 1;
        workers := workers[me := workers[me].(pc := Took(e))];
        log := SetPlace(log, e.ticket, Hand(me));
        return;
      }
      workers := workers[me := workers[me].(pc := NoWork)];
    }

    /** Other threads act: any of the proposed events that are possible there and not by worker `me`. */
    method Interfere(me: nat, evs: seq<Event>) returns (done: seq<Event>)
      requires me < |workers|
      modifies this
      ensures Leads(old(Abs()), done, Abs()) && Own(done, me) == []
      ensures |workers| == |old(workers)| && workers[me] == old(workers[me])
    {
      done := [];
      var n := 0;
      while n < |evs|
        invariant 0 <= n <= |evs| && Leads(old(Abs()), done, Abs()) && Own(done, me) == []
        invariant |workers| == |old(workers)| && workers[me] == old(workers[me])
      {
        var ev := evs[n];
        if Enabled(Abs(), ev) && !ActsFor(ev, me) {
          LeavesLocals(Abs(), ev, me);
          OwnSnoc(done, ev, me);
          LeadsOn(old(Abs()), done, Abs(), ev);
          done := done + [ev];
          Become(ev);
        }
        n := n + 1;
      }
    }

    /** The fields after an event of some other thread. */
    method Become(ev: Event)
      requires Possible(Abs(), ev)
      modifies this
      ensures Abs() == Apply(old(Abs()), ev)
    {
      var t := Apply(Abs(), ev);
      coroutines, activeThreadCount, autoStop, stopping := t.queue, t.active, t.autoStop, t.stopping;
      hasRoot, workers, states, control, log := t.hasRoot, t.ws, t.co, t.control, t.log;
    }

    /** The allocator hands out an identity no live coroutine has. */
    method UnusedId() returns (c: Cid)
      ensures c !in states
    {
      var keys := states.Keys;
      c := 0;
      while keys != {}
        invariant keys <= states.Keys
        invariant forall d :: d in states ==> d in keys || d < c
        decreases |keys|
      {
        var d :| d in keys;
        if c <= d { c := d + 1; }
        keys := keys - {d};
      }
    }

    /** `swapIn` on the contexts of the thread: save the scheduling coroutine, go on with `f`. */
    method SwitchIn(me: nat, f: Frame)
      requires me < |workers|
      modifies this`workers
      ensures workers == old(workers)[me := old(workers[me]).(stack := SwitchTo(old(workers[me].stack), f))]
    {
      var st := workers[me].stack.(current := Some(f));
      st := Saved(st, st.sched, Suspended(false));
      st := Saved(st, Some(f), Live);
      workers := workers[me := workers[me].(stack := st.(chain := st.chain + [f]))];
    }

    /** `swapOut`: the current coroutine is left at `r`, the scheduling coroutine goes on. */
    method SwitchOut(me: nat, r: Resume)
      requires me < |workers|
      modifies this`workers
      ensures workers == old(workers)[me := old(workers[me]).(stack := SwitchBack(old(workers[me].stack), r))]
    {
      var st := Saved(workers[me].stack, workers[me].stack.current, r);
      st := Saved(st.(current := st.sched), st.sched, Live);
      workers := workers[me := workers[me].(stack := st.(chain := Popped(st.chain)))];
    }

    /** Lines 193-195 and 206-214, up to the moment the task runs. */
    method Dispatch(me: nat) returns (ev: Event)
      requires me < |workers| && workers[me].pc.Took?
      modifies this
      ensures Enabled(old(Abs()), ev) && ev.SwapIn? && ev.i == me && Abs() == Apply(old(Abs()), ev)
    {
      var spare := UnusedId();
      ev := SwapIn(me, spare);
      var e := workers[me].pc.e;
      if e.work.Co? && e.work.c in states && states[e.work.c].state != TERM && states[e.work.c].state != EXCEPT {
        var c := e.work.c;
        states := states[c := states[c].(state := EXEC, ctx := Live)];
        workers := workers[me := workers[me].(pc := Running(Job(c, e.ticket, false)))];
        log := AddSlice(log, e.ticket);
        SwitchIn(me, Task(c));
      } else if e.work.Cb? {
        var c := spare;
        if workers[me].slot.Some? {
          c := workers[me].slot.value;
        }
        var clients := if c in states then states[c].clients else 0;
        states := states[c := Coroutine(EXEC, Out(e.ticket), Live, clients)];
        workers := workers[me := workers[me].(pc := Running(Job(c, e.ticket, true)), slot := Some(c))];
        log := AddSlice(log, e.ticket);
        SwitchIn(me, Task(c));
      } else {
        workers := workers[me := workers[me].(pc := Discarding(e))];
      }
    }

    /**
     The task runs; other threads interfere before each of its actions. It does what its script says in the
     states it finds, no more and no less, and swaps out as the script says.
     */
    method RunTask(me: nat, script: Script, others: nat -> seq<Event>) returns (trace: seq<Event>)
      requires Inv(Abs()) && me < |workers| && workers[me].pc.Running? && WellBehaved(me, script)
      modifies this
      ensures Plays(old(Abs()), trace, Abs(), me, [script], Cursor(1, 0), Cursor(1, script.count))
      ensures |Own(trace, me)| == script.count + 1 && Own(trace, me)[script.count] == EndSlice(me, script.out)
      ensures |workers| == |old(workers)|
      ensures workers[me] == old(workers[me]).(pc := Swapped(old(workers[me].pc.job)),
                             stack := SwitchBack(old(workers[me].stack), AfterSlice(script.out)))
    {
      trace := [];
      var n := 0;
      while n < script.count
        invariant 0 <= n <= script.count && |Own(trace, me)| == n && Inv(Abs())
        invariant Plays(old(Abs()), trace, Abs(), me, [script], Cursor(1, 0), Cursor(1, n))
        invariant |workers| == |old(workers)| && workers[me] == old(workers[me])
      {
        label gap:
        var done := ActsOnce(me, script, n, others(n));
        PlaysFurther(old(Abs()), trace, old@gap(Abs()), done, Abs(), me, [script],
                     Cursor(1, 0), Cursor(1, n), Cursor(1, n + 1));
        OwnConcat(trace, done, me);
        RunKeeps(old(Abs()), trace + done);
        trace := trace + done;
        n := n + 1;
      }
      label ending:
      var last := SwapsOut(me, script, others(n));
      PlaysFurther(old(Abs()), trace, old@ending(Abs()), last, Abs(), me, [script],
                   Cursor(1, 0), Cursor(1, n), Cursor(1, n));
      OwnConcat(trace, last, me);
      trace := trace + last;
    }

    /** Others act, then the task does its action number `n`. */
    method ActsOnce(me: nat, script: Script, n: nat, others: seq<Event>) returns (trace: seq<Event>)
      requires Inv(Abs()) && me < |workers| && workers[me].pc.Running? && WellBehaved(me, script) && n < script.count
      modifies this
      ensures Plays(old(Abs()), trace, Abs(), me, [script], Cursor(1, n), Cursor(1, n + 1)) && |Own(trace, me)| == 1
      ensures |workers| == |old(workers)| && workers[me] == old(workers[me])
    {
      var done := Interfere(me, others);
      JobStillExists(old(Abs()), done, Abs(), me);
      OthersPlay(old(Abs()), done, Abs(), me, [script], Cursor(1, n));
      label gap:
      var act := script.act(Abs(), n);
      var ev := ActEvent(me, act);
      PlaysOnce(Abs(), ev, me, [script], Cursor(1, n));
      Acts(me, act);
      PlaysFurther(old(Abs()), done, old@gap(Abs()), [ev], Abs(), me, [script],
                   Cursor(1, n), Cursor(1, n), Cursor(1, n + 1));
      OwnSnoc(done, ev, me);
      trace := done + [ev];
    }

    /** Others act, then the task swaps out. */
    method SwapsOut(me: nat, script: Script, others: seq<Event>) returns (trace: seq<Event>)
      requires Inv(Abs()) && me < |workers| && workers[me].pc.Running? && !script.out.INIT?
      modifies this
      ensures Plays(old(Abs()), trace, Abs(), me, [script], Cursor(1, script.count), Cursor(1, script.count))
      ensures Own(trace, me) == [EndSlice(me, script.out)]
      ensures |workers| == |old(workers)|
      ensures workers[me] == old(workers[me]).(pc := Swapped(old(workers[me].pc.job)),
                             stack := SwitchBack(old(workers[me].stack), AfterSlice(script.out)))
    {
      var done := Interfere(me, others);
      JobStillExists(old(Abs()), done, Abs(), me);
      var cur := Cursor(1, script.count);
      OthersPlay(old(Abs()), done, Abs(), me, [script], cur);
      label gap:
      var ev := EndSlice(me, script.out);
      PlaysOnce(Abs(), ev, me, [script], cur);
      EndsSlice(me, script.out);
      PlaysFurther(old(Abs()), done, old@gap(Abs()), [ev], Abs(), me, [script], cur, cur, cur);
      OwnSnoc(done, ev, me);
      trace := done + [ev];
    }

    /** One action of a task. */
    method Acts(me: nat, act: Act)
      requires Possible(Abs(), ActEvent(me, act))
      modifies this
      ensures Abs() == Apply(old(Abs()), ActEvent(me, act)) && workers == old(workers)
    {
      match act {
        case Schedules(work, thread) =>
          var tickle := ScheduleNoLock(Some(work), thread);
        case TakesPointer =>
          var c := workers[me].pc.job.c;
          states := states[c := states[c].(clients := states[c].clients + 1)];
      }
    }

    /** `Yield`, `Sleep`, a bare `swapOut`, or the end of `MainFunc`. */
    method EndsSlice(me: nat, out: CState)
      requires me < |workers| && workers[me].pc.Running? && workers[me].pc.job.c in states
      modifies this
      ensures Abs() == SwappedOut(old(Abs()), me, out)
    {
      var job := workers[me].pc.job;
      states := states[job.c := states[job.c].(state := out, ctx := AfterSlice(out))];
      workers := workers[me := workers[me].(pc := Swapped(job))];
      SwitchOut(me, AfterSlice(out));
    }

    /** `--m_activeThreadCount`. */
    method DecrementCounter(me: nat)
      requires me < |workers| && (workers[me].pc.Swapped? || workers[me].pc.Discarding?)
      modifies this
      ensures Abs() == Decremented(old(Abs()), me)
    {
      activeThreadCount := activeThreadCount - 1;
      if workers[me].pc.Swapped? {
        workers := workers[me := workers[me].(pc := Settling(workers[me].pc.job))];
      } else {
        var e := workers[me].pc.e;
        workers := workers[me := workers[me].(pc := NoWork)];
        log := SetPlace(log, e.ticket, Retired);
        states := MoveTo(states, e.work, Parked);
      }
    }

    /** Lines 198-205 and 216-226. */
    method SettleTask(me: nat)
      requires me < |workers| && workers[me].pc.Settling? && workers[me].pc.job.c in states
      modifies this
      ensures Abs() == Settled(old(Abs()), me)
    {
      var job := workers[me].pc.job;
      var x := states[job.c];
      log := SetPlace(log, job.ticket, Retired);
      if x.state == READY {
        workers := workers[me := workers[me].(pc := Top, slot := if job.viaCb then None else workers[me].slot)];
        var tickle := ScheduleNoLock(Some(Co(job.c)), ANY_THREAD);
      } else if x.state == EXCEPT || x.state == TERM {
        workers := workers[me := workers[me].(pc := Top)];
        states := states[job.c := if job.viaCb then x.(state := INIT, ctx := AtEntry, loc := Slot(me))
        else x.(loc := Parked)];
      } else {
        workers := workers[me := workers[me].(pc := Top, slot := if job.viaCb then None else workers[me].slot)];
        states := states[job.c := x.(state := HOLD, loc := Parked)];
      }
    }

    /** Lines 231-237: leave the loop, or swap the idle coroutine in. */
    method TestIdle(me: nat)
      requires me < |workers| && workers[me].pc.NoWork?
      modifies this`workers
      ensures Abs() == IdleTested(old(Abs()), me)
    {
      if workers[me].idle == TERM {
        workers := workers[me := workers[me].(pc := Leaving)];
      } else {
        workers := workers[me := workers[me].(pc := InIdle, idle := EXEC)];
        SwitchIn(me, Idle);
      }
    }

    /** Lines 142-147 and 240-243: one slice of `idle`. */
    method CheckIdle(me: nat)
      requires me < |workers| && workers[me].pc.InIdle?
      modifies this`workers
      ensures Abs() == IdleChecked(old(Abs()), me)
    {
      var stop := IsStopping();
      var out := if stop then TERM else HOLD;
      workers := workers[me := workers[me].(pc := Top, idle := out)];
      SwitchOut(me, AfterSlice(out));
    }

    /** Lines 231-243: end the loop, or give the idle coroutine one slice, with others acting inside it. */
    method IdleOnce(me: nat, others: seq<Event>) returns (trace: seq<Event>)
      requires me < |workers| && workers[me].pc.NoWork?
      modifies this
      ensures Leads(old(Abs()), trace, Abs())
      ensures |workers| == |old(workers)|
      ensures if old(workers[me].idle.TERM?) then workers[me].pc.Leaving? && Own(trace, me) == [IdleTest(me)]
              else workers[me].pc.Top? && Own(trace, me) == [IdleTest(me), IdleCheck(me)]
    {
      LeadsOnce(Abs(), IdleTest(me));
      TestIdle(me);
      trace := [IdleTest(me)];
      OwnOne(IdleTest(me), me);
      if workers[me].pc.InIdle? {
        label gap:
        var done := Interfere(me, others);
        LeadsFurther(old(Abs()), trace, old@gap(Abs()), done, Abs());
        OwnConcat(trace, done, me);
        trace := trace + done;
        LeadsOn(old(Abs()), trace, Abs(), IdleCheck(me));
        OwnSnoc(trace, IdleCheck(me), me);
        CheckIdle(me);
        trace := trace + [IdleCheck(me)];
      }
    }

    /** After the task swapped out: decrement, a window in which others act, then settle. */
    method FinishSlice(me: nat, window: seq<Event>) returns (trace: seq<Event>)
      requires Inv(Abs()) && me < |workers| && workers[me].pc.Swapped?
      modifies this
      ensures Leads(old(Abs()), trace, Abs()) && Own(trace, me) == [Decrement(me), Settle(me)]
      ensures |workers| == |old(workers)| && workers[me].pc.Top? && workers[me].idle == old(workers[me].idle)
      ensures RanOnce(Abs(), old(workers[me].pc.job.ticket))
    {
      trace := EntersWindow(me, window);
      JobStillExists(old(Abs()), trace, Abs(), me);
      label window:
      SettlesTask(me);
      LeadsFurther(old(Abs()), trace, old@window(Abs()), [Settle(me)], Abs());
      OwnSnoc(trace, Settle(me), me);
      trace := trace + [Settle(me)];
      RetiredRanOnce(old(Abs()), trace, Abs(), old(workers[me].pc.job.ticket));
    }

    method SettlesTask(me: nat)
      requires me < |workers| && workers[me].pc.Settling? && workers[me].pc.job.c in states
      requires workers[me].pc.job.ticket < |log|
      modifies this
      ensures Leads(old(Abs()), [Settle(me)], Abs())
      ensures |workers| == |old(workers)| && workers[me].pc.Top? && workers[me].idle == old(workers[me].idle)
      ensures StillWith(Abs(), me, old(workers[me].pc.job.ticket))
    {
      LeadsOnce(Abs(), Settle(me));
      SettleRetires(Abs(), me);
      SettleTask(me);
    }

    method EntersWindow(me: nat, window: seq<Event>) returns (trace: seq<Event>)
      requires me < |workers| && workers[me].pc.Swapped?
      modifies this
      ensures Leads(old(Abs()), trace, Abs()) && Own(trace, me) == [Decrement(me)]
      ensures |workers| == |old(workers)|
      ensures workers[me] == old(workers[me]).(pc := Settling(old(workers[me].pc.job)))
    {
      LeadsOnce(Abs(), Decrement(me));
      DecrementCounter(me);
      trace := [Decrement(me)];
      OwnOne(Decrement(me), me);
      label gap:
      var done := Interfere(me, window);
      LeadsFurther(old(Abs()), trace, old@gap(Abs()), done, Abs());
      OwnConcat(trace, done, me);
      trace := trace + done;
    }

    /**
     The first two branches of the loop body: run what the scan took, with others acting in every gap. The
     entry has run exactly once then, and its task has done what the script says.
     */
    method WorkOnce(me: nat, script: Script, inside: nat -> seq<Event>, window: seq<Event>) returns (trace: seq<Event>)
      requires Inv(Abs()) && me < |workers| && workers[me].pc.Took? && WellBehaved(me, script)
      modifies this
      ensures Plays(old(Abs()), trace, Abs(), me, [script], Cursor(1, 0), Cursor(1, script.count))
      ensures IsSlice(Own(trace, me), me, script) && RanOnce(Abs(), old(workers[me].pc.e.ticket))
      ensures |workers| == |old(workers)| && workers[me].pc.Top? && workers[me].idle == old(workers[me].idle)
    {
      TookRuns(Abs(), me);
      trace := SliceOnce(me, script, inside);
      RunKeeps(old(Abs()), trace);
      label swappedOut:
      var rest := FinishSlice(me, window);
      EndPlays(old@swappedOut(Abs()), rest, Abs(), me, script);
      PlaysFurther(old(Abs()), trace, old@swappedOut(Abs()), rest, Abs(), me, [script],
                   Cursor(1, 0), Cursor(1, script.count), Cursor(1, script.count));
      OwnConcat(trace, rest, me);
      trace := trace + rest;
    }

    /** Swap in what the scan took and let it run along the script until it swaps out. */
    method SliceOnce(me: nat, script: Script, inside: nat -> seq<Event>) returns (trace: seq<Event>)
      requires Inv(Abs()) && me < |workers| && workers[me].pc.Took? && WellBehaved(me, script)
      requires forall spare :: spare !in states ==> SwapsIn(Abs(), SwappedIn(Abs(), me, spare), me)
      modifies this
      ensures Plays(old(Abs()), trace, Abs(), me, [script], Cursor(1, 0), Cursor(1, script.count))
      ensures |Own(trace, me)| == script.count + 2 && Own(trace, me)[0].SwapIn? && Own(trace, me)[0].i == me
      ensures Own(trace, me)[script.count + 1] == EndSlice(me, script.out)
      ensures |workers| == |old(workers)| && workers[me].pc.Swapped? && workers[me].idle == old(workers[me].idle)
      ensures workers[me].pc.job.ticket == old(workers[me].pc.e.ticket)
    {
      var ev := Dispatch(me);
      PlaysOnce(old(Abs()), ev, me, [script], Cursor(1, 0));
      OwnOne(ev, me);
      RunKeeps(old(Abs()), [ev]);
      label swappedIn:
      trace := RunTask(me, script, inside);
      PlaysFurther(old(Abs()), [ev], old@swappedIn(Abs()), trace, Abs(), me, [script],
                   Cursor(1, 0), Cursor(1, 0), Cursor(1, script.count));
      OwnConcat([ev], trace, me);
      trace := [ev] + trace;
    }

    /** The scan, and others acting after it. */
    method BeginRound(me: nat, script: Script, others: seq<Event>) returns (trace: seq<Event>)
      requires Inv(Abs()) && me < |workers| && workers[me].pc.Top?
      modifies this
      ensures Plays(old(Abs()), trace, Abs(), me, [script], Cursor(0, 0), Cursor(1, 0)) && Inv(Abs())
      ensures trace != [] && trace[0] == Scan(me) && Own(trace, me) == [Scan(me)]
      ensures |workers| == |old(workers)| && workers[me] == Scanned(old(Abs()), me).ws[me]
    {
      PlaysOnce(old(Abs()), Scan(me), me, [script], Cursor(0, 0));
      var tickleMe := ScanList(me);
      OwnOne(Scan(me), me);
      label scanned:
      var done := Interfere(me, others);
      OthersPlay(old@scanned(Abs()), done, Abs(), me, [script], Cursor(1, 0));
      PlaysFurther(old(Abs()), [Scan(me)], old@scanned(Abs()), done, Abs(), me, [script],
                   Cursor(0, 0), Cursor(1, 0), Cursor(1, 0));
      OwnConcat([Scan(me)], done, me);
      trace := [Scan(me)] + done;
      RunKeeps(old(Abs()), trace);
    }

    /** The branches of the loop body: run what the scan took, or look at the idle coroutine. */
    method EndRound(me: nat, script: Script, inside: nat -> seq<Event>, gaps: nat -> seq<Event>)
      returns (trace: seq<Event>)
      requires Inv(Abs()) && me < |workers| && (workers[me].pc.Took? || workers[me].pc.NoWork?)
      requires WellBehaved(me, script)
      modifies this
      ensures |workers| == |old(workers)|
      ensures Plays(old(Abs()), trace, Abs(), me, [script], Cursor(1, 0),
                    Cursor(1, if old(workers[me].pc.Took?) then script.count else 0))
      ensures if old(workers[me].pc.Took?) then
                && workers[me].pc.Top? && IsSlice(Own(trace, me), me, script)
                && RanOnce(Abs(), old(workers[me].pc.e.ticket))
              else if old(workers[me].idle.TERM?) then workers[me].pc.Leaving? && Own(trace, me) == [IdleTest(me)]
              else workers[me].pc.Top? && Own(trace, me) == [IdleTest(me), IdleCheck(me)]
    {
      if workers[me].pc.Took? {
        trace := WorkOnce(me, script, inside, gaps(1));
      } else {
        trace := IdleOnce(me, gaps(2));
        IdlePlays(old(Abs()), trace, Abs(), me, script);
      }
    }

    /**
     One round of the loop of `Scheduler::run`. If the scan finds an entry it may take, the round takes the
     first one, runs it once along the script and settles it; if not, it looks at the idle coroutine.
     */
    method RunOnce(me: nat, script: Script, inside: nat -> seq<Event>, gaps: nat -> seq<Event>)
      returns (trace: seq<Event>)
      requires Inv(Abs()) && me < |workers| && workers[me].pc.Top? && WellBehaved(me, script)
      modifies this
      ensures Inv(Abs()) && |workers| == |old(workers)| && trace != [] && trace[0] == Scan(me)
      ensures Plays(old(Abs()), trace, Abs(), me, [script], Cursor(0, 0), After(trace, me, Cursor(0, 0)))
      ensures After(trace, me, Cursor(0, 0)).round == 1
      ensures var k := FirstEligible(old(coroutines), old(workers[me]).tid, old(states));
              if k < |old(coroutines)| then
                && workers[me].pc.Top? && IsSlice(Own(trace, me)[1..], me, script)
                && RanOnce(Abs(), old(coroutines)[k].ticket) && old(coroutines)[k] !in coroutines
              else if old(workers[me].idle.TERM?) then
                workers[me].pc.Leaving? && Own(trace, me) == [Scan(me), IdleTest(me)]
              else
                workers[me].pc.Top? && Own(trace, me) == [Scan(me), IdleTest(me), IdleCheck(me)]
    {
      trace := BeginRound(me, script, gaps(0));
      label gap:
      ghost var n := if workers[me].pc.Took? then script.count else 0;
      var done := EndRound(me, script, inside, gaps);
      PlaysFurther(old(Abs()), trace, old@gap(Abs()), done, Abs(), me, [script],
                   Cursor(0, 0), Cursor(1, 0), Cursor(1, n));
      OwnConcat(trace, done, me);
      trace := trace + done;
      RunKeeps(old(Abs()), trace);
      RanOnceIsGone(Abs());
    }

    /** Lines 149-164. */
    method Enters(me: nat)
      requires me < |workers| && workers[me].pc.Entering?
      modifies this`workers
      ensures Abs() == Entered(old(Abs()), me)
    {
      var st := workers[me].stack;
      if !(hasRoot && me == 0) {
        if st.current.None? {
          st := st.(current := Some(ThreadMain), main := Live, chain := [ThreadMain]);
        }
        st := st.(sched := st.current);
      }
      workers := workers[me := workers[me].(pc := Top, stack := st)];
    }

    /** The locals of `run` go; on the caller's thread the root coroutine ends and goes `back`. */
    method Leaves(me: nat)
      requires me < |workers| && workers[me].pc.Leaving?
      modifies this
      ensures Abs() == Left(old(Abs()), me)
    {
      var slot := workers[me].slot;
      if slot.Some? {
        states := SetLoc(states, slot.value, Parked);
      }
      workers := workers[me := workers[me].(pc := Exited, slot := None)];
      if hasRoot && me == 0 {
        var st := workers[me].stack;
        workers := workers[me := workers[me].(
        stack := st.(current := Some(ThreadMain), root := PastEnd, main := Live, chain := Popped(st.chain)))];
      }
    }

    /**
     `Scheduler::run` for as many rounds as there are scripts, or until the worker leaves because its idle
     coroutine has ended. Round by round the tasks do what their scripts say.
     */
    method Run(me: nat, scripts: seq<Script>, inside: nat -> nat -> seq<Event>, gaps: nat -> nat -> seq<Event>)
      returns (trace: seq<Event>)
      requires Inv(Abs()) && me < |workers| && workers[me].pc.Entering?
      requires forall n :: 0 <= n < |scripts| ==> WellBehaved(me, scripts[n])
      modifies this
      ensures Inv(Abs()) && |workers| == |old(workers)| && trace != [] && trace[0] == Enter(me)
      ensures Plays(old(Abs()), trace, Abs(), me, scripts, Cursor(0, 0), After(trace, me, Cursor(0, 0)))
      ensures if After(trace, me, Cursor(0, 0)).round < |scripts| then workers[me].pc.Exited?
              else workers[me].pc.Exited? || workers[me].pc.Top?
      ensures old(control).Joining? ==> control.Joining?
    {
      PlaysOnce(old(Abs()), Enter(me), me, scripts, Cursor(0, 0));
      Enters(me);
      trace := [Enter(me)];
      RunKeeps(old(Abs()), trace);
      var n := 0;
      ghost var cur := Cursor(0, 0);
      while n < |scripts| && workers[me].pc.Top?
        invariant 0 <= n <= |scripts| && Inv(Abs()) && trace != [] && trace[0] == Enter(me) && cur.round == n
        invariant Plays(old(Abs()), trace, Abs(), me, scripts, Cursor(0, 0), cur)
        invariant |workers| == |old(workers)| && (workers[me].pc.Top? || workers[me].pc.Leaving?)
      {
        label round:
        var done := RunOnce(me, scripts[n], inside(n), gaps(n));
        ghost var after := After(done, me, Cursor(0, 0));
        RoundPlays(old@round(Abs()), done, Abs(), me, scripts, n, cur);
        PlaysFurther(old(Abs()), trace, old@round(Abs()), done, Abs(), me, scripts,
                     Cursor(0, 0), cur, Shifted(after, n));
        trace := trace + done;
        cur := Shifted(after, n);
        n := n + 1;
      }
      StillJoining(old(Abs()), trace, me);
      if workers[me].pc.Leaving? {
        label leaving:
        PlaysOnce(Abs(), Leave(me), me, scripts, cur);
        Leaves(me);
        PlaysFurther(old(Abs()), trace, old@leaving(Abs()), [Leave(me)], Abs(), me, scripts, Cursor(0, 0), cur, cur);
        trace := trace + [Leave(me)];
        RunKeeps(old(Abs()), trace);
      }
    }

    /** Other threads act while `stop` is between two of its statements. */
    method InterfereWithStop(evs: seq<Event>) returns (done: seq<Event>)
      modifies this
      ensures Leads(old(Abs()), done, Abs()) && SameControl(old(Abs()), Abs())
    {
      done := [];
      var n := 0;
      while n < |evs|
        invariant 0 <= n <= |evs| && Leads(old(Abs()), done, Abs()) && SameControl(old(Abs()), Abs())
      {
        if Enabled(Abs(), evs[n]) && !ByStop(evs[n]) {
          LeavesControl(Abs(), evs[n]);
          LeadsOn(old(Abs()), done, Abs(), evs[n]);
          done := done + [evs[n]];
          Become(evs[n]);
        }
        n := n + 1;
      }
    }

    /** Lines 73-97: both flags. */
    method RaiseFlags(between: seq<Event>) returns (trace: seq<Event>)
      requires control.Open?
      modifies this
      ensures Leads(old(Abs()), trace, Abs()) && control.StopSet?
      ensures autoStop && stopping && hasRoot == old(hasRoot)
    {
      trace := RaiseFirst(between);
      LeadsOn(old(Abs()), trace, Abs(), StopFlag);
      stopping, control := true, StopSet;
      trace := trace + [StopFlag];
    }

    method RaiseFirst(between: seq<Event>) returns (trace: seq<Event>)
      requires control.Open?
      modifies this
      ensures Leads(old(Abs()), trace, Abs()) && control.AutoSet? && autoStop && hasRoot == old(hasRoot)
    {
      LeadsOnce(Abs(), StopAuto);
      autoStop, control := true, AutoSet;
      trace := [StopAuto];
      label gap:
      var done := InterfereWithStop(between);
      LeadsFurther(old(Abs()), trace, old@gap(Abs()), done, Abs());
      trace := trace + done;
    }

    /**
     Lines 103-116: run the caller's worker on the calling thread unless all is drained. It runs until it
     leaves its loop or the scripts are used up.
     */
    method CallRoot(scripts: seq<Script>, inside: nat -> nat -> seq<Event>, within: nat -> nat -> seq<Event>)
      returns (trace: seq<Event>)
      requires Inv(Abs()) && control.StopSet?
      requires forall n :: 0 <= n < |scripts| ==> WellBehaved(0, scripts[n])
      modifies this
      ensures Leads(old(Abs()), trace, Abs()) && Inv(Abs()) && control.Joining?
      ensures if old(hasRoot && !Stopping(Abs())) then RootRan(old(Abs()), trace, Abs(), scripts)
              else trace == [StopRoot] && Abs() == old(Abs()).(control := Joining)
    {
      LeadsOnce(Abs(), StopRoot);
      RunKeeps(Abs(), [StopRoot]);
      var drained := IsStopping();
      control := Joining;
      trace := [StopRoot];
      if hasRoot && !drained {
        var st := workers[0].stack;
        st := st.(current := Some(Root), main := Suspended(false), root := Live, chain := st.chain + [Root]);
        workers := workers[0 := workers[0].(pc := Entering, stack := st)];
        label called:
        var done := Run(0, scripts, inside, within);
        LeadsFurther(old(Abs()), trace, old@called(Abs()), done, Abs());
        trace := trace + done;
        assert trace[1..] == done;
      }
    }

    /** Lines 118-126: the joins return when every thread function has returned, and not before. */
    method JoinAll(waiting: seq<Event>) returns (joined: bool, trace: seq<Event>)
      requires control.Joining?
      modifies this
      ensures Leads(old(Abs()), trace, Abs())
      ensures autoStop == old(autoStop) && stopping == old(stopping) && hasRoot == old(hasRoot)
      ensures joined <==> AllLeft(Abs())
      ensures control == if joined then Stopped else Joining
    {
      trace := InterfereWithStop(waiting);
      joined := Enabled(Abs(), Join);
      if joined {
        LeadsOn(old(Abs()), trace, Abs(), Join);
        control := Stopped;
        trace := trace + [Join];
      }
    }

    /**
     Lines 72-116: raise the flags and run the caller's worker. `before` leads to `flagged`, where both flags
     are up and the root coroutine is called or not.
     */
    method StopUntilJoins(
      gaps: nat -> seq<Event>, scripts: seq<Script>, inside: nat -> nat -> seq<Event>, within: nat -> nat -> seq<Event>)
      returns (trace: seq<Event>, ghost before: seq<Event>, ghost flagged: State)
      requires Inv(Abs()) && control.Open?
      requires forall n :: 0 <= n < |scripts| ==> WellBehaved(0, scripts[n])
      modifies this
      ensures Leads(old(Abs()), trace, Abs()) && Inv(Abs()) && control.Joining?
      ensures before <= trace && FlagsUp(old(Abs()), before, flagged)
      ensures if old(hasRoot) && !Stopping(flagged) then RootRan(flagged, trace[|before|..], Abs(), scripts)
              else trace == before + [StopRoot] && Abs() == flagged.(control := Joining)
    {
      trace := RaiseFlags(gaps(0));
      label raised:
      var done := InterfereWithStop(gaps(1));
      LeadsFurther(old(Abs()), trace, old@raised(Abs()), done, Abs());
      trace := trace + done;
      RunKeeps(old(Abs()), trace);
      before, flagged := trace, Abs();
      done := CallRoot(scripts, inside, within);
      LeadsFurther(old(Abs()), trace, flagged, done, Abs());
      trace := trace + done;
      assert trace[|before|..] == done;
    }

    /**
     `Scheduler::stop`. Both flags go up and then, unless all is drained, the caller's worker runs. `joined`
     says that the waiting is over, which is when the source returns: exactly when all workers have left.
     Then every entry that was in the list when it was called has run exactly once and is gone, and whatever
     is left is pinned. With an entry pinned to no worker's thread in the list the waiting is never over.
     */
    method Stop(
      gaps: nat -> seq<Event>, scripts: seq<Script>, inside: nat -> nat -> seq<Event>, within: nat -> nat -> seq<Event>)
      returns (joined: bool, trace: seq<Event>, ghost before: seq<Event>, ghost flagged: State)
      requires Inv(Abs()) && control.Open?
      requires forall n :: 0 <= n < |scripts| ==> WellBehaved(0, scripts[n])
      modifies this
      ensures Leads(old(Abs()), trace, Abs()) && Inv(Abs()) && autoStop && stopping
      ensures before <= trace && FlagsUp(old(Abs()), before, flagged)
      ensures old(hasRoot) && !Stopping(flagged) ==> !workers[0].pc.NotStarted?
      ensures joined <==> AllLeft(Abs())
      ensures control == if joined then Stopped else Joining
      ensures joined ==> forall k :: 0 <= k < |coroutines| ==> coroutines[k].thread != ANY_THREAD
      ensures joined ==> forall k :: 0 <= k < |old(coroutines)| ==> Served(old(Abs()), Abs(), k)
      ensures forall k :: 0 <= k < |old(coroutines)| && !HasWorker(old(Abs()), old(coroutines)[k].thread) ==> !joined
    {
      trace, before, flagged := StopUntilJoins(gaps, scripts, inside, within);
      var done: seq<Event>;
      label waiting:
      joined, done := JoinAll(gaps(2));
      StartedStays(old@waiting(Abs()), done);
      LeadsFurther(old(Abs()), trace, old@waiting(Abs()), done, Abs());
      trace := trace + done;
      RunKeeps(old(Abs()), trace);
      if joined {
        forall k | 0 <= k < |old(coroutines)| ensures Served(old(Abs()), Abs(), k) {
          ServedAtEnd(old(Abs()), trace, k);
        }
        forall k | 0 <= k < |old(coroutines)| ensures HasWorker(old(Abs()), old(coroutines)[k].thread) {
          assert Served(old(Abs()), Abs(), k);
        }
      }
    }
  }
}
