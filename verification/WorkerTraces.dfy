/**
 What one worker does in a trace of the transition system: its own events, and that the tasks it runs do
 what their scripts say. Events of other threads may stand anywhere between.
 */
module WorkerTraces {
  import opened SchedulerProtocol
  import opened ProtocolInvariant

  // ---------- Tasks ----------

  /** A task pushes something, or takes a pointer to its own coroutine with `GetCurrent`. */
  datatype Act = Schedules(work: Work, thread: int) | TakesPointer

  /**
   What a task does while it is swapped in: `count` actions, each chosen in the state it finds, and then
   the way it swaps out.
   */
  datatype Script = Script(count: nat, act: (State, nat) -> Act, out: CState)

  function ActEvent(me: nat, act: Act): Event {
    match act
    case Schedules(work, thread) => TaskPush(me, work, thread)
    case TakesPointer => TaskGrab(me)
  }

  /** A client's task that keeps the discipline in whatever state it runs. */
  ghost predicate WellBehaved(me: nat, script: Script) {
    && !script.out.INIT?
    && forall s: State, n: nat ::
         n < script.count && me < |s.ws| && s.ws[me].pc.Running? && s.ws[me].pc.job.c in s.co ==>
           Enabled(s, ActEvent(me, script.act(s, n)))
  }

  // ---------- Traces ----------

  /** `trace` leads from `s` to `t`. */
  ghost predicate Leads(s: State, trace: seq<Event>, t: State) {
    IsRun(s, trace) && Final(s, trace) == t
  }

  lemma LeadsOn(s: State, trace: seq<Event>, t: State, ev: Event)
    requires Leads(s, trace, t) && Enabled(t, ev)
    ensures Leads(s, trace + [ev], Apply(t, ev))
  {
    RunSnoc(s, trace, ev);
  }

  lemma LeadsOnce(s: State, ev: Event)
    requires Enabled(s, ev)
    ensures Leads(s, [ev], Apply(s, ev))
  {
    RunSnoc(s, [], ev);
    assert [] + [ev] == [ev];
  }

  lemma LeadsFurther(s: State, a: seq<Event>, t: State, b: seq<Event>, u: State)
    requires Leads(s, a, t) && Leads(t, b, u)
    ensures Leads(s, a + b, u)
  {
    RunConcat(s, a, b);
  }

  lemma {:induction false} RunConcat(s: State, a: seq<Event>, b: seq<Event>)
    requires IsRun(s, a) && IsRun(Final(s, a), b)
    ensures IsRun(s, a + b) && Final(s, a + b) == Final(Final(s, a), b)
    decreases |a|
  {
    if a == [] {
      assert a + b == b;
    } else {
      assert (a + b)[1..] == a[1..] + b;
      RunConcat(Apply(s, a[0]), a[1..], b);
    }
  }

  /** The events of worker `me`. */
  function Own(trace: seq<Event>, me: nat): seq<Event> {
    if trace == [] then [] else (if ActsFor(trace[0], me) then [trace[0]] else []) + Own(trace[1..], me)
  }

  lemma {:induction false} OwnConcat(a: seq<Event>, b: seq<Event>, me: nat)
    ensures Own(a + b, me) == Own(a, me) + Own(b, me)
    decreases |a|
  {
    if a == [] {
      assert a + b == b;
    } else {
      assert (a + b)[1..] == a[1..] + b;
      OwnConcat(a[1..], b, me);
    }
  }

  lemma OwnOne(ev: Event, me: nat)
    ensures Own([ev], me) == if ActsFor(ev, me) then [ev] else []
  {
    assert Own([ev], me) == (if ActsFor(ev, me) then [ev] else []) + Own([], me);
  }

  lemma OwnSnoc(a: seq<Event>, ev: Event, me: nat)
    ensures Own(a + [ev], me) == Own(a, me) + if ActsFor(ev, me) then [ev] else []
  {
    OwnConcat(a, [ev], me);
    OwnOne(ev, me);
  }

  // ---------- Following scripts ----------

  /** How many rounds have begun, and how many actions the task of the present one has done. */
  datatype Cursor = Cursor(round: nat, done: nat)

  predicate IsAct(ev: Event, me: nat) {
    (ev.TaskPush? || ev.TaskGrab?) && ev.i == me
  }

  function Next(ev: Event, me: nat, cur: Cursor): Cursor {
    if ev == Scan(me) then Cursor(cur.round + 1, 0)
    else if IsAct(ev, me) then cur.(done := cur.done + 1)
    else cur
  }

  function After(trace: seq<Event>, me: nat, cur: Cursor): Cursor
    decreases |trace|
  {
    if trace == [] then cur else After(trace[1..], me, Next(trace[0], me, cur))
  }

  /** In state `s` the event is what the script of the present round says. */
  predicate Fits(s: State, ev: Event, me: nat, scripts: seq<Script>, cur: Cursor) {
    if ev == Scan(me) then cur.round < |scripts|
    else if IsAct(ev, me) then
      0 < cur.round <= |scripts| && cur.done < scripts[cur.round - 1].count
      && ev == ActEvent(me, scripts[cur.round - 1].act(s, cur.done))
    else if ev.EndSlice? && ev.i == me then
      0 < cur.round <= |scripts| && cur.done == scripts[cur.round - 1].count && ev.out == scripts[cur.round - 1].out
    else true
  }

  /** Round by round the worker's tasks do what the scripts say, action by action, and end as they say. */
  predicate Obeys(s: State, trace: seq<Event>, me: nat, scripts: seq<Script>, cur: Cursor)
    requires IsRun(s, trace)
    decreases |trace|
  {
    trace == [] ||
    (Fits(s, trace[0], me, scripts, cur) &&
     Obeys(Apply(s, trace[0]), trace[1..], me, scripts, Next(trace[0], me, cur)))
  }

  /** `trace` leads from `s` to `t` along the scripts, which it enters at `cur` and leaves at `cur'`. */
  ghost predicate Plays(
    s: State, trace: seq<Event>, t: State, me: nat, scripts: seq<Script>, cur: Cursor, cur': Cursor) {
    Leads(s, trace, t) && Obeys(s, trace, me, scripts, cur) && After(trace, me, cur) == cur'
  }

  lemma {:induction false} PlaysFurther(
    s: State, a: seq<Event>, t: State, b: seq<Event>, u: State, me: nat, scripts: seq<Script>,
    cur: Cursor, cur': Cursor, cur'': Cursor)
    requires Plays(s, a, t, me, scripts, cur, cur') && Plays(t, b, u, me, scripts, cur', cur'')
    ensures Plays(s, a + b, u, me, scripts, cur, cur'')
    decreases |a|
  {
    RunConcat(s, a, b);
    if a == [] {
      assert a + b == b;
    } else {
      assert (a + b)[1..] == a[1..] + b;
      PlaysFurther(Apply(s, a[0]), a[1..], t, b, u, me, scripts, Next(a[0], me, cur), cur', cur'');
    }
  }

  /** The event neither begins a round nor belongs to a task. */
  predicate Beside(ev: Event, me: nat) {
    ev != Scan(me) && !IsAct(ev, me) && !(ev.EndSlice? && ev.i == me)
  }

  lemma {:induction false} StillPlays(
    s: State, trace: seq<Event>, t: State, me: nat, scripts: seq<Script>, cur: Cursor)
    requires Leads(s, trace, t) && forall ev :: ev in Own(trace, me) ==> Beside(ev, me)
    ensures Plays(s, trace, t, me, scripts, cur, cur)
    decreases |trace|
  {
    if trace != [] {
      assert ActsFor(trace[0], me) ==> trace[0] in Own(trace, me);
      StillPlays(Apply(s, trace[0]), trace[1..], t, me, scripts, cur);
    }
  }

  /** Events of others do not move the cursor. */
  lemma OthersPlay(s: State, trace: seq<Event>, t: State, me: nat, scripts: seq<Script>, cur: Cursor)
    requires Leads(s, trace, t) && Own(trace, me) == []
    ensures Plays(s, trace, t, me, scripts, cur, cur)
  {
    StillPlays(s, trace, t, me, scripts, cur);
  }

  lemma PlaysOnce(s: State, ev: Event, me: nat, scripts: seq<Script>, cur: Cursor)
    requires Enabled(s, ev) && Fits(s, ev, me, scripts, cur)
    ensures Plays(s, [ev], Apply(s, ev), me, scripts, cur, Next(ev, me, cur))
  {
    LeadsOnce(s, ev);
    assert [ev][1..] == [];
    assert Obeys(Apply(s, ev), [], me, scripts, Next(ev, me, cur));
  }

  function Shifted(cur: Cursor, r: nat): Cursor {
    cur.(round := cur.round + r)
  }

  /** One round along its own script is round `r` along all of them. */
  lemma {:induction false} PlaysAmong(
    s: State, trace: seq<Event>, t: State, me: nat, scripts: seq<Script>, r: nat, cur: Cursor, cur': Cursor)
    requires r < |scripts| && Plays(s, trace, t, me, [scripts[r]], cur, cur')
    ensures Plays(s, trace, t, me, scripts, Shifted(cur, r), Shifted(cur', r))
    decreases |trace|
  {
    if trace != [] {
      PlaysAmong(Apply(s, trace[0]), trace[1..], t, me, scripts, r, Next(trace[0], me, cur), cur');
    }
  }
}
