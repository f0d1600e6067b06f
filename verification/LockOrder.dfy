/**
 Locks taken by the logging system (mocker/log.cpp) and by `Scheduler::start` with the semaphore it waits
 on (mocker/schedule.cpp, thread.cpp). Threads interleave one lock or semaphore action at a time.
 */
module LockOrder {
  import opened Common

  datatype Lock = Scheduler | Manager | Child(id: nat) | Root | Appender(id: nat)

  /** Whoever holds a lock takes only locks of lower rank. */
  function Rank(l: Lock): nat {
    match l
    case Scheduler => 4
    case Manager => 3
    case Child(_) => 2
    case Root => 1
    case Appender(_) => 0
  }

  /** Scoped locks are released innermost first, so `Release` names no lock. */
  datatype Act = Acquire(l: Lock) | Release | Spawn(k: nat) | Wait(k: nat) | Notify(k: nat)

  // ---------- What the operations do ----------

  /** One attached appender; a file appender locks itself in `reopen` and again to write. */
  datatype Sink = Sink(id: nat, reopens: bool)

  datatype Op =
    | LogChild(id: nat, sinks: seq<Sink>)     // a logger with appenders of its own
    | LogThroughRoot(id: nat, sinks: seq<Sink>) // one without: the root logger's appenders
    | LogRoot(sinks: seq<Sink>)
    | Locked(l: Lock)                         // getLogger, delAppender, clearAppender, schedule, a scan...
    | AddAppender(l: Lock, id: nat, inherits: bool)
    | Sweep(l: Lock, sinks: seq<Sink>)        // setFormatter or toYamlString of one logger
    | DumpAll(loggers: seq<(Lock, seq<Sink>)>) // LogManager::toYamlString
    | Start(first: nat, count: nat)           // Scheduler::start, creating threads first, first + 1, ...

  predicate IsLogger(l: Lock) {
    l.Child? || l.Root?
  }

  predicate Sensible(op: Op) {
    match op
    case AddAppender(l, _, _) => IsLogger(l)
    case Sweep(l, _) => IsLogger(l)
    case DumpAll(ls) => forall k :: 0 <= k < |ls| ==> IsLogger(ls[k].0)
    case _ => true
  }

  function Nested(l: Lock, inner: seq<Act>): seq<Act> {
    [Acquire(l)] + inner + [Release]
  }

  /** Every appender of the list in turn. */
  function Each(sinks: seq<Sink>): seq<Act> {
    if sinks == [] then []
    else
      var once := Nested(Appender(sinks[0].id), []);
      (if sinks[0].reopens then once + once else once) + Each(sinks[1..])
  }

  function EachLogger(ls: seq<(Lock, seq<Sink>)>): seq<Act>
    decreases |ls|
  {
    if ls == [] then [] else Nested(ls[0].0, Each(ls[0].1)) + EachLogger(ls[1..])
  }

  /** The loop of `start`: each `Thread` constructor creates the thread and waits for its semaphore. */
  function StartLoop(first: nat, count: nat): seq<Act>
    decreases count
  {
    if count == 0 then [] else [Spawn(first), Wait(first)] + StartLoop(first + 1, count - 1)
  }

  function Program(op: Op): seq<Act> {
    match op
    case LogChild(id, sinks) => Nested(Child(id), Each(sinks))
    case LogThroughRoot(id, sinks) => Nested(Child(id), Nested(Root, Each(sinks)))
    case LogRoot(sinks) => Nested(Root, Each(sinks))
    case Locked(l) => Nested(l, [])
    case AddAppender(l, id, inherits) => Nested(l, Each([Sink(id, inherits)]))
    case Sweep(l, sinks) => Nested(l, Each(sinks))
    case DumpAll(ls) => Nested(Manager, EachLogger(ls))
    case Start(first, count) => Nested(Scheduler, StartLoop(first, count))
  }

  function Programs(ops: seq<Op>): seq<Act> {
    if ops == [] then [] else Program(ops[0]) + Programs(ops[1..])
  }

  // ---------- The discipline ----------

  predicate Below(l: Lock, held: seq<Lock>) {
    forall k :: 0 <= k < |held| ==> Rank(l) < Rank(held[k])
  }

  /** With `held` held, every acquisition goes down in rank, and in the end exactly `end` is held. */
  predicate Ranked(held: seq<Lock>, prog: seq<Act>, end: seq<Lock>)
    decreases |prog|
  {
    if prog == [] then held == end
    else
      match prog[0]
      case Acquire(l) => Below(l, held) && Ranked(held + [l], prog[1..], end)
      case Release => held != [] && Ranked(held[..|held| - 1], prog[1..], end)
      case _ => Ranked(held, prog[1..], end)
  }

  lemma {:induction false} RankedSeq(held: seq<Lock>, p: seq<Act>, mid: seq<Lock>, q: seq<Act>, end: seq<Lock>)
    requires Ranked(held, p, mid) && Ranked(mid, q, end)
    ensures Ranked(held, p + q, end)
    decreases |p|
  {
    if p == [] {
      assert p + q == q;
    } else {
      assert (p + q)[0] == p[0] && (p + q)[1..] == p[1..] + q;
      match p[0]
      case Acquire(l) => RankedSeq(held + [l], p[1..], mid, q, end);
      case Release => RankedSeq(held[..|held| - 1], p[1..], mid, q, end);
      case _ => RankedSeq(held, p[1..], mid, q, end);
    }
  }

  lemma NestedRanked(held: seq<Lock>, l: Lock, inner: seq<Act>)
    requires Below(l, held) && Ranked(held + [l], inner, held + [l])
    ensures Ranked(held, Nested(l, inner), held)
  {
    var up := held + [l];
    assert up[..|up| - 1] == held;
    assert Ranked(held, [], held);
    assert [Release][1..] == [];
    assert Ranked(up, [Release], held);
    RankedSeq(up, inner, up, [Release], held);
    var all := Nested(l, inner);
    assert all[0] == Acquire(l) && all[1..] == inner + [Release];
  }

  lemma {:induction false} EachRanked(held: seq<Lock>, sinks: seq<Sink>)
    requires forall k :: 0 <= k < |held| ==> Rank(held[k]) > 0
    ensures Ranked(held, Each(sinks), held)
  {
    if sinks != [] {
      var l := Appender(sinks[0].id);
      NestedRanked(held, l, []);
      var once := Nested(l, []);
      RankedSeq(held, once, held, once, held);
      EachRanked(held, sinks[1..]);
      RankedSeq(held, if sinks[0].reopens then once + once else once, held, Each(sinks[1..]), held);
    }
  }

  lemma {:induction false} EachLoggerRanked(ls: seq<(Lock, seq<Sink>)>)
    requires forall k :: 0 <= k < |ls| ==> IsLogger(ls[k].0)
    ensures Ranked([Manager], EachLogger(ls), [Manager])
    decreases |ls|
  {
    if ls != [] {
      EachRanked([Manager, ls[0].0], ls[0].1);
      assert [Manager] + [ls[0].0] == [Manager, ls[0].0];
      NestedRanked([Manager], ls[0].0, Each(ls[0].1));
      EachLoggerRanked(ls[1..]);
      RankedSeq([Manager], Nested(ls[0].0, Each(ls[0].1)), [Manager], EachLogger(ls[1..]), [Manager]);
    }
  }

  lemma {:induction false} StartRanked(first: nat, count: nat)
    ensures Ranked([Scheduler], StartLoop(first, count), [Scheduler])
    decreases count
  {
    if count > 0 {
      StartRanked(first + 1, count - 1);
      var rest := StartLoop(first + 1, count - 1);
      var all := [Spawn(first), Wait(first)] + rest;
      assert all[1..] == [Wait(first)] + rest && all[1..][1..] == rest;
    }
  }

  /** Every operation respects the ranks and leaves no lock behind. */
  lemma ProgramRanked(op: Op)
    requires Sensible(op)
    ensures Ranked([], Program(op), [])
  {
    match op {
      case LogChild(id, sinks) =>
        EachRanked([] + [Child(id)], sinks);
        NestedRanked([], Child(id), Each(sinks));
      case LogThroughRoot(id, sinks) =>
        var held := [] + [Child(id)];
        EachRanked(held + [Root], sinks);
        NestedRanked(held, Root, Each(sinks));
        NestedRanked([], Child(id), Nested(Root, Each(sinks)));
      case LogRoot(sinks) =>
        EachRanked([] + [Root], sinks);
        NestedRanked([], Root, Each(sinks));
      case Locked(l) =>
        NestedRanked([], l, []);
      case AddAppender(l, id, inherits) =>
        EachRanked([] + [l], [Sink(id, inherits)]);
        NestedRanked([], l, Each([Sink(id, inherits)]));
      case Sweep(l, sinks) =>
        EachRanked([] + [l], sinks);
        NestedRanked([], l, Each(sinks));
      case DumpAll(ls) =>
        EachLoggerRanked(ls);
        assert [] + [Manager] == [Manager];
        NestedRanked([], Manager, EachLogger(ls));
      case Start(first, count) =>
        StartRanked(first, count);
        assert [] + [Scheduler] == [Scheduler];
        NestedRanked([], Scheduler, StartLoop(first, count));
    }
  }

  lemma {:induction false} ProgramsRanked(ops: seq<Op>)
    requires forall k :: 0 <= k < |ops| ==> Sensible(ops[k])
    ensures Ranked([], Programs(ops), [])
  {
    if ops != [] {
      ProgramRanked(ops[0]);
      ProgramsRanked(ops[1..]);
      RankedSeq([], Program(ops[0]), [], Programs(ops[1..]), []);
    }
  }

  // ---------- Which locks are held around an appender's ----------

  /** At every acquisition of an appender's lock, the locks held and the appender. */
  function Visits(held: seq<Lock>, prog: seq<Act>): seq<(seq<Lock>, nat)>
    decreases |prog|
  {
    if prog == [] then []
    else
      match prog[0]
      case Acquire(l) => (if l.Appender? then [(held, l.id)] else []) + Visits(held + [l], prog[1..])
      case Release => if held == [] then [] else Visits(held[..|held| - 1], prog[1..])
      case _ => Visits(held, prog[1..])
  }

  /** Every appender in turn under these locks, and twice if it reopens its file. */
  function InTurn(held: seq<Lock>, sinks: seq<Sink>): seq<(seq<Lock>, nat)> {
    if sinks == [] then []
    else
      (if sinks[0].reopens then [(held, sinks[0].id), (held, sinks[0].id)] else [(held, sinks[0].id)])
      + InTurn(held, sinks[1..])
  }

  function LoggersInTurn(ls: seq<(Lock, seq<Sink>)>): seq<(seq<Lock>, nat)> {
    if ls == [] then [] else InTurn([Manager, ls[0].0], ls[0].1) + LoggersInTurn(ls[1..])
  }

  lemma VisitsOnce(held: seq<Lock>, id: nat, rest: seq<Act>)
    ensures Visits(held, Nested(Appender(id), []) + rest) == [(held, id)] + Visits(held, rest)
  {
    var prog := Nested(Appender(id), []) + rest;
    assert prog[1..][1..] == rest;
    assert (held + [Appender(id)])[..|held|] == held;
  }

  lemma {:induction false} VisitsEach(held: seq<Lock>, sinks: seq<Sink>, rest: seq<Act>)
    ensures Visits(held, Each(sinks) + rest) == InTurn(held, sinks) + Visits(held, rest)
  {
    if sinks == [] {
      assert Each(sinks) + rest == rest;
    } else {
      VisitsEach(held, sinks[1..], rest);
      VisitsSink(held, sinks[0], Each(sinks[1..]) + rest);
      EachFirst(sinks);
      InTurnFirst(held, sinks);
      Regroup(Each([sinks[0]]), Each(sinks[1..]), rest);
      Regroup(InTurn(held, [sinks[0]]), InTurn(held, sinks[1..]), Visits(held, rest));
    }
  }

  lemma EachFirst(sinks: seq<Sink>)
    requires sinks != []
    ensures Each(sinks) == Each([sinks[0]]) + Each(sinks[1..])
  {
    assert [sinks[0]][1..] == [];
  }

  lemma InTurnFirst(held: seq<Lock>, sinks: seq<Sink>)
    requires sinks != []
    ensures InTurn(held, sinks) == InTurn(held, [sinks[0]]) + InTurn(held, sinks[1..])
  {
    assert [sinks[0]][1..] == [];
  }

  lemma VisitsSink(held: seq<Lock>, sink: Sink, more: seq<Act>)
    ensures Visits(held, Each([sink]) + more) == InTurn(held, [sink]) + Visits(held, more)
  {
    var once := Nested(Appender(sink.id), []);
    assert [sink][1..] == [];
    VisitsOnce(held, sink.id, more);
    VisitsOnce(held, sink.id, once + more);
    assert Each([sink]) + more == if sink.reopens then once + (once + more) else once + more;
  }

  /** A block with its lock released behind it, in front of the rest. */
  lemma VisitsNested(held: seq<Lock>, l: Lock, sinks: seq<Sink>, rest: seq<Act>)
    requires !l.Appender?
    ensures Visits(held, Nested(l, Each(sinks)) + rest) == InTurn(held + [l], sinks) + Visits(held, rest)
  {
    var prog := Nested(l, Each(sinks)) + rest;
    var up := held + [l];
    assert prog[0] == Acquire(l) && prog[1..] == Each(sinks) + ([Release] + rest);
    VisitsEach(up, sinks, [Release] + rest);
    assert ([Release] + rest)[1..] == rest && up[..|up| - 1] == held;
  }

  lemma {:induction false} VisitsLoggers(ls: seq<(Lock, seq<Sink>)>, rest: seq<Act>)
    requires forall k :: 0 <= k < |ls| ==> IsLogger(ls[k].0)
    ensures Visits([Manager], EachLogger(ls) + rest) == LoggersInTurn(ls) + Visits([Manager], rest)
    decreases |ls|
  {
    if ls == [] {
      assert EachLogger(ls) + rest == rest;
    } else {
      VisitsLoggers(ls[1..], rest);
      assert [Manager] + [ls[0].0] == [Manager, ls[0].0];
      VisitsNested([Manager], ls[0].0, ls[0].1, EachLogger(ls[1..]) + rest);
      LoggersFirst(ls, rest);
    }
  }

  lemma LoggersFirst(ls: seq<(Lock, seq<Sink>)>, rest: seq<Act>)
    requires ls != []
    ensures EachLogger(ls) + rest == Nested(ls[0].0, Each(ls[0].1)) + (EachLogger(ls[1..]) + rest)
  {
  }

  /** The visits of one operation that goes through one logger's appenders. */
  lemma VisitsBlock(l: Lock, sinks: seq<Sink>)
    requires !l.Appender?
    ensures Visits([], Nested(l, Each(sinks))) == InTurn([l], sinks)
  {
    VisitsNested([], l, sinks, []);
    assert Nested(l, Each(sinks)) + [] == Nested(l, Each(sinks));
    assert [] + [l] == [l];
  }

  /**
   Which locks each operation holds while it is at an appender: its logger's, on the way through the root
   both, and the manager's too while it dumps everything. No other operation takes an appender's lock.
   */
  lemma AppendersVisited(op: Op)
    requires Sensible(op) && (op.Locked? ==> !op.l.Appender?)
    ensures match op
            case LogChild(id, sinks) => Visits([], Program(op)) == InTurn([Child(id)], sinks)
            case LogThroughRoot(id, sinks) => Visits([], Program(op)) == InTurn([Child(id), Root], sinks)
            case LogRoot(sinks) => Visits([], Program(op)) == InTurn([Root], sinks)
            case Locked(_) => Visits([], Program(op)) == []
            case AddAppender(l, id, inherits) => Visits([], Program(op)) == InTurn([l], [Sink(id, inherits)])
            case Sweep(l, sinks) => Visits([], Program(op)) == InTurn([l], sinks)
            case DumpAll(ls) => Visits([], Program(op)) == LoggersInTurn(ls)
            case Start(_, _) => Visits([], Program(op)) == []
  {
    match op
    case LogChild(id, sinks) => VisitsBlock(Child(id), sinks);
    case LogThroughRoot(id, sinks) => VisitsThroughRoot(id, sinks);
    case LogRoot(sinks) => VisitsBlock(Root, sinks);
    case Locked(l) => VisitsBlock(l, []);
    case AddAppender(l, id, inherits) => VisitsBlock(l, [Sink(id, inherits)]);
    case Sweep(l, sinks) => VisitsBlock(l, sinks);
    case DumpAll(ls) => VisitsDump(ls);
    case Start(first, count) => VisitsStart(first, count);
  }

  lemma VisitsThroughRoot(id: nat, sinks: seq<Sink>)
    ensures Visits([], Nested(Child(id), Nested(Root, Each(sinks)))) == InTurn([Child(id), Root], sinks)
  {
    var prog := Nested(Child(id), Nested(Root, Each(sinks)));
    assert prog[0] == Acquire(Child(id)) && prog[1..] == Nested(Root, Each(sinks)) + [Release];
    VisitsNested([Child(id)], Root, sinks, [Release]);
    assert [] + [Child(id)] == [Child(id)] && [Child(id)] + [Root] == [Child(id), Root];
    assert Visits([Child(id)], [Release]) == [];
  }

  lemma {:induction false} VisitsDump(ls: seq<(Lock, seq<Sink>)>)
    requires forall k :: 0 <= k < |ls| ==> IsLogger(ls[k].0)
    ensures Visits([], Nested(Manager, EachLogger(ls))) == LoggersInTurn(ls)
  {
    var prog := Nested(Manager, EachLogger(ls));
    assert prog[0] == Acquire(Manager) && prog[1..] == EachLogger(ls) + [Release];
    VisitsLoggers(ls, [Release]);
    assert [] + [Manager] == [Manager];
    assert Visits([Manager], [Release]) == [];
  }

  lemma VisitsStart(first: nat, count: nat)
    ensures Visits([], Nested(Scheduler, StartLoop(first, count))) == []
  {
    var prog := Nested(Scheduler, StartLoop(first, count));
    assert prog[0] == Acquire(Scheduler) && prog[1..] == StartLoop(first, count) + [Release];
    VisitsLoop(first, count);
    assert [] + [Scheduler] == [Scheduler];
  }

  lemma {:induction false} VisitsLoop(first: nat, count: nat)
    ensures Visits([Scheduler], StartLoop(first, count) + [Release]) == []
    decreases count
  {
    if count > 0 {
      VisitsLoop(first + 1, count - 1);
      var all := StartLoop(first, count) + [Release];
      assert all[1..][1..] == StartLoop(first + 1, count - 1) + [Release];
    }
  }

  // ---------- Threads ----------

  /** `sem` is the count of the semaphore of the `Thread` object that owns this thread. */
  datatype Thread = Thread(started: bool, sem: nat, held: seq<Lock>, prog: seq<Act>)

  type System = seq<Thread>

  predicate Free(s: System, l: Lock) {
    forall u :: 0 <= u < |s| ==> l !in s[u].held
  }

  predicate CanStep(s: System, t: nat) {
    && t < |s| && s[t].started && s[t].prog != []
    && match s[t].prog[0]
       case Acquire(l) => Free(s, l)
       case Release => s[t].held != []
       case Spawn(k) => k < |s| && k != t
       case Wait(k) => k < |s| && k != t && s[k].sem > 0
       case Notify(k) => k == t
  }

  function Step(s: System, t: nat): System
    requires CanStep(s, t)
  {
    var rest := s[t].prog[1..];
    match s[t].prog[0]
    case Acquire(l) => s[t := s[t].(prog := rest, held := s[t].held + [l])]
    case Release => s[t := s[t].(prog := rest, held := s[t].held[..|s[t].held| - 1])]
    case Spawn(k) => s[t := s[t].(prog := rest)][k := s[k].(started := true)]
    case Wait(k) => s[t := s[t].(prog := rest)][k := s[k].(sem := s[k].sem - 1)]
    case Notify(_) => s[t := s[t].(prog := rest, sem := s[t].sem + 1)]
  }

  predicate Waits(s: System, t: nat, j: nat, k: nat) {
    t < |s| && j < |s[t].prog| && s[t].prog[j] == Wait(k)
  }

  predicate Spawned(s: System, t: nat, j: nat, k: nat)
    requires Waits(s, t, j, k)
  {
    k < |s| && k != t && (s[k].started || exists i :: 0 <= i < j && s[t].prog[i] == Spawn(k))
  }

  /** `Thread::Run` notifies before it calls the task. */
  predicate AboutToNotify(s: System, k: nat) {
    k < |s| && s[k].prog != [] && s[k].prog[0] == Notify(k)
  }

  /** Each `Wait` belongs to one `Thread` constructor: it creates the thread first and waits once. */
  ghost predicate Handshake(s: System) {
    && (forall t: nat, j: nat, k: nat :: Waits(s, t, j, k) ==>
                                           Spawned(s, t, j, k) && (s[k].sem > 0 || AboutToNotify(s, k)))
    && (forall t: nat, j: nat, u: nat, i: nat, k: nat :: Waits(s, t, j, k) && Waits(s, u, i, k) ==> t == u && j == i)
  }

  /** A fresh system: whatever the threads do respects the ranks, and nobody holds anything. */
  ghost predicate Init(s: System) {
    && (forall t :: 0 <= t < |s| ==> s[t].held == [] && Ranked([], s[t].prog, []))
    && (forall t, j :: 0 <= t < |s| && 0 <= j < |s[t].prog| && s[t].prog[j].Spawn? ==>
                         s[t].prog[j].k < |s| && s[t].prog[j].k != t)
    && (forall t, j :: 0 <= t < |s| && 0 <= j < |s[t].prog| && s[t].prog[j].Notify? ==> s[t].prog[j].k == t)
    && Handshake(s)
  }

  predicate IsRun(s: System, ts: seq<nat>)
    decreases |ts|
  {
    ts == [] || (CanStep(s, ts[0]) && IsRun(Step(s, ts[0]), ts[1..]))
  }

  function Final(s: System, ts: seq<nat>): System
    requires IsRun(s, ts)
    decreases |ts|
  {
    if ts == [] then s else Final(Step(s, ts[0]), ts[1..])
  }

  // ---------- The invariant ----------

  predicate Descending(held: seq<Lock>) {
    forall i, j :: 0 <= i < j < |held| ==> Rank(held[j]) < Rank(held[i])
  }

  predicate LocalOk(s: System, t: int)
    requires 0 <= t < |s|
  {
    && Ranked(s[t].held, s[t].prog, []) && Descending(s[t].held)
    && (!s[t].started ==> s[t].held == [])
    && (forall j :: 0 <= j < |s[t].prog| && s[t].prog[j].Spawn? ==> s[t].prog[j].k < |s| && s[t].prog[j].k != t)
    && (forall j :: 0 <= j < |s[t].prog| && s[t].prog[j].Notify? ==> s[t].prog[j].k == t)
  }

  ghost predicate Inv(s: System) {
    (forall t :: 0 <= t < |s| ==> LocalOk(s, t)) && Exclusive(s) && Handshake(s)
  }

  /** No lock is held by two threads. */
  predicate Exclusive(s: System) {
    forall t, u, l :: 0 <= t < |s| && 0 <= u < |s| && l in s[t].held && l in s[u].held ==> t == u
  }

  lemma StepKeepsLocal(s: System, t: nat, u: nat)
    requires Inv(s) && CanStep(s, t) && u < |s|
    ensures LocalOk(Step(s, t), u)
  {
    assert LocalOk(s, t) && LocalOk(s, u);
    var s' := Step(s, t);
    if u == t {
      assert forall j :: 0 <= j < |s'[t].prog| ==> s'[t].prog[j] == s[t].prog[j + 1];
    }
  }

  lemma StepKeepsExclusive(s: System, t: nat)
    requires Inv(s) && CanStep(s, t)
    ensures Exclusive(Step(s, t))
  {
    var s' := Step(s, t);
    assert forall u :: 0 <= u < |s| && u != t ==> s'[u].held == s[u].held;
    if s[t].prog[0].Acquire? {
      assert forall l :: l in s'[t].held ==> l in s[t].held || Free(s, l);
    } else {
      assert forall l :: l in s'[t].held ==> l in s[t].held;
    }
  }

  /** Programs only lose their first action. */
  lemma WaitsBefore(s: System, t: nat, u: nat, j: nat, k: nat)
    requires CanStep(s, t) && Waits(Step(s, t), u, j, k)
    ensures Waits(s, u, if u == t then j + 1 else j, k)
  {
  }

  lemma StepKeepsSpawned(s: System, t: nat, u: nat, j: nat, k: nat)
    requires Inv(s) && CanStep(s, t) && Waits(Step(s, t), u, j, k)
    ensures Spawned(Step(s, t), u, j, k)
  {
    WaitsBefore(s, t, u, j, k);
    var s' := Step(s, t);
    var j0 := if u == t then j + 1 else j;
    assert Spawned(s, u, j0, k);
    if !s[k].started {
      var i :| 0 <= i < j0 && s[u].prog[i] == Spawn(k);
      if u == t && i == 0 {
        assert s'[k].started;
      } else {
        var i' := if u == t then i - 1 else i;
        assert s'[u].prog[i'] == Spawn(k);
      }
    }
  }

  lemma StepKeepsPosted(s: System, t: nat, u: nat, j: nat, k: nat)
    requires Inv(s) && CanStep(s, t) && Waits(Step(s, t), u, j, k)
    ensures k < |s| && (Step(s, t)[k].sem > 0 || AboutToNotify(Step(s, t), k))
  {
    assert s[t].prog[0] == Wait(k) ==> Waits(s, t, 0, k);
    WaitsBefore(s, t, u, j, k);
    var j0 := if u == t then j + 1 else j;
    assert Spawned(s, u, j0, k);
    assert s[k].sem > 0 || AboutToNotify(s, k);
  }

  lemma StepKeepsHandshake(s: System, t: nat)
    requires Inv(s) && CanStep(s, t)
    ensures Handshake(Step(s, t))
  {
    var s' := Step(s, t);
    forall u: nat, j: nat, k: nat | Waits(s', u, j, k)
      ensures Spawned(s', u, j, k) && (s'[k].sem > 0 || AboutToNotify(s', k))
    {
      StepKeepsSpawned(s, t, u, j, k);
      StepKeepsPosted(s, t, u, j, k);
    }
    forall u: nat, j: nat, v: nat, i: nat, k: nat | Waits(s', u, j, k) && Waits(s', v, i, k)
      ensures u == v && j == i
    {
      WaitsBefore(s, t, u, j, k);
      WaitsBefore(s, t, v, i, k);
    }
  }

  lemma StepKeeps(s: System, t: nat)
    requires Inv(s) && CanStep(s, t)
    ensures Inv(Step(s, t))
  {
    forall u | 0 <= u < |s| ensures LocalOk(Step(s, t), u) {
      StepKeepsLocal(s, t, u);
    }
    StepKeepsExclusive(s, t);
    StepKeepsHandshake(s, t);
  }

  lemma {:induction false} RunKeeps(s: System, ts: seq<nat>)
    requires Inv(s) && IsRun(s, ts)
    ensures Inv(Final(s, ts))
    decreases |ts|
  {
    if ts != [] {
      StepKeeps(s, ts[0]);
      RunKeeps(Step(s, ts[0]), ts[1..]);
    }
  }

  // ---------- Deadlock freedom ----------

  lemma HoldersAreUnfinished(s: System, u: nat, l: Lock)
    requires Inv(s) && u < |s| && l in s[u].held
    ensures s[u].started && s[u].prog != []
  {
    assert LocalOk(s, u);
  }

  lemma WaitedForCanStep(s: System, t: nat)
    requires Inv(s) && t < |s| && s[t].started && s[t].prog != [] && s[t].prog[0].Wait?
    ensures CanStep(s, t) || CanStep(s, s[t].prog[0].k)
  {
    var k := s[t].prog[0].k;
    assert Waits(s, t, 0, k);
    assert Spawned(s, t, 0, k);
  }

  /** Follow the chain from a blocked thread to the holder of the lock it wants: ranks go down. */
  lemma {:induction false} SomeoneSteps(s: System, t: nat) returns (u: nat)
    requires Inv(s) && t < |s| && s[t].started && s[t].prog != []
    ensures CanStep(s, u)
    decreases if s[t].prog[0].Acquire? then Rank(s[t].prog[0].l) + 1 else 0
  {
    assert LocalOk(s, t);
    if CanStep(s, t) {
      return t;
    }
    match s[t].prog[0] {
      case Acquire(l) =>
        u :| 0 <= u < |s| && l in s[u].held;
        HoldersAreUnfinished(s, u, l);
        assert LocalOk(s, u);
        u := SomeoneSteps(s, u);
      case Wait(k) =>
        WaitedForCanStep(s, t);
        u := k;
      case Release =>
      case Spawn(k) =>
      case Notify(k) =>
    }
  }

  /** In every reachable state with an unfinished thread, some thread can take its next action. */
  lemma DeadlockFree(s: System, ts: seq<nat>, t: nat) returns (u: nat)
    requires Init(s) && IsRun(s, ts)
    requires var f := Final(s, ts); t < |f| && f[t].started && f[t].prog != []
    ensures CanStep(Final(s, ts), u)
  {
    RunKeeps(s, ts);
    u := SomeoneSteps(Final(s, ts), t);
  }

  /** No thread ever asks for a lock it holds itself: the locks are not recursive. */
  lemma NeverSelfBlocked(s: System, ts: seq<nat>, t: nat)
    requires Init(s) && IsRun(s, ts)
    requires var f := Final(s, ts); t < |f| && f[t].prog != [] && f[t].prog[0].Acquire?
    ensures var f := Final(s, ts); f[t].prog[0].l !in f[t].held
  {
    RunKeeps(s, ts);
    var f := Final(s, ts);
    assert LocalOk(f, t);
    assert Below(f[t].prog[0].l, f[t].held);
  }

  // ---------- All runs end with every thread done ----------

  function ActionsLeft(s: System): nat {
    if s == [] then 0 else |s[0].prog| + ActionsLeft(s[1..])
  }

  lemma {:induction false} ActionsUpdate(s: System, t: nat, x: Thread)
    requires t < |s|
    ensures ActionsLeft(s[t := x]) == ActionsLeft(s) - |s[t].prog| + |x.prog|
  {
    if t > 0 {
      assert s[t := x][1..] == s[1..][t - 1 := x];
      ActionsUpdate(s[1..], t - 1, x);
    } else {
      assert s[t := x][1..] == s[1..];
    }
  }

  lemma StepUsesAction(s: System, t: nat)
    requires CanStep(s, t)
    ensures ActionsLeft(Step(s, t)) == ActionsLeft(s) - 1
  {
    var rest := s[t].prog[1..];
    match s[t].prog[0] {
      case Acquire(l) => ActionsUpdate(s, t, s[t].(prog := rest, held := s[t].held + [l]));
      case Release => ActionsUpdate(s, t, s[t].(prog := rest, held := s[t].held[..|s[t].held| - 1]));
      case Spawn(k) =>
        ActionsUpdate(s, t, s[t].(prog := rest));
        ActionsUpdate(s[t := s[t].(prog := rest)], k, s[k].(started := true));
      case Wait(k) =>
        ActionsUpdate(s, t, s[t].(prog := rest));
        ActionsUpdate(s[t := s[t].(prog := rest)], k, s[k].(sem := s[k].sem - 1));
      case Notify(_) => ActionsUpdate(s, t, s[t].(prog := rest, sem := s[t].sem + 1));
    }
  }

  predicate AllDone(s: System) {
    forall t :: 0 <= t < |s| && s[t].started ==> s[t].prog == [] && s[t].held == []
  }

  /** A run never exceeds the actions there are, and one that cannot go on has finished every thread. */
  lemma {:induction false} RunsFinish(s: System, ts: seq<nat>)
    requires Inv(s) && IsRun(s, ts)
    ensures |ts| <= ActionsLeft(s)
    ensures (forall t: nat :: !CanStep(Final(s, ts), t)) ==> AllDone(Final(s, ts))
    decreases |ts|
  {
    if ts == [] {
      forall t | 0 <= t < |s| && s[t].started && !(exists u: nat :: CanStep(s, u))
        ensures s[t].prog == [] && s[t].held == []
      {
        assert LocalOk(s, t);
        if s[t].prog != [] {
          var u := SomeoneSteps(s, t);
        }
      }
    } else {
      StepUsesAction(s, ts[0]);
      StepKeeps(s, ts[0]);
      RunsFinish(Step(s, ts[0]), ts[1..]);
    }
  }

  // ---------- A scheduler being started while everybody logs ----------

  predicate IsLock(a: Act) {
    a.Acquire? || a.Release?
  }

  predicate OnlyLocks(p: seq<Act>) {
    forall j :: 0 <= j < |p| ==> IsLock(p[j])
  }

  lemma {:induction false} EachOnlyLocks(sinks: seq<Sink>)
    ensures OnlyLocks(Each(sinks))
  {
    if sinks != [] {
      EachOnlyLocks(sinks[1..]);
    }
  }

  lemma {:induction false} EachLoggerOnlyLocks(ls: seq<(Lock, seq<Sink>)>)
    ensures OnlyLocks(EachLogger(ls))
    decreases |ls|
  {
    if ls != [] {
      EachOnlyLocks(ls[0].1);
      EachLoggerOnlyLocks(ls[1..]);
    }
  }

  lemma ProgramOnlyLocks(op: Op)
    requires !op.Start?
    ensures OnlyLocks(Program(op))
  {
    match op {
      case LogChild(_, sinks) => EachOnlyLocks(sinks);
      case LogThroughRoot(_, sinks) => EachOnlyLocks(sinks);
      case LogRoot(sinks) => EachOnlyLocks(sinks);
      case Locked(_) =>
      case AddAppender(_, id, inherits) => EachOnlyLocks([Sink(id, inherits)]);
      case Sweep(_, sinks) => EachOnlyLocks(sinks);
      case DumpAll(ls) => EachLoggerOnlyLocks(ls);
    }
  }

  lemma {:induction false} ProgramsOnlyLocks(ops: seq<Op>)
    requires forall k :: 0 <= k < |ops| ==> !ops[k].Start?
    ensures OnlyLocks(Programs(ops))
  {
    if ops != [] {
      ProgramOnlyLocks(ops[0]);
      ProgramsOnlyLocks(ops[1..]);
    }
  }

  lemma {:induction false} StartLoopAt(first: nat, count: nat)
    ensures var p := StartLoop(first, count);
            && |p| == 2 * count
            && forall j :: 0 <= j < |p| ==> p[j] == if j % 2 == 0 then Spawn(first + j / 2) else Wait(first + j / 2)
    decreases count
  {
    if count > 0 {
      StartLoopAt(first + 1, count - 1);
      var p := StartLoop(first, count);
      var rest := StartLoop(first + 1, count - 1);
      assert forall j :: 2 <= j < |p| ==> p[j] == rest[j - 2];
    }
  }

  lemma LoopAt(first: nat, count: nat, k: nat)
    requires k < count
    ensures |StartLoop(first, count)| == 2 * count
    ensures StartLoop(first, count)[2 * k] == Spawn(first + k) && StartLoop(first, count)[2 * k + 1] == Wait(first + k)
  {
    StartLoopAt(first, count);
    assert StartLoop(first, count)[2 * k + 1] == Wait(first + (2 * k + 1) / 2);
  }

  /** What comes before the operations of a thread. */
  function Prelude(n: nat, t: nat): seq<Act> {
    if t == 0 then Program(Start(1, n)) else if t <= n then [Notify(t)] else []
  }

  /**
   Thread 0 calls `start` for a pool of `n` and goes on; threads 1 to n are the pool; the rest are other
   threads of the program. After `start`, everybody does any logging and scheduling operations.
   */
  predicate Launch(s: System, n: nat, ops: seq<seq<Op>>) {
    && n < |s| == |ops|
    && (forall t, k :: 0 <= t < |s| && 0 <= k < |ops[t]| ==> Sensible(ops[t][k]) && !ops[t][k].Start?)
    && forall t :: 0 <= t < |s| ==>
                     && s[t].held == [] && s[t].sem == 0
                     && s[t].started == !(1 <= t <= n)
                     && s[t].prog == Prelude(n, t) + Programs(ops[t])
  }

  lemma LaunchRanked(s: System, n: nat, ops: seq<seq<Op>>, t: nat)
    requires Launch(s, n, ops) && t < |s|
    ensures Ranked([], s[t].prog, []) && OnlyLocks(Programs(ops[t]))
  {
    var rest := Programs(ops[t]);
    ProgramsRanked(ops[t]);
    ProgramsOnlyLocks(ops[t]);
    if t == 0 {
      ProgramRanked(Start(1, n));
      RankedSeq([], Program(Start(1, n)), [], rest, []);
    } else if t <= n {
      assert ([Notify(t)] + rest)[1..] == rest;
    } else {
      assert [] + rest == rest;
    }
  }

  lemma NestedAt(l: Lock, inner: seq<Act>, j: nat)
    requires j < |Nested(l, inner)| && !IsLock(Nested(l, inner)[j])
    ensures 1 <= j <= |inner| && Nested(l, inner)[j] == inner[j - 1]
  {
    var all := Nested(l, inner);
    assert all[0] == Acquire(l) && all[|inner| + 1] == Release;
  }

  /** What `start` itself does, position by position. */
  lemma StartAt(n: nat, j: nat)
    requires j < |Program(Start(1, n))| && !IsLock(Program(Start(1, n))[j])
    ensures 1 <= j <= 2 * n
    ensures Program(Start(1, n))[j] == if j % 2 == 1 then Spawn(1 + (j - 1) / 2) else Wait(1 + (j - 1) / 2)
  {
    NestedAt(Scheduler, StartLoop(1, n), j);
    StartLoopAt(1, n);
  }

  /** The only actions that are not locks: spawns and waits in thread 0, a first notify in the pool. */
  lemma LaunchActions(s: System, n: nat, ops: seq<seq<Op>>, t: nat, j: nat)
    requires Launch(s, n, ops) && t < |s| && j < |s[t].prog| && !IsLock(s[t].prog[j])
    ensures if t == 0 then j < |Program(Start(1, n))| && s[t].prog[j] == Program(Start(1, n))[j]
            else 1 <= t <= n && j == 0 && s[t].prog[j] == Notify(t)
  {
    LaunchRanked(s, n, ops, t);
    InPrelude(Prelude(n, t), Programs(ops[t]), j);
  }

  lemma InPrelude(head: seq<Act>, rest: seq<Act>, j: nat)
    requires j < |head + rest| && !IsLock((head + rest)[j]) && OnlyLocks(rest)
    ensures j < |head| && (head + rest)[j] == head[j]
  {
    assert forall i :: |head| <= i < |head + rest| ==> (head + rest)[i] == rest[i - |head|];
  }

  lemma LaunchSpawns(s: System, n: nat, ops: seq<seq<Op>>, t: nat, j: nat)
    requires Launch(s, n, ops) && t < |s| && j < |s[t].prog|
    ensures s[t].prog[j].Spawn? ==> s[t].prog[j].k < |s| && s[t].prog[j].k != t
    ensures s[t].prog[j].Notify? ==> s[t].prog[j].k == t
  {
    if !IsLock(s[t].prog[j]) {
      LaunchActions(s, n, ops, t, j);
      if t == 0 {
        StartAt(n, j);
      }
    }
  }

  /** `start` stands at the beginning of the program of thread 0. */
  lemma StartFirst(s: System, n: nat, ops: seq<seq<Op>>)
    requires Launch(s, n, ops)
    ensures s[0].prog == Program(Start(1, n)) + Programs(ops[0])
  {
    assert s[0].prog == Prelude(n, 0) + Programs(ops[0]);
  }

  lemma SpawnAt(n: nat, k: nat, rest: seq<Act>)
    requires 1 <= k <= n
    ensures 2 * k - 1 < |Program(Start(1, n)) + rest| && (Program(Start(1, n)) + rest)[2 * k - 1] == Spawn(k)
  {
    LoopAt(1, n, k - 1);
    InNested(Scheduler, StartLoop(1, n), rest, 2 * (k - 1));
  }

  lemma InNested(l: Lock, inner: seq<Act>, rest: seq<Act>, j: nat)
    requires j < |inner|
    ensures (Nested(l, inner) + rest)[j + 1] == inner[j]
  {
  }

  lemma WaitAt(n: nat, j: nat, k: nat)
    requires j < |Program(Start(1, n))| && Program(Start(1, n))[j] == Wait(k)
    ensures j == 2 * k && 1 <= k <= n
  {
    StartAt(n, j);
  }

  lemma LaunchWaits(s: System, n: nat, ops: seq<seq<Op>>, t: nat, j: nat, k: nat)
    requires Launch(s, n, ops) && Waits(s, t, j, k)
    ensures t == 0 && j == 2 * k && 1 <= k <= n && s[0].prog[j - 1] == Spawn(k)
  {
    LaunchActions(s, n, ops, t, j);
    WaitAt(n, j, k);
    StartFirst(s, n, ops);
    SpawnAt(n, k, Programs(ops[0]));
  }

  lemma LaunchIsInit(s: System, n: nat, ops: seq<seq<Op>>)
    requires Launch(s, n, ops)
    ensures Init(s)
  {
    forall t | 0 <= t < |s| ensures Ranked([], s[t].prog, []) {
      LaunchRanked(s, n, ops, t);
    }
    forall t, j | 0 <= t < |s| && 0 <= j < |s[t].prog|
      ensures s[t].prog[j].Spawn? ==> s[t].prog[j].k < |s| && s[t].prog[j].k != t
      ensures s[t].prog[j].Notify? ==> s[t].prog[j].k == t
    {
      LaunchSpawns(s, n, ops, t, j);
    }
    forall t: nat, j: nat, k: nat | Waits(s, t, j, k)
      ensures t == 0 && j == 2 * k && Spawned(s, t, j, k) && AboutToNotify(s, k)
    {
      LaunchWaits(s, n, ops, t, j, k);
    }
  }

  /** Thread `k` runs, or some thread that runs is still to start it. */
  predicate WillStart(s: System, k: nat) {
    k < |s| && (s[k].started || exists t: nat :: t < |s| && s[t].started && Spawn(k) in s[t].prog)
  }

  lemma WillStartStep(s: System, t: nat, k: nat)
    requires CanStep(s, t) && WillStart(s, k)
    ensures WillStart(Step(s, t), k)
  {
    var s' := Step(s, t);
    if !s[k].started {
      var u: nat :| u < |s| && s[u].started && Spawn(k) in s[u].prog;
      if u == t {
        assert s[t].prog == [s[t].prog[0]] + s[t].prog[1..];
        assert s[t].prog[0] == Spawn(k) || Spawn(k) in s'[u].prog;
      } else {
        assert s'[u].prog == s[u].prog;
      }
    }
  }

  lemma {:induction false} WillStartRun(s: System, ts: seq<nat>, k: nat)
    requires IsRun(s, ts) && WillStart(s, k)
    ensures WillStart(Final(s, ts), k)
    decreases |ts|
  {
    if ts != [] {
      WillStartStep(s, ts[0], k);
      WillStartRun(Step(s, ts[0]), ts[1..], k);
    }
  }

  lemma {:induction false} SameThreads(s: System, ts: seq<nat>)
    requires IsRun(s, ts)
    ensures |Final(s, ts)| == |s| && forall t :: 0 <= t < |s| && s[t].started ==> Final(s, ts)[t].started
    decreases |ts|
  {
    if ts != [] { SameThreads(Step(s, ts[0]), ts[1..]); }
  }

  lemma LaunchStarts(s: System, n: nat, ops: seq<seq<Op>>, k: nat)
    requires Launch(s, n, ops) && k < |s|
    ensures WillStart(s, k)
  {
    if 1 <= k <= n {
      SpawnStands(s, n, ops, k);
      assert s[0].started;
    }
  }

  lemma SpawnStands(s: System, n: nat, ops: seq<seq<Op>>, k: nat)
    requires Launch(s, n, ops) && 1 <= k <= n
    ensures Spawn(k) in s[0].prog
  {
    StartFirst(s, n, ops);
    SpawnAt(n, k, Programs(ops[0]));
  }

  /**
   Any run of such a program is bounded, and one that cannot go on has started and finished every thread, those
   of the pool included: `start` may hold the scheduler's lock across the `Thread` constructors.
   */
  lemma StartNeverDeadlocks(s: System, n: nat, ops: seq<seq<Op>>, ts: seq<nat>)
    requires Launch(s, n, ops) && IsRun(s, ts)
    ensures |ts| <= ActionsLeft(s)
    ensures |Final(s, ts)| == |s|
    ensures (forall t: nat :: !CanStep(Final(s, ts), t)) ==>
              forall t :: 0 <= t < |s| ==> Final(s, ts)[t].started && Final(s, ts)[t].prog == []
  {
    LaunchIsInit(s, n, ops);
    RunsFinish(s, ts);
    SameThreads(s, ts);
    forall t: nat | t < |s| ensures WillStart(Final(s, ts), t) {
      LaunchStarts(s, n, ops, t);
      WillStartRun(s, ts, t);
    }
    AllFinish(Final(s, ts));
  }

  lemma AllFinish(s: System)
    requires forall t: nat :: t < |s| ==> WillStart(s, t)
    ensures AllDone(s) ==> forall t :: 0 <= t < |s| ==> s[t].started && s[t].prog == []
  {
    forall t | 0 <= t < |s| && AllDone(s) ensures s[t].started { assert WillStart(s, t); }
  }
}
