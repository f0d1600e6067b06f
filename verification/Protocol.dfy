/**
 The scheduler as a transition system (mocker/schedule.cpp, schedule.h, coroutine.cpp).

 N workers run `Scheduler::run` at the same time over one shared list. Every event below is one
 indivisible action of one thread: the scan is one event because it holds `m_mutex`, while the
 decrement of `m_activeThreadCount` and the re-queue of a yielded coroutine are two events, so any
 other thread may act between them.

 What the code permits is `Possible`; what a well-behaved client adds to that is `Disciplined`.
 */
module SchedulerProtocol {
  import opened Common

  type Cid = nat

  /** The value -1 of `ContextOfExecute::thread`: the entry may run anywhere. */
  const ANY_THREAD := -1

  datatype CState = INIT | READY | EXEC | HOLD | TERM | EXCEPT

  predicate Finished(st: CState) {
    st.TERM? || st.EXCEPT?
  }

  /** Where `swapcontext` into a saved context would continue; `inner` means inside `Yield` or `Sleep`. */
  datatype Resume = AtEntry | Suspended(inner: bool) | PastEnd | Live

  predicate Resumable(r: Resume) {
    r.AtEntry? || r.Suspended?
  }

  /** The coroutines one thread switches between: its own, the caller's root, its idle one and tasks. */
  datatype Frame = ThreadMain | Root | Idle | Task(c: Cid)

  /**
   The thread-locals of one thread and its saved contexts; the context of a task is in its coroutine.
   `current` is `t_coroutine` of coroutine.cpp, `sched` that of schedule.cpp, and `chain` the history of
   switches not yet returned from.
   */
  datatype Stack = Stack(
    current: Option<Frame>,
    sched: Option<Frame>,
    main: Resume,
    root: Resume,
    idle: Resume,
    chain: seq<Frame>)

  /** What a list entry carries: a coroutine or a callback. */
  datatype Work = Co(c: Cid) | Cb(f: nat)

  /** One list node. `ticket` is the node's identity: pushes are numbered in order. */
  datatype Entry = Entry(work: Work, thread: int, ticket: nat)

  /** A slice of execution: the coroutine swapped in, the push it serves, and the branch of `run`. */
  datatype Job = Job(c: Cid, ticket: nat, viaCb: bool)

  datatype Pc =
    | NotStarted            // the caller's worker before `stop` calls the root coroutine
    | Entering              // first lines of `run`
    | Top                   // about to scan
    | Took(e: Entry)        // scan erased an entry and incremented the counter
    | NoWork                // nothing in `coe`, about to look at the idle coroutine
    | InIdle                // idle coroutine swapped in, about to evaluate `stopping()`
    | Running(job: Job)     // task swapped in
    | Swapped(job: Job)     // task swapped out, counter not yet decremented
    | Settling(job: Job)    // counter decremented, task not yet re-queued, parked or dropped
    | Discarding(e: Entry)  // the entry's coroutine had finished already
    | Leaving               // left the loop
    | Exited                // thread function returned

  /** Locals of one `run`, its idle coroutine's state and its `cb_coroutine`, and its thread's contexts. */
  datatype Worker = Worker(tid: int, pc: Pc, idle: CState, slot: Option<Cid>, stack: Stack)

  /** Where the one token of a coroutine is: with its clients, with a push, or in a `cb_coroutine`. */
  datatype Loc = Parked | Out(ticket: nat) | Slot(i: nat)

  /** `loc` is history; `clients` counts the shared pointers held outside the scheduler. */
  datatype Coroutine = Coroutine(state: CState, loc: Loc, ctx: Resume, clients: nat)

  datatype Place = Queued | Hand(i: nat) | Retired

  /** History of one push: where its entry is now and how many times it was swapped in. */
  datatype Push = Push(work: Work, thread: int, place: Place, slices: nat)

  /** Progress of the one call of `stop`. */
  datatype Control = Open | AutoSet | StopSet | Joining | Stopped

  datatype State = State(
    queue: seq<Entry>,
    active: int,
    autoStop: bool,
    stopping: bool,
    hasRoot: bool,
    ws: seq<Worker>,
    co: map<Cid, Coroutine>,
    control: Control,
    log: seq<Push>)

  datatype Event =
    | Enter(i: nat)
    | Scan(i: nat)
    | SwapIn(i: nat, spare: Cid)
    | EndSlice(i: nat, out: CState)
    | Decrement(i: nat)
    | Settle(i: nat)
    | IdleTest(i: nat)
    | IdleCheck(i: nat)
    | Leave(i: nat)
    | TaskPush(i: nat, work: Work, thread: int)
    | TaskGrab(i: nat)
    | ClientPush(work: Work, thread: int)
    | ClientNew(c: Cid)
    | ClientCopy(c: Cid)
    | ClientDrop(c: Cid)
    | Destroy(c: Cid)
    | StopAuto
    | StopFlag
    | StopRoot
    | Join

  /** `Scheduler::stopping`. */
  predicate Stopping(s: State) {
    s.autoStop && s.stopping && s.queue == [] && s.active == 0
  }

  /** The two `continue` branches of the scan, negated. */
  predicate Eligible(e: Entry, tid: int, co: map<Cid, Coroutine>) {
    && (e.thread == ANY_THREAD || e.thread == tid)
    && !(e.work.Co? && e.work.c in co && co[e.work.c].state.EXEC?)
  }

  /** Index of the first entry the worker may take, or the length of the list. */
  function FirstEligible(q: seq<Entry>, tid: int, co: map<Cid, Coroutine>): (k: nat)
    ensures k <= |q|
    ensures k < |q| ==> Eligible(q[k], tid, co)
    ensures forall j :: 0 <= j < k ==> !Eligible(q[j], tid, co)
  {
    if q == [] then 0
    else if Eligible(q[0], tid, co) then 0
    else
      var k := 1 + FirstEligible(q[1..], tid, co);
      assert forall j :: 1 <= j < k ==> q[j] == q[1..][j - 1];
      k
  }

  predicate HasLeft(w: Worker) {
    w.pc.Exited? || w.pc.NotStarted?
  }

  // ---------- References ----------

  /** Shared pointers to `c` in the list. */
  function QueueRefs(q: seq<Entry>, c: Cid): nat {
    if q == [] then 0 else (if q[0].work == Co(c) then 1 else 0) + QueueRefs(q[1..], c)
  }

  /** The pointer in `coe`, which `run` clears before it swaps a callback in. */
  function CoeOf(pc: Pc): Option<Cid> {
    match pc
    case Took(e) => WorkCoroutine(e.work)
    case Discarding(e) => WorkCoroutine(e.work)
    case Running(job) => if job.viaCb then None else Some(job.c)
    case Swapped(job) => if job.viaCb then None else Some(job.c)
    case Settling(job) => if job.viaCb then None else Some(job.c)
    case _ => None
  }

  function WorkCoroutine(w: Work): Option<Cid> {
    if w.Co? then Some(w.c) else None
  }

  /** Shared pointers to `c` among the locals of the workers: `coe` and `cb_coroutine`. */
  function WorkerRefs(ws: seq<Worker>, c: Cid): nat {
    if ws == [] then 0
    else
      (if CoeOf(ws[0].pc) == Some(c) then 1 else 0) + (if ws[0].slot == Some(c) then 1 else 0) + WorkerRefs(ws[1..], c)
  }

  /** Those on the coroutine's own stack: one in `MainFunc`, one more in `Yield` or `Sleep`. */
  function FrameRefs(ctx: Resume): nat {
    match ctx
    case AtEntry => 0
    case Live => 1
    case Suspended(inner) => if inner then 2 else 1
    case PastEnd => 0
  }

  function Refs(s: State, c: Cid): nat
    requires c in s.co
  {
    QueueRefs(s.queue, c) + WorkerRefs(s.ws, c) + s.co[c].clients + FrameRefs(s.co[c].ctx)
  }

  // ---------- Steps ----------

  /** What the code lets happen next. */
  predicate Possible(s: State, ev: Event) {
    match ev
    case Enter(i) => i < |s.ws| && s.ws[i].pc.Entering?
    case Scan(i) => i < |s.ws| && s.ws[i].pc.Top?
    case SwapIn(i, spare) => i < |s.ws| && s.ws[i].pc.Took? && spare !in s.co
    case EndSlice(i, out) => i < |s.ws| && s.ws[i].pc.Running? && s.ws[i].pc.job.c in s.co && !out.INIT?
    case Decrement(i) => i < |s.ws| && (s.ws[i].pc.Swapped? || s.ws[i].pc.Discarding?)
    case Settle(i) => i < |s.ws| && s.ws[i].pc.Settling? && s.ws[i].pc.job.c in s.co
    case IdleTest(i) => i < |s.ws| && s.ws[i].pc.NoWork?
    case IdleCheck(i) => i < |s.ws| && s.ws[i].pc.InIdle?
    case Leave(i) => i < |s.ws| && s.ws[i].pc.Leaving?
    case TaskPush(i, work, thread) => i < |s.ws| && s.ws[i].pc.Running? && HasPointer(s, work)
    case TaskGrab(i) => i < |s.ws| && s.ws[i].pc.Running? && s.ws[i].pc.job.c in s.co
    case ClientPush(work, thread) => HasPointer(s, work)
    case ClientNew(c) => c !in s.co
    case ClientCopy(c) => c in s.co && s.co[c].clients > 0
    case ClientDrop(c) => c in s.co && s.co[c].clients > 0
    case Destroy(c) => c in s.co && Refs(s, c) == 0
    case StopAuto => s.control.Open?
    case StopFlag => s.control.AutoSet?
    case StopRoot => s.control.StopSet?
    case Join => s.control.Joining? && forall i :: 0 <= i < |s.ws| ==> HasLeft(s.ws[i])
  }

  /** A coroutine can only be pushed through a pointer that somebody outside still holds. */
  predicate HasPointer(s: State, work: Work) {
    work.Co? ==> work.c in s.co && s.co[work.c].clients > 0
  }

  /**
   The assumptions on clients: a coroutine is pushed only while its token is parked and it has not
   finished, and threads outside the scheduler push only before `stop`.
   */
  predicate Disciplined(s: State, ev: Event) {
    match ev
    case TaskPush(_, work, _) => MayPush(s, work)
    case ClientPush(work, _) => MayPush(s, work) && s.control.Open?
    case _ => true
  }

  predicate MayPush(s: State, work: Work) {
    work.Co? ==> work.c in s.co && s.co[work.c].loc.Parked? && !Finished(s.co[work.c].state)
  }

  predicate Enabled(s: State, ev: Event) {
    Possible(s, ev) && Disciplined(s, ev)
  }

  /** The context of one of the thread's own coroutines. */
  function CtxOf(st: Stack, f: Option<Frame>): Option<Resume> {
    match f
    case Some(ThreadMain) => Some(st.main)
    case Some(Root) => Some(st.root)
    case Some(Idle) => Some(st.idle)
    case _ => None
  }

  /** The scheduling coroutine is current and on the processor, so `swapIn` saves the right context. */
  predicate AtLoop(st: Stack) {
    st.current == st.sched && CtxOf(st, st.sched) == Some(Live)
  }

  /** `f` is current, and the scheduling coroutine has been saved, so `swapOut` may resume it. */
  predicate Inside(st: Stack, f: Frame) {
    st.current == Some(f) && st.sched != Some(f) && CtxOf(st, st.sched) == Some(Suspended(false))
  }

  /**
   The run-time assertions the event passes (swapIn, reset, the counter, the destructor), and for each
   switch that the context saved was running and the one resumed is saved and not past its end.
   */
  predicate Asserts(s: State, ev: Event) {
    match ev
    case SwapIn(i, _) => i < |s.ws| && s.ws[i].pc.Took? && AtLoop(s.ws[i].stack) && SwapInAsserts(s, s.ws[i])
    case EndSlice(i, _) =>
      i < |s.ws| && s.ws[i].pc.Running? &&
      var c := s.ws[i].pc.job.c;
      Inside(s.ws[i].stack, Task(c)) && c in s.co && s.co[c].ctx.Live?
    case Decrement(_) => s.active > 0
    case Settle(i) => i < |s.ws| && AtLoop(s.ws[i].stack)
    case IdleTest(i) =>
      i < |s.ws| && AtLoop(s.ws[i].stack) && !s.ws[i].idle.EXEC? &&
      (!s.ws[i].idle.TERM? ==> Resumable(s.ws[i].stack.idle))
    case IdleCheck(i) => i < |s.ws| && Inside(s.ws[i].stack, Idle) && s.ws[i].stack.idle.Live?
    case Leave(i) =>
      i < |s.ws| && s.ws[i].idle.TERM? && AtLoop(s.ws[i].stack) &&
      (IsCaller(s, i) ==> s.ws[i].stack.current == Some(Root) && s.ws[i].stack.main.Suspended?)
    case Destroy(c) => c in s.co && (s.co[c].state.INIT? || Finished(s.co[c].state))
    case StopRoot =>
      s.hasRoot ==>
        0 < |s.ws| && s.ws[0].pc.NotStarted? &&
        s.ws[0].stack.current == Some(ThreadMain) && s.ws[0].stack.main.Live? && s.ws[0].stack.root.AtEntry?
    case _ => true
  }

  predicate SwapInAsserts(s: State, w: Worker)
    requires w.pc.Took?
  {
    match w.pc.e.work
    case Co(c) => c in s.co && !s.co[c].state.EXEC? && (!Finished(s.co[c].state) ==> Resumable(s.co[c].ctx))
    case Cb(_) => w.slot.Some? ==>
      var c := w.slot.value;
      c in s.co && (s.co[c].state.INIT? || Finished(s.co[c].state))
  }

  // ---------- Switching contexts ----------

  function Saved(st: Stack, f: Option<Frame>, r: Resume): Stack {
    match f
    case Some(ThreadMain) => st.(main := r)
    case Some(Root) => st.(root := r)
    case Some(Idle) => st.(idle := r)
    case _ => st
  }

  /** `swapIn`: the scheduling coroutine is saved and `f` goes on. */
  function SwitchTo(st: Stack, f: Frame): Stack {
    Saved(Saved(st, st.sched, Suspended(false)), Some(f), Live).(current := Some(f), chain := st.chain + [f])
  }

  /** `swapOut`: the current coroutine is saved at `r` and the scheduling coroutine goes on. */
  function SwitchBack(st: Stack, r: Resume): Stack {
    Saved(Saved(st, st.current, r), st.sched, Live).(current := st.sched, chain := Popped(st.chain))
  }

  function Popped(chain: seq<Frame>): seq<Frame> {
    if chain == [] then [] else chain[..|chain| - 1]
  }

  /** `call` and `back`: the same between the thread's own coroutine and the caller's root. */
  function CallRoot(st: Stack): Stack {
    st.(current := Some(Root), main := Suspended(false), root := Live, chain := st.chain + [Root])
  }

  function BackFromRoot(st: Stack): Stack {
    st.(current := Some(ThreadMain), root := PastEnd, main := Live, chain := Popped(st.chain))
  }

  /** `GetCurrent` makes the thread's own coroutine if it has none yet. */
  function WithCurrent(st: Stack): Stack {
    if st.current.Some? then st else st.(current := Some(ThreadMain), main := Live, chain := [ThreadMain])
  }

  /** Where a slice that ends in state `out` leaves the coroutine's context. */
  function AfterSlice(out: CState): Resume {
    if Finished(out) then PastEnd else Suspended(!out.EXEC?)
  }

  /** The worker that runs on the thread that called the constructor and `stop`. */
  predicate IsCaller(s: State, i: nat) {
    s.hasRoot && i == 0
  }

  // ---------- The events ----------

  function SetPc(s: State, i: nat, pc: Pc): State
    requires i < |s.ws|
  {
    s.(ws := s.ws[i := s.ws[i].(pc := pc)])
  }

  function SetPlace(log: seq<Push>, tk: nat, place: Place): (r: seq<Push>)
    ensures |r| == |log|
  {
    if tk < |log| then log[tk := log[tk].(place := place)] else log
  }

  function AddSlice(log: seq<Push>, tk: nat): (r: seq<Push>)
    ensures |r| == |log|
  {
    if tk < |log| then log[tk := log[tk].(slices := log[tk].slices + 1)] else log
  }

  function SetLoc(co: map<Cid, Coroutine>, c: Cid, loc: Loc): map<Cid, Coroutine> {
    if c in co then co[c := co[c].(loc := loc)] else co
  }

  function MoveTo(co: map<Cid, Coroutine>, w: Work, loc: Loc): map<Cid, Coroutine> {
    if w.Co? then SetLoc(co, w.c, loc) else co
  }

  /** `scheduleNoLock` with a non-null argument. */
  function Pushed(s: State, work: Work, thread: int): State {
    s.(queue := s.queue + [Entry(work, thread, |s.log|)],
    log := s.log + [Push(work, thread, Queued, 0)],
    co := MoveTo(s.co, work, Out(|s.log|)))
  }

  /** Lines 149-164: on a thread of the pool the thread's own coroutine is the scheduling one. */
  function Entered(s: State, i: nat): State
    requires i < |s.ws|
  {
    var st := s.ws[i].stack;
    var t := if IsCaller(s, i) then st else WithCurrent(st).(sched := WithCurrent(st).current);
    s.(ws := s.ws[i := s.ws[i].(pc := Top, stack := t)])
  }

  /** Lines 165-187 of schedule.cpp. */
  function Scanned(s: State, i: nat): State
    requires i < |s.ws|
  {
    var k := FirstEligible(s.queue, s.ws[i].tid, s.co);
    if k == |s.queue| then SetPc(s, i, NoWork)
    else
      var e := s.queue[k];
      SetPc(s, i, Took(e)).(queue := s.queue[..k] + s.queue[k + 1..],
      active := s.active + 1,
      log := SetPlace(s.log, e.ticket, Hand(i)))
  }

  /** Lines 193-195 and 206-214: choose the branch, bind a callback, swap in. */
  function SwappedIn(s: State, i: nat, spare: Cid): State
    requires i < |s.ws| && s.ws[i].pc.Took?
  {
    var e := s.ws[i].pc.e;
    match e.work
    case Co(c) =>
      if c in s.co && !Finished(s.co[c].state) then
        SwitchedIn(s, i, Job(c, e.ticket, false), s.ws[i].slot).(
        co := s.co[c := s.co[c].(state := EXEC, ctx := Live)])
      else
        SetPc(s, i, Discarding(e))
    case Cb(_) =>
      var c := if s.ws[i].slot.Some? then s.ws[i].slot.value else spare;
      SwitchedIn(s, i, Job(c, e.ticket, true), Some(c)).(
      co := s.co[c := Coroutine(EXEC, Out(e.ticket), Live, if c in s.co then s.co[c].clients else 0)])
  }

  function SwitchedIn(s: State, i: nat, job: Job, slot: Option<Cid>): State
    requires i < |s.ws|
  {
    s.(ws := s.ws[i := s.ws[i].(pc := Running(job), slot := slot, stack := SwitchTo(s.ws[i].stack, Task(job.c)))],
    log := AddSlice(s.log, job.ticket))
  }

  /** `Yield`, `Sleep`, the end of `MainFunc`, or a bare `swapOut`, which leaves the state at EXEC. */
  function SwappedOut(s: State, i: nat, out: CState): State
    requires i < |s.ws| && s.ws[i].pc.Running? && s.ws[i].pc.job.c in s.co
  {
    var job := s.ws[i].pc.job;
    s.(ws := s.ws[i := s.ws[i].(pc := Swapped(job), stack := SwitchBack(s.ws[i].stack, AfterSlice(out)))],
    co := s.co[job.c := s.co[job.c].(state := out, ctx := AfterSlice(out))])
  }

  /** The decrement of lines 196, 215 and 229. */
  function Decremented(s: State, i: nat): State
    requires i < |s.ws| && (s.ws[i].pc.Swapped? || s.ws[i].pc.Discarding?)
  {
    if s.ws[i].pc.Swapped? then
      SetPc(s, i, Settling(s.ws[i].pc.job)).(active := s.active - 1)
    else
      var e := s.ws[i].pc.e;
      SetPc(s, i, NoWork).(active := s.active - 1,
      log := SetPlace(s.log, e.ticket, Retired),
      co := MoveTo(s.co, e.work, Parked))
  }

  /** The worker is back at the top of its loop and `ticket` is done with. */
  function Done(s: State, i: nat, ticket: nat, slot: Option<Cid>): State
    requires i < |s.ws|
  {
    s.(ws := s.ws[i := s.ws[i].(pc := Top, slot := slot)], log := SetPlace(s.log, ticket, Retired))
  }

  /** Lines 199 and 217-218: a READY coroutine goes back to the end of the list, unpinned. */
  function Requeued(s: State, i: nat): State
    requires i < |s.ws| && s.ws[i].pc.Settling? && s.ws[i].pc.job.c in s.co
  {
    var job := s.ws[i].pc.job;
    Pushed(Done(s, i, job.ticket, if job.viaCb then None else s.ws[i].slot), Co(job.c), ANY_THREAD)
  }

  /** Lines 200-203 and 219-226: a finished coroutine is dropped or reset, any other is parked. */
  function Rested(s: State, i: nat): State
    requires i < |s.ws| && s.ws[i].pc.Settling? && s.ws[i].pc.job.c in s.co
  {
    var job := s.ws[i].pc.job;
    var x := s.co[job.c];
    if Finished(x.state) && job.viaCb then
      Done(s, i, job.ticket, s.ws[i].slot).(co := s.co[job.c := x.(state := INIT, ctx := AtEntry, loc := Slot(i))])
    else if Finished(x.state) then
      Done(s, i, job.ticket, s.ws[i].slot).(co := s.co[job.c := x.(loc := Parked)])
    else
      Done(s, i, job.ticket, if job.viaCb then None else s.ws[i].slot).(
      co := s.co[job.c := x.(state := HOLD, loc := Parked)])
  }

  function Settled(s: State, i: nat): State
    requires i < |s.ws| && s.ws[i].pc.Settling? && s.ws[i].pc.job.c in s.co
  {
    if s.co[s.ws[i].pc.job.c].state.READY? then Requeued(s, i) else Rested(s, i)
  }

  /** Lines 231-237: leave the loop once the idle coroutine has ended, else swap it in. */
  function IdleTested(s: State, i: nat): State
    requires i < |s.ws|
  {
    if s.ws[i].idle.TERM? then SetPc(s, i, Leaving)
    else s.(ws := s.ws[i := s.ws[i].(pc := InIdle, idle := EXEC, stack := SwitchTo(s.ws[i].stack, Idle))])
  }

  /** Lines 142-147 and 240-243: one slice of `idle` evaluates `stopping()` once. */
  function IdleChecked(s: State, i: nat): State
    requires i < |s.ws|
  {
    var out := if Stopping(s) then TERM else HOLD;
    s.(ws := s.ws[i := s.ws[i].(pc := Top, idle := out, stack := SwitchBack(s.ws[i].stack, AfterSlice(out)))])
  }

  /** The locals of `run` are destroyed; `CallerMainFunc` goes back to the thread's own coroutine. */
  function Left(s: State, i: nat): State
    requires i < |s.ws|
  {
    var st := if IsCaller(s, i) then BackFromRoot(s.ws[i].stack) else s.ws[i].stack;
    s.(ws := s.ws[i := s.ws[i].(pc := Exited, slot := None, stack := st)],
    co := if s.ws[i].slot.Some? then SetLoc(s.co, s.ws[i].slot.value, Parked) else s.co)
  }

  /** Lines 103-116 of `stop`: run the caller's worker unless everything is drained already. */
  function RootCalled(s: State): State {
    var t := s.(control := Joining);
    if s.hasRoot && !Stopping(s) && 0 < |s.ws| then
      t.(ws := s.ws[0 := s.ws[0].(pc := Entering, stack := CallRoot(s.ws[0].stack))])
    else t
  }

  function Held(s: State, c: Cid, clients: nat): State
    requires c in s.co
  {
    s.(co := s.co[c := s.co[c].(clients := clients)])
  }

  /** The state after an event. */
  function Apply(s: State, ev: Event): State
    requires Possible(s, ev)
  {
    match ev
    case Enter(i) => Entered(s, i)
    case Scan(i) => Scanned(s, i)
    case SwapIn(i, spare) => SwappedIn(s, i, spare)
    case EndSlice(i, out) => SwappedOut(s, i, out)
    case Decrement(i) => Decremented(s, i)
    case Settle(i) => Settled(s, i)
    case IdleTest(i) => IdleTested(s, i)
    case IdleCheck(i) => IdleChecked(s, i)
    case Leave(i) => Left(s, i)
    case TaskPush(_, work, thread) => Pushed(s, work, thread)
    case TaskGrab(i) => Held(s, s.ws[i].pc.job.c, s.co[s.ws[i].pc.job.c].clients + 1)
    case ClientPush(work, thread) => Pushed(s, work, thread)
    case ClientNew(c) => s.(co := s.co[c := Coroutine(INIT, Parked, AtEntry, 1)])
    case ClientCopy(c) => Held(s, c, s.co[c].clients + 1)
    case ClientDrop(c) => Held(s, c, s.co[c].clients - 1)
    case Destroy(c) => s.(co := s.co - {c})
    case StopAuto => s.(autoStop := true, control := AutoSet)
    case StopFlag => s.(stopping := true, control := StopSet)
    case StopRoot => RootCalled(s)
    case Join => s.(control := Stopped)
  }

  /** The constructor has made the thread's own coroutine and the root for the caller; a new thread has nothing. */
  function CallerStack(): Stack {
    Stack(Some(ThreadMain), Some(Root), Live, AtEntry, AtEntry, [ThreadMain])
  }

  function PoolStack(): Stack {
    Stack(None, None, Live, AtEntry, AtEntry, [])
  }

  /** After `start` and before anything else; the caller's worker, if any, is worker 0. */
  predicate Init(s: State) {
    && s.queue == [] && s.active == 0 && !s.stopping && s.control.Open?
    && s.co == map[] && s.log == []
    && 0 < |s.ws|
    && forall i :: 0 <= i < |s.ws| ==> s.ws[i].tid != ANY_THREAD && s.ws[i] == NewWorker(s.ws[i].tid, IsCaller(s, i))
  }

  function NewWorker(tid: int, caller: bool): Worker {
    if caller then Worker(tid, NotStarted, INIT, None, CallerStack())
    else Worker(tid, Entering, INIT, None, PoolStack())
  }

  predicate IsRun(s: State, evs: seq<Event>)
    decreases |evs|
  {
    evs == [] || (Enabled(s, evs[0]) && IsRun(Apply(s, evs[0]), evs[1..]))
  }

  function Final(s: State, evs: seq<Event>): State
    requires IsRun(s, evs)
    decreases |evs|
  {
    if evs == [] then s else Final(Apply(s, evs[0]), evs[1..])
  }
}
