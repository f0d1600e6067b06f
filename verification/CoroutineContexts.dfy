/**
 Context switching as it is programmed (mocker/coroutine.cpp): coroutine objects and the thread-locals of
 one thread. Every method is tied to the step of `Stack` that the transition system takes, and a whole
 thread is composed of them while other threads run coroutines that are not on this one's chain.
 */
module CoroutineContexts {
  import opened Common
  import opened SchedulerProtocol
  import opened ProtocolContexts

  class CoroutineObject {
    const frame: Frame
    const hasStack: bool
    var state: CState
    var ctx: Resume
    var cb: Option<nat>

    /** A coroutine with a stack of its own, about to enter its main function. */
    constructor (frame: Frame, cb: Option<nat>)
      ensures this.frame == frame && hasStack && state == INIT && ctx == AtEntry && this.cb == cb
    {
      this.frame, hasStack := frame, true;
      state, ctx, this.cb := INIT, AtEntry, cb;
    }

    /** The coroutine that stands for the thread itself. */
    constructor ThreadMain()
      ensures frame == Frame.ThreadMain && !hasStack && state == EXEC && ctx == Live && cb == None
    {
      frame, hasStack := Frame.ThreadMain, false;
      state, ctx, cb := EXEC, Live, None;
    }

    /** Not on any chain: the state tells where resuming would continue. */
    predicate AtRest()
      reads this
    {
      hasStack && !state.EXEC? && Agree(state, ctx)
    }

    method Reset(task: Option<nat>)
      requires hasStack && (state.INIT? || Finished(state))
      modifies this
      ensures state == INIT && ctx == AtEntry && cb == task
    {
      cb := task;
      ctx := AtEntry;
      state := INIT;
    }
  }

  function FrameOf(c: CoroutineObject?): Option<Frame> {
    if c == null then None else Some(c.frame)
  }

  function Frames(chain: seq<CoroutineObject>): (r: seq<Frame>)
    ensures |r| == |chain| && forall k :: 0 <= k < |chain| ==> r[k] == chain[k].frame
  {
    seq(|chain|, k requires 0 <= k < |chain| => chain[k].frame)
  }

  /** `swapIn` from the loop and `swapOut` back leave the thread as it was, but for the context of `f`. */
  lemma BackAgain(st: Stack, f: Frame, r: Resume)
    requires AtLoop(st) && (st.sched == Some(Root) || st.sched == Some(Frame.ThreadMain)) && (f.Task? || f.Idle?)
    ensures SwitchBack(SwitchTo(st, f), r) == if f.Idle? then st.(idle := r) else st
  {
    assert Popped(st.chain + [f]) == st.chain;
  }

  /** The thread-locals of one thread, the caller's root coroutine, and the idle coroutine of its `run`. */
  class ThreadLocals {
    var current: CoroutineObject?
    var threadMain: CoroutineObject?
    var scheduling: CoroutineObject?
    const root: CoroutineObject
    const idle: CoroutineObject
    ghost var chain: seq<CoroutineObject>

    ghost function Abs(): Stack
      reads this, threadMain, root, idle
    {
      Stack(FrameOf(current), FrameOf(scheduling),
            if threadMain == null then Live else threadMain.ctx, root.ctx, idle.ctx, Frames(chain))
    }

    /** What the thread-locals refer to, and which objects are on the chain; all below the top are in EXEC. */
    ghost predicate Linked()
      reads this, chain
    {
      && root.frame == Root && idle.frame == Idle && root.hasStack && idle.hasStack
      && (threadMain != null ==> threadMain.frame == Frame.ThreadMain && !threadMain.hasStack)
      && (scheduling != null ==> scheduling == root || scheduling == threadMain)
      && (forall j, k :: 0 <= j < k < |chain| ==> chain[j] != chain[k])
      && (forall k :: 0 <= k < |chain| ==> chain[k].ctx == if k == |chain| - 1 then Live else Suspended(false))
      && (forall k :: 0 <= k < |chain| - 1 ==> chain[k].state == EXEC)
      && (if chain == [] then current == null && threadMain == null
          else threadMain == chain[0] && current == chain[|chain| - 1])
    }

    /** And so is the top, except while it is about to swap out. */
    ghost predicate Valid()
      reads this, chain
    {
      Linked() && (chain != [] ==> chain[|chain| - 1].state == EXEC)
    }

    /** A new thread; `run` has not been entered. */
    constructor ()
      ensures Valid() && chain == [] && scheduling == null && Abs() == PoolStack()
      ensures fresh(root) && fresh(idle) && root.AtRest() && idle.AtRest() && idle.state.INIT? && root.state.INIT?
    {
      root := new CoroutineObject(Root, None);
      idle := new CoroutineObject(Idle, None);
      current, threadMain, scheduling, chain := null, null, null, [];
    }

    /** The thread that made the scheduler: its own coroutine is current, and the root will schedule. */
    constructor ForCaller()
      ensures Valid() && chain == [threadMain] && scheduling == root && Abs() == CallerStack()
      ensures fresh(root) && fresh(idle) && fresh(threadMain)
      ensures root.AtRest() && idle.AtRest() && idle.state.INIT? && root.state.INIT?
    {
      root := new CoroutineObject(Root, None);
      idle := new CoroutineObject(Idle, None);
      var main := new CoroutineObject.ThreadMain();
      current, threadMain, scheduling, chain := main, main, root, [main];
    }

    /** `Coroutine::GetCurrent`. */
    method GetCurrent() returns (c: CoroutineObject)
      requires Valid()
      modifies this`current, this`threadMain, this`chain
      ensures Valid() && current == c && Abs() == WithCurrent(old(Abs()))
      ensures if old(chain) == [] then fresh(c) && chain == [c] else chain == old(chain) && c == old(current)
    {
      if current != null {
        return current;
      }
      c := new CoroutineObject.ThreadMain();
      current, threadMain, chain := c, c, [c];
    }

    /** `swapcontext`: the context saved was running, the one resumed is saved and not past its end. */
    method Switch(from: CoroutineObject, point: Resume, to: CoroutineObject)
      requires from != to && from.ctx.Live? && !point.Live? && Resumable(to.ctx)
      modifies from`ctx, to`ctx
      ensures from.ctx == point && to.ctx == Live
    {
      from.ctx := point;
      to.ctx := Live;
    }

    /** `swapIn`: from the scheduling coroutine into `c`. */
    method SwapIn(c: CoroutineObject)
      requires Valid() && chain != [] && scheduling != null && current == scheduling
      requires c.AtRest() && !Finished(c.state) && (c.frame.Task? || c == idle)
      modifies this`current, this`chain, c`state, c`ctx, scheduling`ctx
      ensures Valid() && Abs() == SwitchTo(old(Abs()), c.frame) && chain == old(chain) + [c] && c.state.EXEC?
    {
      current := c;
      assert c.state != EXEC;
      c.state := EXEC;
      Switch(scheduling, Suspended(false), c);
      chain := chain + [c];
      assert Frames(chain) == Frames(old(chain)) + [c.frame];
    }

    /** `Yield`, `Sleep`, a bare `swapOut` or the end of `MainFunc`: back to the scheduling coroutine. */
    method EndSlice(out: CState) returns (cur: CoroutineObject)
      requires Valid() && |chain| > 1 && scheduling == chain[|chain| - 2] && !out.INIT?
      requires current.frame.Task? || current == idle
      modifies this`current, this`chain, current, scheduling`ctx
      ensures cur == old(current) && Valid() && Abs() == SwitchBack(old(Abs()), AfterSlice(out))
      ensures chain == old(chain)[..|old(chain)| - 1] && current == scheduling
      ensures cur.state == out && cur.ctx == AfterSlice(out)
      ensures cur.cb == if out.TERM? then None else old(current.cb)
    {
      cur := current;
      cur.cb := if out.TERM? then None else cur.cb;
      cur.state := out;
      SwapOut(AfterSlice(out));
    }

    /** `swapOut`: the current coroutine is saved at `point`, whatever its state, and the scheduling one goes on. */
    method SwapOut(point: Resume)
      requires Linked() && |chain| > 1 && scheduling == chain[|chain| - 2] && !point.Live?
      requires current.frame.Task? || current == idle
      modifies this`current, this`chain, current`ctx, scheduling`ctx
      ensures Valid() && Abs() == SwitchBack(old(Abs()), point)
      ensures chain == old(chain)[..|old(chain)| - 1] && current == scheduling
      ensures old(current).ctx == point
    {
      var cur := current;
      current := scheduling;
      Switch(cur, point, scheduling);
      chain := chain[..|chain| - 1];
      assert Frames(chain) == Popped(Frames(old(chain)));
    }

    /** The first lines of `run`; on the caller's thread the root is the scheduling coroutine already. */
    method Enter(caller: bool)
      requires Valid() && (if caller then scheduling == root else scheduling == null && chain == [])
      modifies this`current, this`threadMain, this`chain, this`scheduling
      ensures Valid() && scheduling != null
      ensures Abs() == if caller then old(Abs()) else WithCurrent(old(Abs())).(sched := WithCurrent(old(Abs())).current)
      ensures caller ==> chain == old(chain) && current == old(current) && scheduling == root &&
                         threadMain == old(threadMain)
      ensures !caller ==> chain == [threadMain] && current == scheduling == threadMain && fresh(threadMain)
    {
      if !caller {
        var c := GetCurrent();
        scheduling := c;
      }
    }

    /** `call`: from the thread's own coroutine into the caller's root. */
    method Call()
      requires Valid() && chain == [threadMain] && scheduling == root && root.AtRest() && root.state.INIT?
      modifies this`current, this`chain, root`state, root`ctx, threadMain`ctx
      ensures Valid() && Abs() == CallRoot(old(Abs())) && chain == [threadMain, root] && current == root
    {
      current := root;
      root.state := EXEC;
      Switch(threadMain, Suspended(false), root);
      chain := chain + [root];
      assert Frames(chain) == Frames(old(chain)) + [Root];
    }

    /** The end of `CallerMainFunc`, and `back`. */
    method Back(threw: bool)
      requires Valid() && |chain| == 2 && chain[1] == root
      modifies this`current, this`chain, root, threadMain`ctx
      ensures Valid() && Abs() == BackFromRoot(old(Abs())) && chain == [threadMain]
      ensures root.state == (if threw then EXCEPT else TERM) && root.ctx.PastEnd?
    {
      if !threw {
        root.cb := None;
      }
      root.state := if threw then EXCEPT else TERM;
      current := threadMain;
      Switch(root, PastEnd, threadMain);
      chain := chain[..1];
      assert Frames(chain) == Popped(Frames(old(chain)));
    }

    // ---------- One round of the loop ----------

    /** In the loop of `run`: the scheduling coroutine is on the processor. */
    ghost predicate Looping()
      reads this, chain
    {
      Valid() && chain != [] && scheduling != null && current == scheduling
    }

    /** In and out again: the thread is as it was, and only the context of `c` has moved on. */
    method Slice(c: CoroutineObject, out: CState)
      requires Looping() && c.AtRest() && !Finished(c.state) && (c.frame.Task? || c == idle) && !out.INIT?
      modifies this`current, this`chain, c, scheduling`ctx
      ensures Looping() && chain == old(chain) && current == old(current)
      ensures Abs() == if c == idle then old(Abs()).(idle := AfterSlice(out)) else old(Abs())
      ensures c.state == out && c.ctx == AfterSlice(out) && c.cb == if out.TERM? then None else old(c.cb)
    {
      BackAgain(Abs(), c.frame, AfterSlice(out));
      ghost var below := chain;
      SwapIn(c);
      assert chain[..|chain| - 1] == below && chain[|chain| - 2] == scheduling;
      var left := EndSlice(out);
    }

    /** The branch for a coroutine: skip it if it has finished, else give it a slice, and park a bare one. */
    method EntryRound(c: CoroutineObject, out: CState)
      requires Looping() && c.AtRest() && c.frame.Task? && !out.INIT?
      modifies this`current, this`chain, c, scheduling`ctx
      ensures Looping() && chain == old(chain) && current == old(current) && Abs() == old(Abs())
      ensures c.AtRest()
      ensures c.state == if old(Finished(c.state)) then old(c.state) else if out.EXEC? then HOLD else out
      ensures c.cb == if !old(Finished(c.state)) && out.TERM? then None else old(c.cb)
    {
      if c.state != TERM && c.state != EXCEPT {
        Slice(c, out);
        if c.state != READY && c.state != TERM && c.state != EXCEPT {
          c.state := HOLD;
        }
      }
    }

    /** The callback gets the coroutine in `cb_coroutine`, or a new one. */
    static method Bind(slot: CoroutineObject?, id: Cid, f: nat) returns (c: CoroutineObject)
      requires slot != null ==> slot.AtRest() && slot.frame.Task? && slot.state.INIT?
      modifies slot
      ensures if slot != null then c == slot else fresh(c)
      ensures c.AtRest() && c.frame.Task? && c.state.INIT? && c.cb == Some(f)
    {
      if slot != null {
        c := slot;
        c.Reset(Some(f));
      } else {
        c := new CoroutineObject(Task(id), Some(f));
      }
    }

    /** The branch for a callback: `slot` is `cb_coroutine`; a coroutine not `kept` goes to the list or to clients. */
    method CallbackRound(slot: CoroutineObject?, id: Cid, f: nat, out: CState) returns (c: CoroutineObject, kept: bool)
      requires Looping() && !out.INIT?
      requires slot != null ==> slot.AtRest() && slot.frame.Task? && slot.state.INIT?
      modifies this`current, this`chain, scheduling`ctx, slot
      ensures Looping() && chain == old(chain) && current == old(current) && Abs() == old(Abs())
      ensures (if slot != null then c == slot else fresh(c)) && c.AtRest() && c.frame.Task?
      ensures kept <==> Finished(out)
      ensures c.state == if kept then INIT else if out.READY? then READY else HOLD
      ensures c.cb == if kept then None else Some(f)
    {
      c := Bind(slot, id, f);
      Slice(c, out);
      kept := false;
      if c.state == EXCEPT || c.state == TERM {
        c.Reset(None);
        kept := true;
      } else if c.state != READY {
        c.state := HOLD;
      }
    }

    /** The idle coroutine is at rest; it does not throw. */
    predicate IdleWaits()
      reads this, idle
    {
      idle.AtRest() && !idle.state.EXCEPT?
    }

    /** One slice of the idle coroutine. */
    method IdleRound(stop: bool)
      requires Looping() && idle.AtRest() && !Finished(idle.state)
      modifies this`current, this`chain, idle, scheduling`ctx
      ensures Looping() && chain == old(chain) && current == old(current)
      ensures Abs() == old(Abs()).(idle := AfterSlice(idle.state)) && idle.AtRest()
      ensures idle.state == if stop then TERM else HOLD
    {
      Slice(idle, if stop then TERM else HOLD);
    }

    // ---------- A whole thread ----------

    /** Other threads run coroutines of the pool, or finish them; all are at rest again when this one goes on. */
    static method OthersRun(changes: seq<(CoroutineObject, CState)>, ghost pool: set<CoroutineObject>)
      requires Resting(pool) && forall k :: 0 <= k < |changes| ==> changes[k].0 in pool
      modifies pool
      ensures Resting(pool) && forall c :: c in pool && old(Finished(c.state)) ==> c.state == old(c.state)
    {
      var n := 0;
      while n < |changes|
        invariant 0 <= n <= |changes| && Resting(pool)
        invariant forall c :: c in pool && old(Finished(c.state)) ==> c.state == old(c.state)
      {
        var c, st := changes[n].0, changes[n].1;
        if !Finished(c.state) && !st.EXEC? {
          c.state := st;
          c.ctx := if st.INIT? then AtEntry else AfterSlice(st);
        }
        n := n + 1;
      }
    }

    /** The three branches; `left` says that the idle coroutine has ended and the loop is over. */
    method OneRound(round: Round, slot: CoroutineObject?) returns (kept: CoroutineObject?, left: bool)
      requires Looping() && IdleWaits() && !round.out.INIT?
      requires round.Entry? ==> round.c.AtRest() && round.c.frame.Task?
      requires slot != null ==>
                 slot.AtRest() && slot.frame.Task? && slot.state.INIT? && (round.Entry? ==> slot != round.c)
      modifies this`current, this`chain, idle, scheduling`ctx, slot, if round.Entry? then {round.c} else {}
      ensures Looping() && chain == old(chain) && current == old(current) && IdleWaits()
      ensures Abs() == old(Abs()).(idle := idle.ctx) && (left ==> idle.state.TERM?)
      ensures round.Entry? ==>
                round.c.AtRest() && (old(Finished(round.c.state)) ==> round.c.state == old(round.c.state))
      ensures kept != null ==> (kept == slot || fresh(kept)) && kept.AtRest() && kept.frame.Task? && kept.state.INIT?
    {
      kept, left := slot, false;
      match round {
        case Entry(c, out) =>
          EntryRound(c, out);
        case Callback(id, f, out) =>
          var c, keep := CallbackRound(slot, id, f, out);
          kept := if keep then c else null;
        case Nothing(out) =>
          if idle.state == TERM {
            left := true;
          } else {
            IdleRound(out.TERM?);
          }
      }
    }

    /** Others run, then one round of this thread. */
    method Turn(
      round: Round, slot: CoroutineObject?, changes: seq<(CoroutineObject, CState)>, ghost pool: set<CoroutineObject>)
      returns (kept: CoroutineObject?, left: bool)
      requires Looping() && IdleWaits() && !round.out.INIT? && (round.Entry? ==> round.c in pool)
      requires Resting(pool) && forall k :: 0 <= k < |changes| ==> changes[k].0 in pool
      requires slot != null ==> slot !in pool && slot.AtRest() && slot.frame.Task? && slot.state.INIT?
      modifies this`current, this`chain, idle, scheduling`ctx, pool, slot
      ensures Looping() && chain == old(chain) && current == old(current) && IdleWaits()
      ensures Abs() == old(Abs()).(idle := idle.ctx) && (left ==> idle.state.TERM?)
      ensures Resting(pool) && forall c :: c in pool && old(Finished(c.state)) ==> c.state == old(c.state)
      ensures kept != null ==> (kept == slot || fresh(kept)) && kept.AtRest() && kept.frame.Task? && kept.state.INIT?
    {
      OthersRun(changes, pool);
      kept, left := OneRound(round, slot);
    }

    /**
     The loop of `run`, round after round, with other threads in between: whichever branch each round takes
     and however its slice ends, the thread is back in its loop, nothing past its end is resumed, and what
     was finished stays finished. `pool` are the task coroutines there are.
     */
    method Loop(rounds: seq<Round>, others: nat -> seq<(CoroutineObject, CState)>, ghost pool: set<CoroutineObject>)
      returns (left: bool)
      requires Looping() && IdleWaits() && Resting(pool) && Within(rounds, others, pool)
      modifies this`current, this`chain, idle, scheduling`ctx, pool
      ensures Looping() && chain == old(chain) && current == old(current) && IdleWaits()
      ensures Abs() == old(Abs()).(idle := idle.ctx) && (left ==> idle.state.TERM?)
      ensures Resting(pool) && forall c :: c in pool && old(Finished(c.state)) ==> c.state == old(c.state)
    {
      var slot: CoroutineObject? := null;
      var n := 0;
      left := false;
      while n < |rounds| && !left
        invariant 0 <= n <= |rounds| && Looping() && chain == old(chain) && current == old(current) && IdleWaits()
        invariant Abs() == old(Abs()).(idle := idle.ctx) && (left ==> idle.state.TERM?)
        invariant Resting(pool) && forall c :: c in pool && old(Finished(c.state)) ==> c.state == old(c.state)
        invariant slot != null ==> fresh(slot) && slot.AtRest() && slot.frame.Task? && slot.state.INIT?
      {
        var changes := others(n);
        assert forall k :: 0 <= k < |changes| ==> changes[k].0 in pool;
        slot, left := Turn(rounds[n], slot, changes, pool);
        n := n + 1;
      }
    }

    /** `run` on a thread of the pool, or called and left through the root on the caller's thread. */
    method RunThread(
      caller: bool, rounds: seq<Round>, others: nat -> seq<(CoroutineObject, CState)>, ghost pool: set<CoroutineObject>)
      returns (left: bool)
      requires Valid() && Abs() == (if caller then CallerStack() else PoolStack())
      requires caller ==> scheduling == root && root.AtRest() && root.state.INIT?
      requires IdleWaits() && Resting(pool) && Within(rounds, others, pool)
      modifies this, idle, root, threadMain, pool
      ensures Valid() && threadMain != null && (caller ==> threadMain == old(threadMain))
      ensures left ==> chain == [threadMain] && current == threadMain && idle.state.TERM? &&
                       (caller ==> root.ctx.PastEnd?)
      ensures !left ==> Looping() && chain == if caller then [threadMain, root] else [threadMain]
      ensures Resting(pool) && forall c :: c in pool && old(Finished(c.state)) ==> c.state == old(c.state)
    {
      if caller {
        Call();
      }
      Enter(caller);
      left := Loop(rounds, others, pool);
      if left && caller {
        Back(false);
      }
    }
  }

  /** Coroutines that are on no chain. */
  ghost predicate Resting(pool: set<CoroutineObject>)
    reads pool
  {
    forall c :: c in pool ==> c.AtRest() && c.frame.Task?
  }

  /** The rounds and the other threads concern only coroutines of the pool. */
  ghost predicate Within(
    rounds: seq<Round>, others: nat -> seq<(CoroutineObject, CState)>, pool: set<CoroutineObject>) {
    && (forall n :: 0 <= n < |rounds| ==> !rounds[n].out.INIT? && (rounds[n].Entry? ==> rounds[n].c in pool))
    && (forall n: nat, k :: n < |rounds| && 0 <= k < |others(n)| ==> others(n)[k].0 in pool)
  }

  /** What one round of the loop finds, and how the slice it gives ends. */
  datatype Round =
    | Entry(c: CoroutineObject, out: CState)
    | Callback(id: Cid, f: nat, out: CState)
    | Nothing(out: CState)
}
