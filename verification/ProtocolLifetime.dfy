/** Shared pointers to a coroutine: how many there are, and that a started coroutine is never destroyed. */
module ProtocolLifetime {
  import opened Common
  import opened SchedulerProtocol
  import opened ProtocolInvariant
  import opened ProtocolContexts
  import opened ProtocolTheorems

  // ---------- Counting ----------

  lemma {:induction false} QueueHasNone(q: seq<Entry>, c: Cid)
    requires forall k :: 0 <= k < |q| ==> q[k].work != Co(c)
    ensures QueueRefs(q, c) == 0
  {
    if q != [] { QueueHasNone(q[1..], c); }
  }

  lemma {:induction false} QueueHasOne(q: seq<Entry>, c: Cid, k: nat)
    requires k < |q| && q[k].work == Co(c)
    requires forall j :: 0 <= j < |q| && j != k ==> q[j].work != Co(c)
    ensures QueueRefs(q, c) == 1
  {
    if k == 0 {
      QueueHasNone(q[1..], c);
    } else {
      assert q[1..][k - 1] == q[k];
      QueueHasOne(q[1..], c, k - 1);
    }
  }

  /** Pointers of one worker. */
  function RefsOf(w: Worker, c: Cid): nat {
    (if CoeOf(w.pc) == Some(c) then 1 else 0) + (if w.slot == Some(c) then 1 else 0)
  }

  lemma {:induction false} WorkersHaveNone(ws: seq<Worker>, c: Cid)
    requires forall i :: 0 <= i < |ws| ==> RefsOf(ws[i], c) == 0
    ensures WorkerRefs(ws, c) == 0
  {
    if ws != [] { WorkersHaveNone(ws[1..], c); }
  }

  lemma {:induction false} OneWorkerHas(ws: seq<Worker>, c: Cid, i: nat)
    requires i < |ws|
    requires forall j :: 0 <= j < |ws| && j != i ==> RefsOf(ws[j], c) == 0
    ensures WorkerRefs(ws, c) == RefsOf(ws[i], c)
  {
    if i == 0 {
      WorkersHaveNone(ws[1..], c);
    } else {
      assert ws[1..][i - 1] == ws[i];
      OneWorkerHas(ws[1..], c, i - 1);
    }
  }

  /** A worker that does not hold a coroutine has no pointer to it. */
  lemma NotHeldNoRefs(s: State, i: nat, c: Cid)
    requires Inv(s) && i < |s.ws| && !Holds(s.ws[i], c)
    ensures RefsOf(s.ws[i], c) == 0
  {
    assert WorkerOk(s, i);
  }

  /** A worker that holds it has exactly one: `coe` for an entry, `cb_coroutine` for a callback. */
  lemma HeldOneRef(s: State, i: nat, c: Cid)
    requires Inv(s) && i < |s.ws| && Holds(s.ws[i], c)
    ensures RefsOf(s.ws[i], c) == 1
  {
    assert WorkerOk(s, i);
  }

  lemma HeldElsewhereNone(s: State, i: nat, c: Cid)
    requires Inv(s) && i < |s.ws| && Holds(s.ws[i], c)
    ensures WorkerRefs(s.ws, c) == 1 && QueueRefs(s.queue, c) == 0
  {
    HolderIsSole(s, i, c);
    forall j | 0 <= j < |s.ws| && j != i ensures RefsOf(s.ws[j], c) == 0 { NotHeldNoRefs(s, j, c); }
    HeldOneRef(s, i, c);
    OneWorkerHas(s.ws, c, i);
    QueueHasNone(s.queue, c);
  }

  lemma QueuedElsewhereNone(s: State, k: nat, c: Cid)
    requires Inv(s) && k < |s.queue| && s.queue[k].work == Co(c)
    ensures WorkerRefs(s.ws, c) == 0 && QueueRefs(s.queue, c) == 1
  {
    forall i | 0 <= i < |s.ws| ensures RefsOf(s.ws[i], c) == 0 {
      if Holds(s.ws[i], c) { HolderIsSole(s, i, c); }
      NotHeldNoRefs(s, i, c);
    }
    WorkersHaveNone(s.ws, c);
    forall j | 0 <= j < |s.queue| && j != k ensures s.queue[j].work != Co(c) {
      assert QueuedOk(s, j) && QueuedOk(s, k);
    }
    QueueHasOne(s.queue, c, k);
  }

  /** The list and the workers together have one pointer while the token is out, and none while it is parked. */
  lemma TokenIsThePointer(s: State, c: Cid)
    requires Inv(s) && c in s.co
    ensures QueueRefs(s.queue, c) + WorkerRefs(s.ws, c) == if s.co[c].loc.Parked? then 0 else 1
  {
    ParkedIffUnheld(s, c);
    if s.co[c].loc.Parked? {
      QueueHasNone(s.queue, c);
      forall i | 0 <= i < |s.ws| ensures RefsOf(s.ws[i], c) == 0 { NotHeldNoRefs(s, i, c); }
      WorkersHaveNone(s.ws, c);
    } else if k :| 0 <= k < |s.queue| && s.queue[k].work == Co(c) {
      QueuedElsewhereNone(s, k, c);
    } else {
      var i :| 0 <= i < |s.ws| && Holds(s.ws[i], c);
      HeldElsewhereNone(s, i, c);
    }
  }

  // ---------- How it moves ----------

  /** A worker whose pointers to `c` are as many as before leaves the sum as it is. */
  lemma {:induction false} SameWorkerRefs(ws: seq<Worker>, i: nat, w: Worker, c: Cid)
    requires i < |ws| && RefsOf(w, c) == RefsOf(ws[i], c)
    ensures WorkerRefs(ws[i := w], c) == WorkerRefs(ws, c)
  {
    if i == 0 {
      assert ws[i := w][1..] == ws[1..];
    } else {
      assert ws[i := w][1..] == ws[1..][i - 1 := w];
      SameWorkerRefs(ws[1..], i - 1, w, c);
    }
  }

  /**
   A slice that ends in `Yield` or `Sleep` leaves one pointer more on the coroutine's stack, one that ends
   the coroutine gives up that of `MainFunc`, and a bare `swapOut` changes nothing.
   */
  lemma EndSlicePointers(s: State, i: nat, out: CState)
    requires Possible(s, EndSlice(i, out)) && s.co[s.ws[i].pc.job.c].ctx.Live?
    ensures var c := s.ws[i].pc.job.c;
            Refs(SwappedOut(s, i, out), c) == Refs(s, c) + if out.EXEC? then 0 else if Finished(out) then -1 else 1
  {
    SameWorkerRefs(s.ws, i, SwappedOut(s, i, out).ws[i], s.ws[i].pc.job.c);
  }

  /** Swapped in again, `Yield` or `Sleep` returns and lets its pointer go; at first `MainFunc` takes one. */
  lemma SwapInPointers(s: State, i: nat, spare: Cid, c: Cid)
    requires i < |s.ws| && s.ws[i].pc.Took? && s.ws[i].pc.e.work == Co(c)
    requires c in s.co && !Finished(s.co[c].state) && Resumable(s.co[c].ctx)
    ensures Refs(SwappedIn(s, i, spare), c) ==
            Refs(s, c) + if s.co[c].ctx.AtEntry? then 1 else if s.co[c].ctx.inner then -1 else 0
  {
    SameWorkerRefs(s.ws, i, SwappedIn(s, i, spare).ws[i], c);
  }

  predicate HasJob(w: Worker, c: Cid) {
    w.pc.Running? && w.pc.job.c == c
  }

  /** What clients hold is changed by clients, and by a task that takes a pointer to itself; by nothing else. */
  predicate ClientsMove(s: State, t: State, ev: Event, c: Cid) {
    c in s.co && c in t.co ==>
      t.co[c].clients == s.co[c].clients +
      if ev == ClientCopy(c) || (ev.TaskGrab? && ev.i < |s.ws| && HasJob(s.ws[ev.i], c)) then 1
      else if ev == ClientDrop(c) then -1 else 0
  }

  lemma ClientsChange(s: State, ev: Event, c: Cid)
    requires Possible(s, ev)
    ensures ClientsMove(s, Apply(s, ev), ev, c)
  {
    match ev
    case Scan(i) => assert ClientsMove(s, Scanned(s, i), ev, c);
    case SwapIn(i, spare) => assert ClientsMove(s, SwappedIn(s, i, spare), ev, c);
    case EndSlice(i, out) => assert ClientsMove(s, SwappedOut(s, i, out), ev, c);
    case Decrement(i) => assert ClientsMove(s, Decremented(s, i), ev, c);
    case Settle(i) => SettleClients(s, i, c);
    case Leave(i) => assert ClientsMove(s, Left(s, i), ev, c);
    case TaskPush(_, work, thread) => assert ClientsMove(s, Pushed(s, work, thread), ev, c);
    case ClientPush(work, thread) => assert ClientsMove(s, Pushed(s, work, thread), ev, c);
    case _ =>
  }

  lemma SettleClients(s: State, i: nat, c: Cid)
    requires Possible(s, Settle(i))
    ensures ClientsMove(s, Settled(s, i), Settle(i), c)
  {
    if s.co[s.ws[i].pc.job.c].state.READY? {
      assert ClientsMove(s, Requeued(s, i), Settle(i), c);
    } else {
      assert ClientsMove(s, Rested(s, i), Settle(i), c);
    }
  }

  // ---------- The promises ----------

  /** The shared-pointer count, place by place, in every reachable state. */
  lemma PointerCount(s: State, c: Cid)
    requires Reachable(s) && c in s.co
    ensures Refs(s, c) == (if s.co[c].loc.Parked? then 0 else 1) + s.co[c].clients + FrameRefs(s.co[c].ctx)
    ensures match s.co[c].ctx
            case Suspended(true) => FrameRefs(s.co[c].ctx) == 2
            case Suspended(false) => FrameRefs(s.co[c].ctx) == 1
            case Live => FrameRefs(s.co[c].ctx) == 1
            case _ => FrameRefs(s.co[c].ctx) == 0
  {
    ReachableInv(s);
    TokenIsThePointer(s, c);
  }

  /**
   `MainFunc` has its pointer exactly while the coroutine is started and unfinished, so that such a
   coroutine is never destroyed, whatever the list, the workers and the clients let go of.
   */
  lemma UnfinishedKeepsItself(s: State, c: Cid)
    requires Reachable(s) && c in s.co
    ensures FrameRefs(s.co[c].ctx) > 0 <==> Begun(s.co[c].state)
    ensures Begun(s.co[c].state) ==> Refs(s, c) > 0 && !Enabled(s, Destroy(c))
  {
    ReachableContexts(s);
    assert CtxOk(s, c);
  }

  /** And a coroutine can be destroyed exactly if it has not started or has finished, and nobody has it. */
  lemma DestroyableIff(s: State, c: Cid)
    requires Reachable(s) && c in s.co
    ensures Enabled(s, Destroy(c)) <==>
            && (s.co[c].state.INIT? || Finished(s.co[c].state))
            && s.co[c].clients == 0
            && (forall k :: 0 <= k < |s.queue| ==> s.queue[k].work != Co(c))
            && (forall i :: 0 <= i < |s.ws| ==> !Holds(s.ws[i], c))
  {
    ReachableInv(s);
    PointerCount(s, c);
    UnfinishedKeepsItself(s, c);
    ParkedIffUnheld(s, c);
  }
}
