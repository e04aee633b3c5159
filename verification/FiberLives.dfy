/** The life of a fiber through the scheduler's steps, and the order in which entries are served. */
module FiberLives {
  import opened Options
  import opened SchedulerSpec
  import opened SchedulerRuns

  // ---------- the states of a fiber

  /** The edges of the state diagram, and the step that may take each. */
  ghost predicate Follows(a: FiberState, step: Step, b: FiberState) {
    || a == b
    || (step.Resume? && (a == INIT || a == HOLD || a == READY) && b == EXEC)
    || (step.YieldReady? && a == EXEC && b == READY)
    || (step.Finish? && a == EXEC && b == if step.ok then TERM else EXCEPT)
    || (step.Settle? && a == EXEC && b == HOLD)
    || (step.Settle? && (a == TERM || a == EXCEPT) && b == INIT)
  }

  /** A step that sets flags, counters or the places of workers. */
  predicate OfWorkersOnly(step: Step) {
    || step.SetAutoStop? || step.SetStopping? || step.Begin? || step.Decrement?
    || step.IdleCheck? || step.Wake? || step.Leave?
  }

  lemma FibersStay(s: State, step: Step)
    requires OfWorkersOnly(step)
    ensures Apply(s, step).fibers == s.fibers && Apply(s, step).queue == s.queue
  {
  }

  lemma ScanFibers(s: State, w: nat)
    requires w < |s.pcs|
    ensures var t, k := Apply(s, DoScan(w)), ScanFrom(s, w, 0);
            && t.queue == (if k < |s.queue| then s.queue[..k] + s.queue[k + 1..] else s.queue)
            && t.fibers == if k < |s.queue| && s.queue[k].work.OfFiber? && s.queue[k].work.id in s.fibers
                           then s.fibers[s.queue[k].work.id := s.fibers[s.queue[k].work.id].(ticket := InHand(w))]
                           else s.fibers
  {
  }

  lemma StatesStay(s: State, step: Step, f: nat)
    requires Enabled(s, step) && f in s.fibers
    requires !step.Resume? && !step.YieldReady? && !step.Finish? && !step.Settle?
    ensures f in Apply(s, step).fibers && Apply(s, step).fibers[f].state == s.fibers[f].state
  {
    match step
    case NewFiber(_) =>
    case ScheduleOutside(_) =>
    case ScheduleInside(_, _) =>
    case DoScan(w) => ScanFibers(s, w);
    case SwapOut(_) =>
    case _ => FibersStay(s, step);
  }

  /** Every step moves every fiber along the state diagram or leaves it where it is. */
  lemma Lifecycle(s: State, step: Step, f: nat)
    requires Inv(s) && Enabled(s, step) && f in s.fibers
    ensures f in Apply(s, step).fibers && Follows(s.fibers[f].state, step, Apply(s, step).fibers[f].state)
  {
    match step
    case Resume(w, made) => ResumeStates(s, w, made, f);
    case YieldReady(w) => OwnStateSet(s, w, true);
    case Finish(w, ok) => OwnStateSet(s, w, ok);
    case Settle(w) => SettleStates(s, w, f);
    case _ => StatesStay(s, step, f);
  }

  lemma ResumeStates(s: State, w: nat, made: nat, f: nat)
    requires Inv(s) && Enabled(s, Resume(w, made)) && f in s.fibers
    ensures var t := Apply(s, Resume(w, made));
            f in t.fibers && Follows(s.fibers[f].state, Resume(w, made), t.fibers[f].state)
  {
    assert PcOk(s, w) && KeptOk(s, w);
  }

  /**
   What becomes of a fiber that came back: one that yielded as READY goes to the end of
   the queue, for any thread; one that is still executing is put on hold; a finished one
   is left alone, or kept by its worker for the next callback if it ran one.
   */
  lemma ComesBack(s: State, w: nat)
    requires Inv(s) && Enabled(s, Settle(w))
    ensures var t, f, cb := Apply(s, Settle(w)), s.pcs[w].fiber, s.pcs[w].cb;
            && f in s.fibers && f in t.fibers && t.fibers == s.fibers[f := t.fibers[f]]
            && t.pcs == s.pcs[w := Scan] && t.active == s.active
            && match s.fibers[f].state
               case READY => t.fibers[f].state == READY && t.queue == s.queue + [Entry(OfFiber(f), -1)]
               case EXEC => t.fibers[f].state == HOLD && t.queue == s.queue && t.cbFibers == s.cbFibers
               case _ =>
                 && t.queue == s.queue
                 && if cb then t.fibers[f].state == INIT && t.cbFibers == s.cbFibers[w := Some(f)]
                    else t.fibers[f].state == s.fibers[f].state && t.cbFibers == s.cbFibers
  {
    assert PcOk(s, w);
    var f := s.pcs[w].fiber;
    var b := s.fibers[f];
    if b.state == READY {
      TwiceSet(s.fibers, f, b.(owner := Nobody), b.(owner := Nobody, ticket := Queued));
    }
  }

  lemma TwiceSet(m: map<nat, Fiber>, f: nat, a: Fiber, b: Fiber)
    ensures m[f := a][f := b] == m[f := b]
  {
  }

  lemma SettleStates(s: State, w: nat, f: nat)
    requires Inv(s) && Enabled(s, Settle(w)) && f in s.fibers
    ensures var t := Apply(s, Settle(w)); f in t.fibers && Follows(s.fibers[f].state, Settle(w), t.fibers[f].state)
  {
    assert PcOk(s, w);
    ComesBack(s, w);
  }

  /** A fiber that yields or finishes gets its new state. */
  lemma OwnStateSet(s: State, w: nat, ok: bool)
    requires Inv(s) && w < |s.pcs| && s.pcs[w].Running?
    ensures var f := s.pcs[w].fiber;
            && f in s.fibers && s.fibers[f].state == EXEC
            && Apply(s, YieldReady(w)).fibers == s.fibers[f := s.fibers[f].(state := READY)]
            && Apply(s, Finish(w, ok)).fibers == s.fibers[f := s.fibers[f].(state := if ok then TERM else EXCEPT)]
  {
    assert PcOk(s, w);
  }

  /**
   What a worker does with the entry in hand: a live fiber executes on it, a dead one is
   dropped and counted out, and a callback executes on the fiber that the worker kept, or
   else on a new one.
   */
  lemma ResumeRuns(s: State, w: nat, made: nat)
    requires Inv(s) && Enabled(s, Resume(w, made))
    ensures var t := Apply(s, Resume(w, made));
            match s.pcs[w].entry.work
            case OfFiber(f) =>
              && f in s.fibers && f in t.fibers && t.cbFibers == s.cbFibers
              && if s.fibers[f].state == TERM || s.fibers[f].state == EXCEPT
                 then t.pcs == s.pcs[w := Scan] && t.active == s.active - 1 && t.fibers[f].state == s.fibers[f].state
                 else t.pcs == s.pcs[w := Running(f, false)] && t.active == s.active && t.fibers[f].state == EXEC
            case OfCallback(_) =>
              var f := if s.cbFibers[w].Some? then s.cbFibers[w].value else made;
              && t.pcs == s.pcs[w := Running(f, true)] && t.active == s.active && t.cbFibers == s.cbFibers[w := None]
              && f in t.fibers && t.fibers[f].state == EXEC
  {
    assert PcOk(s, w) && KeptOk(s, w);
  }

  // ---------- a fiber that yields as READY runs again

  ghost predicate ReadyWaits(s: State, f: nat)
    requires f in s.fibers
  {
    s.fibers[f].state == READY && s.fibers[f].owner == Nobody ==>
      s.fibers[f].ticket.InHand? || Entry(OfFiber(f), -1) in s.queue
  }

  ghost predicate AllReadyWait(s: State) { forall f :: f in s.fibers ==> ReadyWaits(s, f) }

  lemma StaysQueued(q: seq<Entry>, k: nat, x: Entry)
    requires k < |q| && x in q && x != q[k]
    ensures x in q[..k] + q[k + 1..]
  {
    var i :| 0 <= i < |q| && q[i] == x;
    assert x == if i < k then q[..k][i] else q[k + 1..][i - k - 1];
  }

  lemma EnqueueWaits(s: State, e: Entry)
    requires AllReadyWait(s) && MayEnqueue(s, e)
    ensures AllReadyWait(Enqueue(s, e))
  {
    forall f | f in Enqueue(s, e).fibers ensures ReadyWaits(Enqueue(s, e), f) {
      assert ReadyWaits(s, f);
    }
  }

  lemma ScanWaits(s: State, w: nat)
    requires AllReadyWait(s) && w < |s.pcs|
    ensures AllReadyWait(Apply(s, DoScan(w)))
  {
    var t, k := Apply(s, DoScan(w)), ScanFrom(s, w, 0);
    ScanFibers(s, w);
    forall f | f in t.fibers ensures ReadyWaits(t, f) {
      assert ReadyWaits(s, f);
      var x := Entry(OfFiber(f), -1);
      if k < |s.queue| && x in s.queue && x != s.queue[k] {
        StaysQueued(s.queue, k, x);
      }
    }
  }

  lemma SettleWaits(s: State, w: nat)
    requires Inv(s) && Enabled(s, Settle(w)) && AllReadyWait(s)
    ensures AllReadyWait(Apply(s, Settle(w)))
  {
    ComesBack(s, w);
    var t, g := Apply(s, Settle(w)), s.pcs[w].fiber;
    forall f | f in t.fibers ensures ReadyWaits(t, f) {
      assert f != g ==> ReadyWaits(s, f);
      assert PcOk(s, w);
    }
  }

  lemma StepWaits(s: State, step: Step)
    requires Inv(s) && Enabled(s, step) && AllReadyWait(s)
    ensures AllReadyWait(Apply(s, step))
  {
    var t := Apply(s, step);
    match step
    case ScheduleOutside(e) => EnqueueWaits(s, e);
    case ScheduleInside(_, e) => EnqueueWaits(s, e);
    case DoScan(w) => ScanWaits(s, w);
    case Settle(w) => SettleWaits(s, w);
    case _ =>
      forall f | f in t.fibers ensures ReadyWaits(t, f) {
        OtherWaits(s, step, f);
      }
  }

  lemma OtherWaits(s: State, step: Step, f: nat)
    requires Inv(s) && Enabled(s, step) && AllReadyWait(s) && f in Apply(s, step).fibers
    requires !step.ScheduleOutside? && !step.ScheduleInside? && !step.DoScan? && !step.Settle?
    ensures ReadyWaits(Apply(s, step), f)
  {
    if f in s.fibers {
      assert ReadyWaits(s, f);
    }
    match step
    case NewFiber(_) =>
    case Resume(w, made) => ResumeWaits(s, w, made, f);
    case YieldReady(w) => assert PcOk(s, w);
    case Finish(w, _) => assert PcOk(s, w);
    case SwapOut(w) => assert PcOk(s, w);
    case _ => FibersStay(s, step);
  }

  lemma ResumeWaits(s: State, w: nat, made: nat, f: nat)
    requires Inv(s) && Enabled(s, Resume(w, made)) && AllReadyWait(s) && f in Apply(s, Resume(w, made)).fibers
    ensures ReadyWaits(Apply(s, Resume(w, made)), f)
  {
    if f in s.fibers {
      assert ReadyWaits(s, f);
    }
    assert PcOk(s, w);
  }

  lemma {:induction false} RunWaits(s: State, steps: seq<Step>)
    requires Inv(s) && EnabledRun(s, steps) && AllReadyWait(s)
    ensures AllReadyWait(RunTo(s, steps))
    decreases |steps|
  {
    if steps != [] {
      StepKeeps(s, steps[0]);
      StepWaits(s, steps[0]);
      RunWaits(Apply(s, steps[0]), steps[1..]);
    }
  }

  /**
   In every run a fiber that yielded as READY is still with its worker, or in the queue
   for any thread, or in a worker's hands. So when all workers have left there is none,
   nor one that executes: each has run on to its end or to a hold.
   */
  lemma ReadyRunsAgain(s: State, steps: seq<Step>, f: nat)
    requires Init(s) && EnabledRun(s, steps) && f in RunTo(s, steps).fibers
    ensures var e := RunTo(s, steps);
            var b := e.fibers[f];
            && (b.state == READY ==>
                  || (exists w :: 0 <= w < |e.pcs| && HasFiber(e.pcs[w]) && e.pcs[w].fiber == f)
                  || (exists w :: 0 <= w < |e.pcs| && e.pcs[w].Took? && e.pcs[w].entry.work == OfFiber(f))
                  || Entry(OfFiber(f), -1) in e.queue)
            && ((forall w :: 0 <= w < |e.pcs| ==> e.pcs[w].Left?) ==> b.state != READY && b.state != EXEC)
  {
    InitInv(s);
    RunKeeps(s, steps);
    RunWaits(s, steps);
    var e := RunTo(s, steps);
    assert FiberOk(e, f) && ReadyWaits(e, f);
    if e.fibers[f].owner.Kept? {
      assert KeptOk(e, e.fibers[f].owner.w);
    }
    if forall w :: 0 <= w < |e.pcs| ==> e.pcs[w].Left? {
      NothingLost(s, steps, Entry(OfFiber(f), -1));
    }
  }

  // ---------- the order of service

  /** The queue changes at its end and by the scan alone. */
  lemma QueueMoves(s: State, step: Step)
    requires Inv(s) && Enabled(s, step)
    ensures var q := Apply(s, step).queue;
            match step
            case ScheduleOutside(e) => q == s.queue + [e]
            case ScheduleInside(_, e) => q == s.queue + [e]
            case DoScan(w) => q == s.queue || exists k :: 0 <= k < |s.queue| && q == s.queue[..k] + s.queue[k + 1..]
            case Settle(w) => q == s.queue || q == s.queue + [Entry(OfFiber(s.pcs[w].fiber), -1)]
            case _ => q == s.queue
  {
    match step
    case ScheduleOutside(_) =>
    case ScheduleInside(_, _) =>
    case DoScan(w) => ScanFibers(s, w);
    case Settle(w) => ComesBack(s, w);
    case Resume(w, made) => ResumeQueue(s, w, made);
    case NewFiber(_) =>
    case YieldReady(_) =>
    case Finish(_, _) =>
    case SwapOut(_) =>
    case _ => FibersStay(s, step);
  }

  lemma ResumeQueue(s: State, w: nat, made: nat)
    ensures Apply(s, Resume(w, made)).queue == s.queue
  {
  }

  /**
   The scan of worker `w` takes the first entry that is bound to no other thread and is
   not that of an executing fiber, and nothing if there is none.
   */
  lemma ScanTakes(s: State, w: nat) returns (k: nat)
    requires w < |s.pcs|
    ensures k <= |s.queue|
    ensures forall j :: 0 <= j < k ==>
              var e := s.queue[j];
              || (e.thread != -1 && e.thread != w)
              || (e.work.OfFiber? && e.work.id in s.fibers && s.fibers[e.work.id].state == EXEC)
    ensures var t := Apply(s, DoScan(w));
            if k == |s.queue| then t.queue == s.queue && t.active == s.active && t.pcs == s.pcs[w := NoTask]
            else
              var e := s.queue[k];
              && (e.thread == -1 || e.thread == w)
              && !(e.work.OfFiber? && e.work.id in s.fibers && s.fibers[e.work.id].state == EXEC)
              && t.queue == s.queue[..k] + s.queue[k + 1..] && t.active == s.active + 1 && t.pcs == s.pcs[w := Took(e)]
  {
    k := ScanFrom(s, w, 0);
    assert k < |s.queue| ==> Eligible(s, w, s.queue[k]);
    forall j | 0 <= j < k
      ensures var e := s.queue[j];
              || (e.thread != -1 && e.thread != w)
              || (e.work.OfFiber? && e.work.id in s.fibers && s.fibers[e.work.id].state == EXEC)
    {
      assert !Eligible(s, w, s.queue[j]);
    }
  }

  /** Where the entry at `i` is after the entry at `k`, another one, was taken out. */
  function Moved(i: nat, k: nat): nat
    requires i != k
  {
    if k < i then i - 1 else i
  }

  lemma TakenOut(q: seq<Entry>, k: nat, i: nat)
    requires k < |q| && i < |q| && i != k
    ensures Moved(i, k) < |q| - 1 && (q[..k] + q[k + 1..])[Moved(i, k)] == q[i]
  {
  }

  /** The first entry, which is bound to no thread, or the second while the fiber of the first executes. */
  ghost predicate Serves(s: State, step: Step, i: nat, j: nat)
    requires i < j < |s.queue|
  {
    && step.DoScan?
    && var q := Apply(s, step).queue;
       || q == s.queue[..i] + s.queue[i + 1..]
       || (q == s.queue[..j] + s.queue[j + 1..] && s.queue[i].work.OfFiber? && Executing(s, s.queue[i].work.id))
  }

  lemma ScanServes(s: State, w: nat, i: nat, j: nat) returns (i': nat, j': nat)
    requires w < |s.pcs| && i < j < |s.queue| && s.queue[i].thread == -1 && !Serves(s, DoScan(w), i, j)
    ensures var q := Apply(s, DoScan(w)).queue; i' < j' < |q| && q[i'] == s.queue[i] && q[j'] == s.queue[j]
  {
    var k := ScanFrom(s, w, 0);
    ScanFibers(s, w);
    i', j' := i, j;
    if k < |s.queue| {
      assert k != i;
      assert k > i ==> !Eligible(s, w, s.queue[i]);
      assert k != j;
      TakenOut(s.queue, k, i);
      TakenOut(s.queue, k, j);
      i', j' := Moved(i, k), Moved(j, k);
    }
  }

  lemma StepServes(s: State, step: Step, i: nat, j: nat) returns (i': nat, j': nat)
    requires Inv(s) && Enabled(s, step) && i < j < |s.queue| && s.queue[i].thread == -1 && !Serves(s, step, i, j)
    ensures var q := Apply(s, step).queue; i' < j' < |q| && q[i'] == s.queue[i] && q[j'] == s.queue[j]
  {
    if step.DoScan? {
      i', j' := ScanServes(s, step.w, i, j);
    } else {
      QueueMoves(s, step);
      i', j' := i, j;
    }
  }

  /** After `n` steps `a` and `b` are in the queue, at `i` and `j`, and the next step, if there is one, serves them. */
  ghost predicate ServedAt(s: State, steps: seq<Step>, a: Entry, b: Entry, n: nat, i: nat, j: nat) {
    && n <= |steps|
    && var e := RunTo(s, steps[..n]);
       i < j < |e.queue| && e.queue[i] == a && e.queue[j] == b && (n < |steps| ==> Serves(e, steps[n], i, j))
  }

  lemma ServedLater(s: State, steps: seq<Step>, a: Entry, b: Entry, n: nat, i: nat, j: nat)
    requires steps != [] && ServedAt(Apply(s, steps[0]), steps[1..], a, b, n, i, j)
    ensures ServedAt(s, steps, a, b, n + 1, i, j)
  {
    assert steps[..n + 1][1..] == steps[1..][..n];
    assert RunTo(s, steps[..n + 1]) == RunTo(Apply(s, steps[0]), steps[1..][..n]);
  }

  /**
   First come, first served: of two entries in the queue, the first bound to no thread,
   both stay there in this order until a scan takes the first. A scan may take the second
   before it only while the fiber of the first executes.
   */
  lemma {:induction false} FirstComeFirstServed(s: State, steps: seq<Step>, i: nat, j: nat)
    returns (n: nat, i': nat, j': nat)
    requires Inv(s) && EnabledRun(s, steps) && i < j < |s.queue| && s.queue[i].thread == -1
    ensures ServedAt(s, steps, s.queue[i], s.queue[j], n, i', j')
    decreases |steps|
  {
    if steps == [] || Serves(s, steps[0], i, j) {
      n, i', j' := 0, i, j;
      assert steps[..0] == [];
    } else {
      StepKeeps(s, steps[0]);
      var i1, j1 := StepServes(s, steps[0], i, j);
      var m;
      m, i', j' := FirstComeFirstServed(Apply(s, steps[0]), steps[1..], i1, j1);
      n := m + 1;
      ServedLater(s, steps, s.queue[i], s.queue[j], m, i', j');
    }
  }
}
