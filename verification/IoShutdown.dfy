/**
 The end of an I/O manager. Its `stopping` first reads the count of armed events and then
 makes the scheduler's check under the lock; a worker asks only until its idle fiber has
 ended. Whether an event can be left behind is decided when the last idle fiber ends.
 */
module IoShutdown {
  import opened Options
  import opened SchedulerSpec
  import opened SchedulerRuns

  /**
   The scheduler, the continuations that wait for events, and the workers that have read
   a count of zero and not yet made the scheduler's check.
   */
  datatype Io = Io(s: State, armed: multiset<Work>, looked: set<nat>)

  /** `caller` is the worker that makes the call, or nobody for a thread outside. */
  datatype IoStep =
    | Plain(step: Step)
    | Look(w: nat)                               // the read of the count in `stopping`
    | Arm(caller: Option<nat>, work: Work)
    | Trigger(caller: Option<nat>, work: Work)   // dispatch by an idle worker, or a cancel
    | Drop(caller: Option<nat>, work: Work)

  /** A running fiber may call, an idle worker may dispatch, and a thread outside may call until `stop`. */
  ghost predicate MayCall(s: State, caller: Option<nat>, idle: bool) {
    match caller
    case None => !(s.autoStop && s.stopping)
    case Some(w) => w < |s.pcs| && (s.pcs[w].Running? || (idle && s.pcs[w].Idling?))
  }

  predicate IsCheck(step: Step) { step.IdleCheck? || step.Begin? }

  /** Worker `w` is about to ask `stopping`, in its idle fiber or before it enters `run`. */
  predicate Asks(s: State, w: nat)
    requires w < |s.pcs|
  {
    s.pcs[w].NotStarted? || (s.pcs[w].NoTask? && w < |s.idleDone| && !s.idleDone[w])
  }

  ghost predicate IoEnabled(io: Io, step: IoStep) {
    match step
    case Plain(p) => Enabled(io.s, p) && (IsCheck(p) && p.w !in io.looked ==> p.veto)
    case Look(w) => w < |io.s.pcs| && Asks(io.s, w)
    case Arm(caller, _) => MayCall(io.s, caller, false)
    case Trigger(caller, x) => MayCall(io.s, caller, true) && x in io.armed && MayEnqueue(io.s, Entry(x, -1))
    case Drop(caller, x) => MayCall(io.s, caller, false) && x in io.armed
  }

  function IoApply(io: Io, step: IoStep): Io {
    match step
    case Plain(p) => io.(s := Apply(io.s, p), looked := if IsCheck(p) then io.looked - {p.w} else io.looked)
    case Look(w) => if io.armed == multiset{} then io.(looked := io.looked + {w}) else io
    case Arm(_, x) => io.(armed := io.armed + multiset{x})
    case Trigger(_, x) => io.(s := Enqueue(io.s, Entry(x, -1)), armed := io.armed - multiset{x})
    case Drop(_, x) => io.(armed := io.armed - multiset{x})
  }

  function IoRunTo(io: Io, steps: seq<IoStep>): Io
    decreases |steps|
  {
    if steps == [] then io else IoRunTo(IoApply(io, steps[0]), steps[1..])
  }

  ghost predicate IoEnabledRun(io: Io, steps: seq<IoStep>)
    decreases |steps|
  {
    steps == [] || (IoEnabled(io, steps[0]) && IoEnabledRun(IoApply(io, steps[0]), steps[1..]))
  }

  // ---------- after the last idle fiber has ended

  /** No worker will ask `stopping` or wait for events again. */
  ghost predicate Over(s: State)
    requires Shape(s)
  {
    forall w :: 0 <= w < |s.pcs| ==> s.idleDone[w] || s.pcs[w].Left?
  }

  ghost predicate IdleOk(s: State)
    requires Shape(s)
  {
    forall w :: 0 <= w < |s.pcs| && s.idleDone[w] ==> !s.pcs[w].Idling? && !s.pcs[w].NotStarted?
  }

  /** Worker `w` has counted a READY fiber out and not yet put it back into the queue. */
  predicate Window(s: State, w: nat) {
    w < |s.pcs| && s.pcs[w].Counted? && s.pcs[w].fiber in s.fibers && s.fibers[s.pcs[w].fiber].state == READY
  }

  ghost predicate NoWindow(s: State) { forall w :: 0 <= w < |s.pcs| ==> !Window(s, w) }

  /** Nothing is queued, in hand or on its way back to the queue. */
  ghost predicate Still(s: State) {
    && s.queue == []
    && (forall w :: 0 <= w < |s.pcs| ==> !Counts(s.pcs[w]))
    && NoWindow(s)
  }

  ghost predicate IoInv(io: Io) {
    Inv(io.s) && IdleOk(io.s) && (Over(io.s) ==> Still(io.s) && io.armed == multiset{})
  }

  lemma InvStays(io: Io, step: IoStep)
    requires Inv(io.s) && IoEnabled(io, step)
    ensures Inv(IoApply(io, step).s)
  {
    match step
    case Plain(p) => StepKeeps(io.s, p);
    case Trigger(caller, x) =>
      if caller.Some? {
        StepKeeps(io.s, ScheduleInside(caller.value, Entry(x, -1)));
      } else {
        StepKeeps(io.s, ScheduleOutside(Entry(x, -1)));
      }
    case _ =>
  }

  // ---------- one step

  predicate HasWorker(step: Step) {
    !step.NewFiber? && !step.ScheduleOutside? && !step.SetAutoStop? && !step.SetStopping?
  }

  /** A check of `stopping` that says yes: it ends an idle fiber or lets the caller's thread leave at once. */
  predicate SaysYes(s: State, step: Step) {
    IsCheck(step) && !step.veto && Stopping(s)
  }

  /** What a step may do to the idle fiber and the program counter of its worker, and to no other. */
  ghost predicate Moves(s: State, t: State, w: nat, yes: bool) {
    && w < |s.pcs| == |t.pcs| && |s.idleDone| == |t.idleDone| == |s.pcs|
    && t.pcs == s.pcs[w := t.pcs[w]] && t.idleDone == s.idleDone[w := t.idleDone[w]]
    && (s.idleDone[w] ==> t.idleDone[w]) && !s.pcs[w].Left?
    && (t.idleDone[w] ==> !t.pcs[w].Idling? && !t.pcs[w].NotStarted?)
    && (!yes && (t.idleDone[w] || t.pcs[w].Left?) ==> s.idleDone[w])
  }

  lemma FiberMoves(s: State, step: Step)
    requires Orderly(s) && IdleOk(s) && Enabled(s, step)
    requires step.Resume? || step.YieldReady? || step.Finish? || step.SwapOut? || step.Decrement?
    ensures Moves(s, Apply(s, step), step.w, SaysYes(s, step))
  {
    assert PcOk(s, step.w);
  }

  lemma IdleMoves(s: State, step: Step)
    requires Orderly(s) && IdleOk(s) && Enabled(s, step)
    requires step.Begin? || step.IdleCheck? || step.Wake? || step.Leave? || step.ScheduleInside?
    ensures Moves(s, Apply(s, step), step.w, SaysYes(s, step))
  {
  }

  lemma StepMoves(s: State, step: Step)
    requires Orderly(s) && IdleOk(s) && Enabled(s, step) && HasWorker(step)
    ensures Moves(s, Apply(s, step), step.w, SaysYes(s, step))
  {
    match step
    case DoScan(w) =>
    case Settle(w) => SettleIs(s, w);
    case Resume(_, _) => FiberMoves(s, step);
    case YieldReady(_) => FiberMoves(s, step);
    case Finish(_, _) => FiberMoves(s, step);
    case SwapOut(_) => FiberMoves(s, step);
    case Decrement(_) => FiberMoves(s, step);
    case _ => IdleMoves(s, step);
  }

  lemma MovesKeep(s: State, t: State, w: nat, yes: bool)
    requires Shape(s) && Shape(t) && IdleOk(s) && Moves(s, t, w, yes)
    ensures IdleOk(t) && (Over(s) ==> Over(t)) && (!yes && Over(t) ==> Over(s))
  {
    if !yes && Over(t) {
      forall v | 0 <= v < |s.pcs| ensures s.idleDone[v] || s.pcs[v].Left? {
        assert t.idleDone[v] || t.pcs[v].Left?;
      }
    }
  }

  lemma IdleOkStays(io: Io, step: IoStep)
    requires Inv(io.s) && IdleOk(io.s) && IoEnabled(io, step)
    ensures Inv(IoApply(io, step).s) && IdleOk(IoApply(io, step).s)
    ensures Over(io.s) ==> Over(IoApply(io, step).s)
    ensures Over(IoApply(io, step).s) && !(step.Plain? && SaysYes(io.s, step.step)) ==> Over(io.s)
  {
    InvStays(io, step);
    if step.Plain? && HasWorker(step.step) {
      StepMoves(io.s, step.step);
      MovesKeep(io.s, IoApply(io, step).s, step.step.w, SaysYes(io.s, step.step));
    }
  }

  /** Once nothing moves, only these steps are left. */
  lemma OnlyThese(io: Io, step: IoStep)
    requires Inv(io.s) && IdleOk(io.s) && Over(io.s) && Still(io.s) && IoEnabled(io, step)
    ensures step.Plain?
    ensures var p := step.step;
            p.NewFiber? || p.SetAutoStop? || p.SetStopping? || p.DoScan? || p.Settle? || p.Leave?
  {
    var s := io.s;
    assert s.idleDone[0] || s.pcs[0].Left?;
    assert s.autoStop && s.stopping;
    assert forall w :: 0 <= w < |s.pcs| ==> !Counts(s.pcs[w]) && !s.pcs[w].Idling? && !s.pcs[w].NotStarted?;
  }

  lemma SettleStill(s: State, w: nat)
    requires Inv(s) && Still(s) && Enabled(s, Settle(w))
    ensures Still(Apply(s, Settle(w)))
  {
    SettleIs(s, w);
    assert PcOk(s, w) && !Window(s, w);
    var t, f := Apply(s, Settle(w)), s.pcs[w].fiber;
    assert t.queue == [] && t.fibers == s.fibers[f := t.fibers[f]] && t.fibers[f].state != READY;
    forall v | 0 <= v < |t.pcs| ensures !Counts(t.pcs[v]) && !Window(t, v) {
      assert !Counts(s.pcs[v]) && !Window(s, v);
    }
  }

  lemma PcStill(s: State, t: State, w: nat)
    requires Still(s) && w < |s.pcs| == |t.pcs| && t.pcs == s.pcs[w := t.pcs[w]]
    requires t.queue == s.queue && t.fibers == s.fibers && !Counts(t.pcs[w]) && !t.pcs[w].Counted?
    ensures Still(t)
  {
    forall v | 0 <= v < |t.pcs| ensures !Counts(t.pcs[v]) && !Window(t, v) {
      assert !Counts(s.pcs[v]) && !Window(s, v);
    }
  }

  lemma NewFiberStill(s: State, f: nat)
    requires Inv(s) && Still(s) && f !in s.fibers
    ensures Still(Apply(s, NewFiber(f)))
  {
    var t := Apply(s, NewFiber(f));
    forall v | 0 <= v < |t.pcs| ensures !Counts(t.pcs[v]) && !Window(t, v) {
      assert PcOk(s, v) && !Counts(s.pcs[v]) && !Window(s, v);
    }
  }

  /** Once nothing moves and nobody asks again, it stays so, and the armed events stay armed. */
  lemma StillStays(io: Io, step: IoStep)
    requires Inv(io.s) && IdleOk(io.s) && Over(io.s) && Still(io.s) && IoEnabled(io, step)
    ensures Still(IoApply(io, step).s) && IoApply(io, step).armed == io.armed
  {
    OnlyThese(io, step);
    var s, p := io.s, step.step;
    if p.NewFiber? {
      NewFiberStill(s, p.f);
    } else if p.Settle? {
      SettleStill(s, p.w);
    } else if p.DoScan? || p.Leave? {
      PcStill(s, Apply(s, p), p.w);
    } else {
      FlagsStill(s, Apply(s, p));
    }
  }

  lemma FlagsStill(s: State, t: State)
    requires Still(s) && t == s.(autoStop := t.autoStop, stopping := t.stopping)
    ensures Still(t)
  {
    assert forall v :: Window(t, v) <==> Window(s, v);
  }

  /** The step by which the last idle fiber ends. */
  ghost predicate LastEnd(io: Io, step: IoStep) {
    IoEnabled(io, step) && Shape(io.s) && Shape(IoApply(io, step).s) && !Over(io.s) && Over(IoApply(io, step).s)
  }

  lemma YesStill(s: State, step: Step)
    requires Inv(s) && Enabled(s, step) && SaysYes(s, step) && NoWindow(s)
    ensures Still(Apply(s, step))
  {
    StoppingIs(s);
    PcStill(s, Apply(s, step), step.w);
  }

  /** If it is the last end: no READY fiber is between its count and the queue, and no event is armed. */
  ghost predicate Clean(io: Io, step: IoStep) {
    LastEnd(io, step) ==> NoWindow(io.s) && io.armed == multiset{}
  }

  /** After a clean last end nothing moves and nothing is armed. */
  lemma IoStepKeeps(io: Io, step: IoStep)
    requires IoInv(io) && IoEnabled(io, step) && Clean(io, step)
    ensures IoInv(IoApply(io, step))
  {
    IdleOkStays(io, step);
    if Over(io.s) {
      StillStays(io, step);
    } else if Over(IoApply(io, step).s) {
      YesStill(io.s, step.step);
    }
  }

  // ---------- runs

  ghost predicate CleanRun(io: Io, steps: seq<IoStep>)
    decreases |steps|
  {
    steps == [] || (Clean(io, steps[0]) && CleanRun(IoApply(io, steps[0]), steps[1..]))
  }

  lemma {:induction false} IoRunKeeps(io: Io, steps: seq<IoStep>)
    requires IoInv(io) && IoEnabledRun(io, steps) && CleanRun(io, steps)
    ensures IoInv(IoRunTo(io, steps))
    decreases |steps|
  {
    if steps != [] {
      IoStepKeeps(io, steps[0]);
      IoRunKeeps(IoApply(io, steps[0]), steps[1..]);
    }
  }

  ghost predicate IoInit(io: Io) { Init(io.s) && io.armed == multiset{} && io.looked == {} }

  lemma IoInitInv(io: Io)
    requires IoInit(io)
    ensures IoInv(io)
  {
    InitInv(io.s);
    assert !io.s.idleDone[0] && !io.s.pcs[0].Left?;
  }

  /** In every clean run, once all workers have left, no event is armed and nothing is queued. */
  lemma NothingArmed(io: Io, steps: seq<IoStep>)
    requires IoInit(io) && IoEnabledRun(io, steps) && CleanRun(io, steps)
    requires AllLeft(IoRunTo(io, steps).s)
    ensures IoRunTo(io, steps).armed == multiset{} && IoRunTo(io, steps).s.queue == []
  {
    IoInitInv(io);
    IoRunKeeps(io, steps);
  }

  // ---------- runs that are clean

  /** Workers that have read zero still wait for their check, and nothing was armed since. */
  ghost predicate FreshReads(io: Io) {
    && (forall w :: w in io.looked ==> w < |io.s.pcs| && Asks(io.s, w))
    && (io.looked != {} ==> io.armed == multiset{})
  }

  lemma AskersWait(s: State, step: Step, w: nat)
    requires Orderly(s) && IdleOk(s) && Enabled(s, step) && w < |s.pcs| && Asks(s, w)
    requires !(IsCheck(step) && step.w == w)
    ensures w < |Apply(s, step).pcs| && Asks(Apply(s, step), w)
  {
    if HasWorker(step) {
      StepMoves(s, step);
      assert step.w != w;
    }
  }

  /** Reads stay fresh as long as no event is armed between a read and its check. */
  lemma FreshReadsStay(io: Io, step: IoStep)
    requires Inv(io.s) && IdleOk(io.s) && IoEnabled(io, step) && FreshReads(io)
    requires step.Arm? ==> io.looked == {}
    ensures FreshReads(IoApply(io, step))
  {
    var t := IoApply(io, step);
    forall w | w in t.looked ensures w < |t.s.pcs| && Asks(t.s, w) {
      if step.Plain? {
        AskersWait(io.s, step.step, w);
      }
    }
  }

  /** A check that says yes on a fresh read finds nothing armed. */
  lemma FreshEnd(io: Io, step: IoStep)
    requires Inv(io.s) && IdleOk(io.s) && FreshReads(io) && LastEnd(io, step)
    ensures step.Plain? && SaysYes(io.s, step.step) && io.armed == multiset{}
  {
    IdleOkStays(io, step);
    assert step.step.w in io.looked;
  }

  /** One worker: between its read and its check nothing else runs, so only a thread outside could arm an event. */
  lemma {:induction false} SingleWorkerIsClean(io: Io, steps: seq<IoStep>)
    requires Inv(io.s) && IdleOk(io.s) && FreshReads(io) && |io.s.pcs| == 1 && IoEnabledRun(io, steps)
    requires forall i :: 0 <= i < |steps| && steps[i].Arm? ==> steps[i].caller.Some?
    ensures CleanRun(io, steps)
    decreases |steps|
  {
    if steps != [] {
      var step := steps[0];
      assert step.Arm? ==> step.caller.Some?;
      assert step.Arm? ==> io.looked == {} by {
        assert forall w :: w in io.looked ==> w == 0;
      }
      if LastEnd(io, step) {
        FreshEnd(io, step);
        assert step.step.w == 0;
      }
      IdleOkStays(io, step);
      FreshReadsStay(io, step);
      OneWorkerStays(io, step);
      SingleWorkerIsClean(IoApply(io, step), steps[1..]);
    }
  }

  lemma OneWorkerStays(io: Io, step: IoStep)
    requires Inv(io.s) && IdleOk(io.s) && IoEnabled(io, step)
    ensures |IoApply(io, step).s.pcs| == |io.s.pcs|
  {
    if step.Plain? && HasWorker(step.step) {
      StepMoves(io.s, step.step);
    }
  }

  ghost predicate NoReady(s: State) { forall f :: f in s.fibers ==> s.fibers[f].state != READY }

  ghost predicate NoYields(steps: seq<IoStep>) {
    forall i :: 0 <= i < |steps| ==> !(steps[i].Plain? && steps[i].step.YieldReady?)
  }

  lemma EnqueueNoReady(s: State, e: Entry)
    requires NoReady(s)
    ensures NoReady(Enqueue(s, e))
  {
  }

  lemma ScanNoReady(s: State, w: nat)
    requires NoReady(s)
    ensures NoReady(Apply(s, DoScan(w)))
  {
  }

  lemma ResumeNoReady(s: State, w: nat, made: nat)
    requires NoReady(s)
    ensures NoReady(Apply(s, Resume(w, made)))
  {
  }

  lemma SettleNoReady(s: State, w: nat)
    requires NoReady(s)
    ensures NoReady(Apply(s, Settle(w)))
  {
  }

  lemma StepNoReady(s: State, step: Step)
    requires NoReady(s) && !step.YieldReady?
    ensures NoReady(Apply(s, step))
  {
    match step
    case ScheduleOutside(e) => EnqueueNoReady(s, e);
    case ScheduleInside(_, e) => EnqueueNoReady(s, e);
    case DoScan(w) => ScanNoReady(s, w);
    case Resume(w, made) => ResumeNoReady(s, w, made);
    case Settle(w) => SettleNoReady(s, w);
    case Finish(w, ok) => assert forall f :: f in Apply(s, step).fibers ==> f in s.fibers;
    case _ =>
  }

  lemma NoReadyStays(io: Io, step: IoStep)
    requires NoReady(io.s) && !(step.Plain? && step.step.YieldReady?)
    ensures NoReady(IoApply(io, step).s)
  {
    match step
    case Plain(p) => StepNoReady(io.s, p);
    case Trigger(_, x) => EnqueueNoReady(io.s, Entry(x, -1));
    case _ =>
  }

  /** No event is armed while a worker is between its read and its check. */
  ghost predicate UnseenArms(io: Io, steps: seq<IoStep>)
    decreases |steps|
  {
    steps == [] || ((steps[0].Arm? ==> io.looked == {}) && UnseenArms(IoApply(io, steps[0]), steps[1..]))
  }

  /** Any number of workers: no fiber yields as READY, and no event is armed between a read and its check. */
  lemma {:induction false} QuietRunsAreClean(io: Io, steps: seq<IoStep>)
    requires Inv(io.s) && IdleOk(io.s) && FreshReads(io) && NoReady(io.s) && IoEnabledRun(io, steps)
    requires NoYields(steps) && UnseenArms(io, steps)
    ensures CleanRun(io, steps)
    decreases |steps|
  {
    if steps != [] {
      if LastEnd(io, steps[0]) {
        FreshEnd(io, steps[0]);
      }
      IdleOkStays(io, steps[0]);
      FreshReadsStay(io, steps[0]);
      NoReadyStays(io, steps[0]);
      QuietRunsAreClean(IoApply(io, steps[0]), steps[1..]);
    }
  }

  // ---------- exactly when an event can be left behind

  /** A run after which an event is armed. */
  ghost predicate Strands(io: Io, steps: seq<IoStep>) {
    IoEnabledRun(io, steps) && IoRunTo(io, steps).armed != multiset{}
  }

  lemma {:induction false} NeverStrands(io: Io, steps: seq<IoStep>)
    requires IoInv(io) && Over(io.s)
    ensures !Strands(io, steps)
    decreases |steps|
  {
    if steps != [] && IoEnabled(io, steps[0]) {
      IoStepKeeps(io, steps[0]);
      IdleOkStays(io, steps[0]);
      NeverStrands(IoApply(io, steps[0]), steps[1..]);
    }
  }

  lemma {:induction false} FreshId(ids: set<nat>) returns (n: nat)
    ensures n !in ids && forall x :: x in ids ==> x < n
    decreases |ids|
  {
    n := 0;
    if ids != {} {
      var x :| x in ids;
      assert forall y :: y in ids ==> y == x || y in ids - {x};
      var m := FreshId(ids - {x});
      n := if x < m then m else x + 1;
    }
  }

  lemma StrandsAfter(io: Io, step: IoStep, steps: seq<IoStep>)
    requires IoEnabled(io, step) && Strands(IoApply(io, step), steps)
    ensures Strands(io, [step] + steps)
  {
    assert ([step] + steps)[1..] == steps;
  }

  lemma RequeuedAlone(s: State, v: nat)
    requires Orderly(s) && Window(s, v) && s.queue == []
    ensures var f, t := s.pcs[v].fiber, Apply(s, Settle(v));
            && t.queue == [Entry(OfFiber(f), -1)] && t.pcs == s.pcs[v := Scan] && t.cbFibers == s.cbFibers
            && t.fibers.Keys == s.fibers.Keys && t.fibers[f].state == READY
            && ScanFrom(t, v, 0) == 0
  {
    assert PcOk(s, v);
    var t := Apply(s, Settle(v));
    assert Eligible(t, v, t.queue[0]);
  }

  /** The worker with the READY fiber puts it back, takes it again, and the fiber arms an event. */
  lemma WindowStrands(io: Io, v: nat, made: nat) returns (steps: seq<IoStep>)
    requires Inv(io.s) && Window(io.s, v) && io.s.queue == [] && made !in io.s.fibers
    ensures Strands(io, steps)
  {
    RequeuedAlone(io.s, v);
    var s1 := Apply(io.s, Settle(v));
    TakenThenRun(s1, v, 0, io.s.pcs[v].fiber, made);
    var s2 := Apply(s1, DoScan(v));
    var io3 := io.(s := Apply(s2, Resume(v, made)));
    var arm := Arm(Some(v), OfCallback(0));
    assert OfCallback(0) in IoApply(io3, arm).armed;
    StrandsAfter(io3, arm, []);
    StrandsAfter(io.(s := s2), Plain(Resume(v, made)), [arm] + []);
    StrandsAfter(io.(s := s1), Plain(DoScan(v)), [Plain(Resume(v, made))] + ([arm] + []));
    steps := [Plain(DoScan(v))] + ([Plain(Resume(v, made))] + ([arm] + []));
    StrandsAfter(io, Plain(Settle(v)), steps);
    steps := [Plain(Settle(v))] + steps;
  }

  /**
   When the last idle fiber ends, an event is armed or can still be armed afterwards,
   which nobody will wait for, if and only if the end is not clean: a READY fiber is
   between its count and the queue, or an event was armed behind the read of the count.
   */
  lemma LeftBehind(io: Io, step: IoStep)
    requires IoInv(io) && LastEnd(io, step)
    ensures (exists steps :: Strands(IoApply(io, step), steps)) <==> !NoWindow(io.s) || io.armed != multiset{}
  {
    var t := IoApply(io, step);
    IdleOkStays(io, step);
    if io.armed != multiset{} {
      assert Strands(t, []);
    } else if NoWindow(io.s) {
      IoStepKeeps(io, step);
      forall steps ensures !Strands(t, steps) {
        NeverStrands(t, steps);
      }
    } else {
      var v :| 0 <= v < |io.s.pcs| && Window(io.s, v);
      assert Window(t.s, v);
      var made := FreshId(t.s.fibers.Keys);
      var steps := WindowStrands(t, v, made);
    }
  }
}
