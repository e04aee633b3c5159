/**
 Fibers that wait only by adding an event for themselves and then yielding to hold, as
 the hooked system calls do. For them the rules about outstanding entries need not be
 assumed: they follow.
 */
module Waiters {
  import opened Options
  import opened SchedulerSpec
  import opened SchedulerRuns
  import opened IoShutdown

  /** `asked`: the workers whose fiber has added its event and has yet to yield. */
  datatype Pool = Pool(io: Io, asked: set<nat>)

  /** A fiber that was made and not yet scheduled. */
  predicate IsNew(s: State, f: nat) {
    f in s.fibers && s.fibers[f] == Fiber(INIT, true, Nobody, NoTicket)
  }

  /** Worker `w` runs a fiber that is not between its event and its yield. */
  predicate InOwnCode(p: Pool, w: nat) {
    w < |p.io.s.pcs| && p.io.s.pcs[w].Running? && w !in p.asked
  }

  /**
   What the code of such fibers does: it schedules only callbacks and new fibers, it adds
   an event for a fiber only from that fiber, and then the next thing is the yield. There
   is no rule about entries, and none about when an event may be dispatched or cancelled.
   */
  ghost predicate Disciplined(p: Pool, step: IoStep) {
    var s := p.io.s;
    match step
    case Plain(st) =>
      && (IsCheck(st) && st.w !in p.io.looked ==> st.veto)
      && (match st
          case ScheduleOutside(e) => !(s.autoStop && s.stopping) && (e.work.OfFiber? ==> IsNew(s, e.work.id))
          case ScheduleInside(w, e) =>
            w < |s.pcs| && (s.pcs[w].Running? || s.pcs[w].Idling?) && (e.work.OfFiber? ==> IsNew(s, e.work.id))
          case YieldReady(w) => InOwnCode(p, w)
          case Finish(w, _) => InOwnCode(p, w)
          case _ => Enabled(s, st))
    case Look(w) => IoEnabled(p.io, step)
    case Arm(caller, x) =>
      && MayCall(s, caller, false)
      && (x.OfFiber? ==> caller.Some? && InOwnCode(p, caller.value) && s.pcs[caller.value].fiber == x.id)
    case Trigger(caller, x) => MayCall(s, caller, true) && x in p.io.armed
    case Drop(caller, x) => MayCall(s, caller, false) && x in p.io.armed
  }

  function Next(p: Pool, step: IoStep): Pool {
    Pool(IoApply(p.io, step),
         match step
         case Arm(Some(w), OfFiber(_)) => p.asked + {w}
         case Plain(SwapOut(w)) => p.asked - {w}
         case _ => p.asked)
  }

  // ---------- the invariant

  /** The armed events and the outstanding entry of a fiber, together. */
  function Load(io: Io, f: nat): nat
    requires f in io.s.fibers
  {
    io.armed[OfFiber(f)] + (if io.s.fibers[f].ticket == NoTicket then 0 else 1)
  }

  /** The fiber is where an event or an entry for it can do no harm. */
  ghost predicate Rests(p: Pool, f: nat)
    requires f in p.io.s.fibers
  {
    var b := p.io.s.fibers[f];
    match b.owner
    case Nobody => true
    case Kept(_) => false
    case Worker(w) =>
      w < |p.io.s.pcs| &&
      match p.io.s.pcs[w]
      case Running(_, _) => w in p.asked
      case Back(_, _) => b.state == EXEC
      case Counted(_, _) => b.state == EXEC
      case _ => false
  }

  ghost predicate Waits(p: Pool, f: nat)
    requires f in p.io.s.fibers
  {
    && Load(p.io, f) <= 1 && (Load(p.io, f) == 1 ==> Rests(p, f))
    && (p.io.s.fibers[f].state == INIT ==> p.io.armed[OfFiber(f)] == 0)
  }

  ghost predicate Known(p: Pool) {
    && (forall f :: OfFiber(f) in p.io.armed ==> f in p.io.s.fibers)
    && (forall w :: w in p.asked ==> w < |p.io.s.pcs| && p.io.s.pcs[w].Running?)
  }

  ghost predicate WaitOk(p: Pool) {
    Known(p) && forall f :: f in p.io.s.fibers ==> Waits(p, f)
  }

  // ---------- discipline gives the rules

  lemma OwnCodeIsFree(p: Pool, w: nat)
    requires Orderly(p.io.s) && WaitOk(p) && InOwnCode(p, w)
    ensures var f := p.io.s.pcs[w].fiber; f in p.io.s.fibers && Load(p.io, f) == 0
  {
    assert PcOk(p.io.s, w);
    assert Waits(p, p.io.s.pcs[w].fiber);
  }

  /** Whenever its event is dispatched or cancelled, the fiber may be scheduled. */
  lemma ArmedMayBeScheduled(p: Pool, f: nat)
    requires Orderly(p.io.s) && WaitOk(p) && OfFiber(f) in p.io.armed
    ensures MaySchedule(p.io.s, f)
  {
    assert Waits(p, f) && FiberOk(p.io.s, f);
    var b := p.io.s.fibers[f];
    if b.owner.Worker? {
      assert PcOk(p.io.s, b.owner.w);
    }
  }

  /** A disciplined step meets every rule for users. */
  lemma DisciplinedIsEnabled(p: Pool, step: IoStep)
    requires Orderly(p.io.s) && WaitOk(p) && Disciplined(p, step)
    ensures IoEnabled(p.io, step)
  {
    match step
    case Plain(YieldReady(w)) => OwnCodeIsFree(p, w);
    case Plain(Finish(w, _)) => OwnCodeIsFree(p, w);
    case Trigger(_, OfFiber(f)) => ArmedMayBeScheduled(p, f);
    case _ =>
  }

  // ---------- every step keeps the invariant

  /** A step that touches at most fiber `f` and worker `w`; `w` beyond the workers stands for none. */
  lemma OneFiber(p: Pool, q: Pool, w: nat, f: nat)
    requires Orderly(p.io.s) && WaitOk(p) && Known(q)
    requires |q.io.s.pcs| == |p.io.s.pcs|
    requires forall v :: 0 <= v < |p.io.s.pcs| && v != w ==>
               q.io.s.pcs[v] == p.io.s.pcs[v] && (v in q.asked <==> v in p.asked)
    requires w < |p.io.s.pcs| && HasFiber(p.io.s.pcs[w]) ==> p.io.s.pcs[w].fiber == f
    requires forall g :: g != f ==> (g in q.io.s.fibers <==> g in p.io.s.fibers)
    requires forall g :: g != f && g in p.io.s.fibers ==> q.io.s.fibers[g] == p.io.s.fibers[g]
    requires forall g :: g != f ==> q.io.armed[OfFiber(g)] == p.io.armed[OfFiber(g)]
    requires f in q.io.s.fibers ==> Waits(q, f)
    ensures WaitOk(q)
  {
    forall g | g in q.io.s.fibers ensures Waits(q, g) {
      if g != f {
        assert Waits(p, g) && FiberOk(p.io.s, g);
      }
    }
  }

  /** A step of a worker without a fiber that touches none. */
  lemma NoFiber(p: Pool, q: Pool, w: nat)
    requires Orderly(p.io.s) && WaitOk(p) && Known(q)
    requires q.io.s.fibers == p.io.s.fibers && q.asked == p.asked
    requires |q.io.s.pcs| == |p.io.s.pcs|
    requires forall v :: 0 <= v < |p.io.s.pcs| && v != w ==> q.io.s.pcs[v] == p.io.s.pcs[v]
    requires w < |p.io.s.pcs| ==> !HasFiber(p.io.s.pcs[w])
    requires forall g :: q.io.armed[OfFiber(g)] == p.io.armed[OfFiber(g)]
    ensures WaitOk(q)
  {
    var f := FreshId(p.io.s.fibers.Keys);
    OneFiber(p, q, w, f);
  }

  lemma EnqueueWaits(p: Pool, q: Pool, x: Work, thread: int)
    requires Orderly(p.io.s) && WaitOk(p) && q.asked == p.asked && q.io.s == Enqueue(p.io.s, Entry(x, thread))
    requires x.OfFiber? ==> x.id in p.io.s.fibers && p.io.s.fibers[x.id].ticket == NoTicket
    requires x.OfFiber? ==> Load(p.io, x.id) == 1 || p.io.s.fibers[x.id].owner == Nobody
    requires forall g :: q.io.armed[OfFiber(g)] == if x == OfFiber(g) then 0 else p.io.armed[OfFiber(g)]
    ensures WaitOk(q)
  {
    if x.OfFiber? {
      assert Waits(p, x.id);
      OneFiber(p, q, |p.io.s.pcs|, x.id);
    } else {
      NoFiber(p, q, |p.io.s.pcs|);
    }
  }

  lemma ScheduleKeeps(p: Pool, e: Entry)
    requires Orderly(p.io.s) && WaitOk(p) && (e.work.OfFiber? ==> IsNew(p.io.s, e.work.id))
    ensures WaitOk(p.(io := p.io.(s := Enqueue(p.io.s, e))))
  {
    if e.work.OfFiber? {
      assert Waits(p, e.work.id);
    }
    EnqueueWaits(p, p.(io := p.io.(s := Enqueue(p.io.s, e))), e.work, e.thread);
  }

  lemma TriggerKeeps(p: Pool, x: Work)
    requires Orderly(p.io.s) && WaitOk(p) && x in p.io.armed
    ensures WaitOk(p.(io := IoApply(p.io, Trigger(None, x))))
  {
    if x.OfFiber? {
      assert Waits(p, x.id);
    }
    EnqueueWaits(p, p.(io := IoApply(p.io, Trigger(None, x))), x, -1);
  }

  lemma DropKeeps(p: Pool, x: Work)
    requires Orderly(p.io.s) && WaitOk(p) && x in p.io.armed
    ensures WaitOk(p.(io := IoApply(p.io, Drop(None, x))))
  {
    var q := p.(io := IoApply(p.io, Drop(None, x)));
    if x.OfFiber? {
      assert Waits(p, x.id);
      OneFiber(p, q, |p.io.s.pcs|, x.id);
    } else {
      NoFiber(p, q, |p.io.s.pcs|);
    }
  }

  lemma ArmKeeps(p: Pool, caller: Option<nat>, x: Work)
    requires Orderly(p.io.s) && WaitOk(p) && Disciplined(p, Arm(caller, x))
    ensures WaitOk(Next(p, Arm(caller, x)))
  {
    var q := Next(p, Arm(caller, x));
    if x.OfFiber? {
      OwnCodeIsFree(p, caller.value);
      assert PcOk(p.io.s, caller.value);
      OneFiber(p, q, caller.value, x.id);
    } else {
      NoFiber(p, q, |p.io.s.pcs|);
    }
  }

  lemma NewFiberKeeps(p: Pool, f: nat)
    requires Orderly(p.io.s) && WaitOk(p) && f !in p.io.s.fibers
    ensures WaitOk(Next(p, Plain(NewFiber(f))))
  {
    assert OfFiber(f) !in p.io.armed;
    OneFiber(p, Next(p, Plain(NewFiber(f))), |p.io.s.pcs|, f);
  }

  lemma ScanKeeps(p: Pool, w: nat)
    requires Orderly(p.io.s) && WaitOk(p) && Enabled(p.io.s, DoScan(w))
    ensures WaitOk(Next(p, Plain(DoScan(w))))
  {
    var s, q := p.io.s, Next(p, Plain(DoScan(w)));
    var k := ScanFrom(s, w, 0);
    if k < |s.queue| && s.queue[k].work.OfFiber? {
      assert s.queue[k] in s.queue && EntryOk(s, s.queue[k]);
      var f := s.queue[k].work.id;
      assert Waits(p, f) && FiberOk(s, f);
      OneFiber(p, q, w, f);
    } else {
      NoFiber(p, q, w);
    }
  }

  lemma ResumeFiberKeeps(p: Pool, w: nat, f: nat, made: nat)
    requires Orderly(p.io.s) && WaitOk(p) && Enabled(p.io.s, Resume(w, made)) && p.io.s.pcs[w].entry.work == OfFiber(f)
    ensures WaitOk(Next(p, Plain(Resume(w, made))))
  {
    assert PcOk(p.io.s, w);
    assert Waits(p, f) && FiberOk(p.io.s, f);
    OneFiber(p, Next(p, Plain(Resume(w, made))), w, f);
  }

  lemma ResumeCallbackKeeps(p: Pool, w: nat, made: nat)
    requires Orderly(p.io.s) && WaitOk(p) && Enabled(p.io.s, Resume(w, made)) && p.io.s.pcs[w].entry.work.OfCallback?
    ensures WaitOk(Next(p, Plain(Resume(w, made))))
  {
    var s := p.io.s;
    var f := if s.cbFibers[w].Some? then s.cbFibers[w].value else made;
    assert KeptOk(s, w);
    if s.cbFibers[w].Some? {
      assert Waits(p, f);
    } else {
      assert OfFiber(made) !in p.io.armed;
    }
    OneFiber(p, Next(p, Plain(Resume(w, made))), w, f);
  }

  lemma OwnKeeps(p: Pool, step: Step)
    requires Orderly(p.io.s) && WaitOk(p) && Disciplined(p, Plain(step))
    requires step.YieldReady? || step.Finish? || step.SwapOut? || step.Decrement?
    ensures WaitOk(Next(p, Plain(step)))
  {
    var w := step.w;
    var f := p.io.s.pcs[w].fiber;
    assert PcOk(p.io.s, w);
    assert Waits(p, f) && FiberOk(p.io.s, f);
    if step.YieldReady? || step.Finish? {
      OwnCodeIsFree(p, w);
    }
    OneFiber(p, Next(p, Plain(step)), w, f);
  }

  lemma SettleKeeps(p: Pool, w: nat)
    requires Orderly(p.io.s) && WaitOk(p) && Enabled(p.io.s, Settle(w))
    ensures WaitOk(Next(p, Plain(Settle(w))))
  {
    var f := p.io.s.pcs[w].fiber;
    assert PcOk(p.io.s, w);
    assert Waits(p, f) && FiberOk(p.io.s, f);
    SettleIs(p.io.s, w);
    OneFiber(p, Next(p, Plain(Settle(w))), w, f);
  }

  lemma IdleKeeps(p: Pool, step: Step)
    requires Orderly(p.io.s) && WaitOk(p) && Enabled(p.io.s, step)
    requires step.Begin? || step.IdleCheck? || step.Wake? || step.Leave?
    ensures WaitOk(Next(p, Plain(step)))
  {
    NoFiber(p, Next(p, Plain(step)), step.w);
  }

  lemma PlainKeeps(p: Pool, step: Step)
    requires Orderly(p.io.s) && WaitOk(p) && Disciplined(p, Plain(step))
    ensures WaitOk(Next(p, Plain(step)))
  {
    match step
    case NewFiber(f) => NewFiberKeeps(p, f);
    case ScheduleOutside(e) => ScheduleKeeps(p, e);
    case ScheduleInside(_, e) => ScheduleKeeps(p, e);
    case SetAutoStop => NoFiber(p, Next(p, Plain(step)), |p.io.s.pcs|);
    case SetStopping => NoFiber(p, Next(p, Plain(step)), |p.io.s.pcs|);
    case DoScan(w) => ScanKeeps(p, w);
    case Resume(w, made) =>
      if p.io.s.pcs[w].entry.work.OfFiber? {
        ResumeFiberKeeps(p, w, p.io.s.pcs[w].entry.work.id, made);
      } else {
        ResumeCallbackKeeps(p, w, made);
      }
    case Settle(w) => SettleKeeps(p, w);
    case YieldReady(_) => OwnKeeps(p, step);
    case Finish(_, _) => OwnKeeps(p, step);
    case SwapOut(_) => OwnKeeps(p, step);
    case Decrement(_) => OwnKeeps(p, step);
    case _ => IdleKeeps(p, step);
  }

  lemma WaitersKeep(p: Pool, step: IoStep)
    requires Inv(p.io.s) && WaitOk(p) && Disciplined(p, step)
    ensures IoEnabled(p.io, step) && Inv(Next(p, step).io.s) && WaitOk(Next(p, step))
  {
    DisciplinedIsEnabled(p, step);
    InvStays(p.io, step);
    match step
    case Plain(st) => PlainKeeps(p, st);
    case Look(_) => NoFiber(p, Next(p, step), |p.io.s.pcs|);
    case Arm(caller, x) => ArmKeeps(p, caller, x);
    case Trigger(_, x) => TriggerKeeps(p, x);
    case Drop(_, x) => DropKeeps(p, x);
  }

  // ---------- runs

  ghost predicate DisciplinedRun(p: Pool, steps: seq<IoStep>)
    decreases |steps|
  {
    steps == [] || (Disciplined(p, steps[0]) && DisciplinedRun(Next(p, steps[0]), steps[1..]))
  }

  function PoolTo(p: Pool, steps: seq<IoStep>): Pool
    decreases |steps|
  {
    if steps == [] then p else PoolTo(Next(p, steps[0]), steps[1..])
  }

  lemma {:induction false} DisciplinedRunKeeps(p: Pool, steps: seq<IoStep>)
    requires Inv(p.io.s) && WaitOk(p) && DisciplinedRun(p, steps)
    ensures IoEnabledRun(p.io, steps) && PoolTo(p, steps).io == IoRunTo(p.io, steps)
    ensures Inv(PoolTo(p, steps).io.s) && WaitOk(PoolTo(p, steps))
    decreases |steps|
  {
    if steps != [] {
      WaitersKeep(p, steps[0]);
      DisciplinedRunKeeps(Next(p, steps[0]), steps[1..]);
    }
  }

  /**
   In every disciplined run of any number of workers, all rules for users are met, no
   fiber is on two stacks, every armed fiber may be scheduled, and whatever disciplined
   step comes next meets the scheduler's assertions.
   */
  lemma WaitersAreSafe(p: Pool, steps: seq<IoStep>, v: nat, w: nat, next: IoStep)
    requires IoInit(p.io) && p.asked == {} && DisciplinedRun(p, steps)
    ensures IoEnabledRun(p.io, steps)
    ensures var e := PoolTo(p, steps);
            && (forall f :: OfFiber(f) in e.io.armed ==> MaySchedule(e.io.s, f))
            && (v < |e.io.s.pcs| && w < |e.io.s.pcs| && v != w && HasFiber(e.io.s.pcs[v]) && HasFiber(e.io.s.pcs[w]) ==>
                  e.io.s.pcs[v].fiber != e.io.s.pcs[w].fiber)
            && (Disciplined(e, next) && next.Plain? ==> Safe(e.io.s, next.step))
  {
    InitInv(p.io.s);
    DisciplinedRunKeeps(p, steps);
    var e := PoolTo(p, steps);
    forall f | OfFiber(f) in e.io.armed ensures MaySchedule(e.io.s, f) {
      ArmedMayBeScheduled(e, f);
    }
    OneStackEach(e.io.s, v, w);
    if Disciplined(e, next) && next.Plain? {
      NextIsSafe(e, next);
    }
  }

  lemma OneStackEach(s: State, v: nat, w: nat)
    requires Inv(s)
    ensures v < |s.pcs| && w < |s.pcs| && v != w && HasFiber(s.pcs[v]) && HasFiber(s.pcs[w]) ==>
              s.pcs[v].fiber != s.pcs[w].fiber
  {
    if v < |s.pcs| && w < |s.pcs| {
      assert PcOk(s, v) && PcOk(s, w);
    }
  }

  lemma NextIsSafe(p: Pool, step: IoStep)
    requires Inv(p.io.s) && WaitOk(p) && Disciplined(p, step) && step.Plain?
    ensures Safe(p.io.s, step.step)
  {
    DisciplinedIsEnabled(p, step);
    StepKeeps(p.io.s, step.step);
  }
}
