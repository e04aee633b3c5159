/** Exclusion, accounting and shutdown over every run of the scheduler. */
module SchedulerRuns {
  import opened Options
  import opened SchedulerSpec

  // ---------- fibers

  /** The part of the invariant about fibers, program counters and the queue. */
  ghost predicate Orderly(s: State) {
    Shape(s) && FibersOk(s) && QueueOk(s)
  }

  lemma EnqueueKeeps(s: State, e: Entry)
    requires Orderly(s) && MayEnqueue(s, e)
    ensures Orderly(Enqueue(s, e))
  {
    var t := Enqueue(s, e);
    if e.work.OfFiber? {
      var f := e.work.id;
      forall w | 0 <= w < |t.pcs| ensures PcOk(t, w) {
        assert PcOk(s, w);
      }
      forall w | 0 <= w < |t.pcs| ensures KeptOk(t, w) {
        assert KeptOk(s, w);
      }
      forall g | g in t.fibers ensures FiberOk(t, g) {
        assert FiberOk(s, g);
      }
      forall x | x in t.queue ensures EntryOk(t, x) {
        assert x in s.queue ==> EntryOk(s, x);
      }
      assert forall i :: 0 <= i < |s.queue| ==> s.queue[i] in s.queue && EntryOk(s, s.queue[i]);
    } else {
      forall w | 0 <= w < |t.pcs| ensures PcOk(t, w) && KeptOk(t, w) {
        assert PcOk(s, w) && KeptOk(s, w);
      }
      forall g | g in t.fibers ensures FiberOk(t, g) {
        assert FiberOk(s, g);
      }
      forall x | x in t.queue ensures EntryOk(t, x) {
        assert x in s.queue ==> EntryOk(s, x);
      }
    }
  }

  /** The fibers, the counters and the queue, without the fiber of `f` and the counter of `w`. */
  lemma ChangeOne(s: State, t: State, w: nat, f: nat)
    requires Orderly(s) && w < |s.pcs| && Shape(t) && |t.pcs| == |s.pcs|
    requires forall v :: 0 <= v < |s.pcs| && v != w ==> t.pcs[v] == s.pcs[v] && t.cbFibers[v] == s.cbFibers[v]
    requires forall g :: g != f ==> (g in t.fibers <==> g in s.fibers) && (g in s.fibers ==> t.fibers[g] == s.fibers[g])
    // no other worker deals with `f`, and no other fiber is with `w`
    requires f in t.fibers && FiberOk(t, f) && PcOk(t, w) && KeptOk(t, w)
    requires f in s.fibers ==>
               s.fibers[f].owner == Nobody || s.fibers[f].owner == Worker(w) || s.fibers[f].owner == Kept(w)
    requires f in s.fibers && s.fibers[f].ticket.InHand? && s.fibers[f].ticket != InHand(w) ==>
               t.fibers[f].ticket == s.fibers[f].ticket && Dead(t.fibers[f].state)
    requires HasFiber(s.pcs[w]) ==> s.pcs[w].fiber == f
    requires s.pcs[w].Took? && s.pcs[w].entry.work.OfFiber? ==> s.pcs[w].entry.work.id == f
    requires s.cbFibers[w].Some? ==> s.cbFibers[w].value == f || t.cbFibers[w] == s.cbFibers[w]
    ensures FibersOk(t)
  {
    forall v | 0 <= v < |t.pcs| ensures PcOk(t, v) {
      assert PcOk(s, v);
    }
    forall v | 0 <= v < |t.pcs| ensures KeptOk(t, v) {
      assert KeptOk(s, v);
    }
    forall g | g in t.fibers ensures FiberOk(t, g) {
      if g != f {
        assert FiberOk(s, g);
      }
    }
  }

  /** The queue stays orderly when it does not change and queued fibers keep their tickets. */
  lemma QueueSame(s: State, t: State)
    requires QueueOk(s) && t.queue == s.queue
    requires forall f :: f in s.fibers && s.fibers[f].ticket == Queued ==> f in t.fibers && t.fibers[f].ticket == Queued
    ensures QueueOk(t)
  {
    forall e | e in t.queue ensures EntryOk(t, e) {
      assert EntryOk(s, e);
    }
  }

  lemma NewFiberKeeps(s: State, f: nat)
    requires Orderly(s) && f !in s.fibers
    ensures Orderly(Apply(s, NewFiber(f)))
  {
    var t := Apply(s, NewFiber(f));
    forall w | 0 <= w < |t.pcs| ensures PcOk(t, w) && KeptOk(t, w) {
      assert PcOk(s, w) && KeptOk(s, w);
    }
    forall g | g in t.fibers ensures FiberOk(t, g) {
      if g != f {
        assert FiberOk(s, g);
      }
    }
    QueueSame(s, t);
  }

  /** A step of a worker that has no fiber and touches none. */
  lemma PcOnly(s: State, t: State, w: nat)
    requires Orderly(s) && w < |s.pcs| && Shape(t) && |t.pcs| == |s.pcs|
    requires t.fibers == s.fibers && t.queue == s.queue && t.cbFibers == s.cbFibers
    requires forall v :: 0 <= v < |s.pcs| && v != w ==> t.pcs[v] == s.pcs[v]
    requires !HasFiber(s.pcs[w]) && !s.pcs[w].Took? && !HasFiber(t.pcs[w]) && !t.pcs[w].Took?
    ensures Orderly(t)
  {
    forall v | 0 <= v < |t.pcs| ensures PcOk(t, v) && KeptOk(t, v) {
      assert PcOk(s, v) && KeptOk(s, v);
    }
    forall g | g in t.fibers ensures FiberOk(t, g) {
      assert FiberOk(s, g);
    }
    QueueSame(s, t);
  }

  lemma TakeKeeps(s: State, w: nat, k: nat)
    requires Orderly(s) && w < |s.pcs| && s.pcs[w].Scan? && k < |s.queue| && Eligible(s, w, s.queue[k])
    ensures Orderly(Take(s, w, k))
  {
    var e, t := s.queue[k], Take(s, w, k);
    assert e in s.queue && EntryOk(s, e);
    assert forall j :: 0 <= j < |t.queue| ==> t.queue[j] == if j < k then s.queue[j] else s.queue[j + 1];
    TakeQueue(s, w, k);
    if e.work.OfFiber? {
      ReadyToTake(s, e.work.id);
      TakeFiber(s, t, w, e.work.id);
    } else {
      forall v | 0 <= v < |t.pcs| ensures PcOk(t, v) && KeptOk(t, v) {
        assert PcOk(s, v) && KeptOk(s, v);
      }
      forall g | g in t.fibers ensures FiberOk(t, g) {
        assert FiberOk(s, g);
      }
    }
  }

  /** Only the ticket of `f` changes, and `w` has it. */
  lemma TakeFiber(s: State, t: State, w: nat, f: nat)
    requires Orderly(s) && w < |s.pcs| && s.pcs[w].Scan? && Shape(t) && |t.pcs| == |s.pcs|
    requires f in s.fibers && s.fibers[f].ticket == Queued && s.fibers[f].state != EXEC
    requires s.fibers[f].owner == Nobody || (Dead(s.fibers[f].state) && s.fibers[f].owner.Worker?)
    requires t.fibers == s.fibers[f := s.fibers[f].(ticket := InHand(w))] && t.cbFibers == s.cbFibers
    requires t.pcs[w].Took? && t.pcs[w].entry.work == OfFiber(f)
    requires forall v :: 0 <= v < |s.pcs| && v != w ==> t.pcs[v] == s.pcs[v]
    ensures FibersOk(t)
  {
    forall v | 0 <= v < |t.pcs| ensures PcOk(t, v) {
      assert PcOk(s, v);
    }
    forall v | 0 <= v < |t.pcs| ensures KeptOk(t, v) {
      assert KeptOk(s, v);
    }
    forall g | g in t.fibers ensures FiberOk(t, g) {
      assert FiberOk(s, g);
    }
  }

  lemma KeptIsFree(s: State, f: nat)
    requires Orderly(s) && f in s.fibers && s.fibers[f].owner.Kept?
    ensures s.fibers[f].ticket == NoTicket && s.fibers[f].state == INIT
  {
    assert FiberOk(s, f);
    assert KeptOk(s, s.fibers[f].owner.w);
  }

  /** A queued fiber that is not executing is on nobody's stack, unless it is dead. */
  lemma ReadyToTake(s: State, f: nat)
    requires Orderly(s) && f in s.fibers && s.fibers[f].ticket == Queued && s.fibers[f].state != EXEC
    ensures s.fibers[f].owner == Nobody || (Dead(s.fibers[f].state) && s.fibers[f].owner.Worker?)
  {
    assert FiberOk(s, f);
    match s.fibers[f].owner
    case Nobody =>
    case Worker(w) => assert PcOk(s, w);
    case Kept(w) => KeptIsFree(s, f);
  }

  lemma TakeQueue(s: State, w: nat, k: nat)
    requires QueueOk(s) && w < |s.pcs| && k < |s.queue|
    ensures QueueOk(Take(s, w, k))
  {
    var e, t := s.queue[k], Take(s, w, k);
    forall j | 0 <= j < |t.queue| ensures EntryOk(t, t.queue[j]) {
      var i := if j < k then j else j + 1;
      assert t.queue[j] == s.queue[i] && s.queue[i] in s.queue;
      assert EntryOk(s, s.queue[i]);
      if s.queue[i].work.OfFiber? {
        assert s.queue[i].work != e.work;
      }
    }
    forall i, j | 0 <= i < j < |t.queue| && t.queue[i].work.OfFiber? ensures t.queue[i].work != t.queue[j].work {
      assert s.queue[if i < k then i else i + 1].work != s.queue[if j < k then j else j + 1].work;
    }
  }

  lemma ResumeFiber(s: State, w: nat, f: nat, made: nat)
    requires Orderly(s) && w < |s.pcs| && s.pcs[w].Took? && s.pcs[w].entry.work == OfFiber(f)
    ensures Safe(s.(active := 1), Resume(w, made)) && Orderly(AfterResume(s, w, made))
  {
    var t := AfterResume(s, w, made);
    assert PcOk(s, w) && KeptOk(s, w);
    assert FiberOk(s, f);
    if Dead(s.fibers[f].state) {
      DropDead(s, t, w, f);
    } else {
      ChangeOne(s, t, w, f);
    }
    QueueSame(s, t);
  }

  lemma ResumeCallback(s: State, w: nat, made: nat)
    requires Orderly(s) && w < |s.pcs| && s.pcs[w].Took? && s.pcs[w].entry.work.OfCallback? && made !in s.fibers
    ensures Safe(s.(active := 1), Resume(w, made)) && Orderly(AfterResume(s, w, made))
  {
    var t := AfterResume(s, w, made);
    assert PcOk(s, w) && KeptOk(s, w);
    ChangeOne(s, t, w, if s.cbFibers[w].Some? then s.cbFibers[w].value else made);
    QueueSame(s, t);
  }

  lemma ResumeKeeps(s: State, w: nat, made: nat)
    requires Orderly(s) && Enabled(s, Resume(w, made))
    ensures Safe(s.(active := 1), Resume(w, made)) && Orderly(Apply(s, Resume(w, made)))
  {
    match s.pcs[w].entry.work
    case OfFiber(f) => ResumeFiber(s, w, f, made);
    case OfCallback(_) => ResumeCallback(s, w, made);
  }

  /** A dead fiber in hand is dropped: only its ticket changes. */
  lemma DropDead(s: State, t: State, w: nat, f: nat)
    requires Orderly(s) && w < |s.pcs| && Shape(t) && |t.pcs| == |s.pcs|
    requires s.pcs[w].Took? && s.pcs[w].entry.work == OfFiber(f) && f in s.fibers
    requires t.fibers == s.fibers[f := s.fibers[f].(ticket := NoTicket)] && t.cbFibers == s.cbFibers
    requires t.pcs[w].Scan? && forall v :: 0 <= v < |s.pcs| && v != w ==> t.pcs[v] == s.pcs[v]
    ensures FibersOk(t)
  {
    assert PcOk(s, w);
    forall v | 0 <= v < |t.pcs| ensures PcOk(t, v) {
      assert PcOk(s, v);
    }
    forall v | 0 <= v < |t.pcs| ensures KeptOk(t, v) {
      assert KeptOk(s, v);
    }
    forall g | g in t.fibers ensures FiberOk(t, g) {
      assert FiberOk(s, g);
    }
  }

  /** A step of a worker on the fiber it has. */
  lemma OwnFiber(s: State, t: State, w: nat, f: nat)
    requires Orderly(s) && w < |s.pcs| && HasFiber(s.pcs[w]) && s.pcs[w].fiber == f
    requires f in s.fibers && f in t.fibers && t.fibers == s.fibers[f := t.fibers[f]]
    requires |t.pcs| == |s.pcs| && t.pcs == s.pcs[w := t.pcs[w]] && t.cbFibers == s.cbFibers && t.queue == s.queue
    requires |t.idleDone| == |s.idleDone|
    requires t.fibers[f].ticket == s.fibers[f].ticket
    requires s.fibers[f].ticket.InHand? ==> Dead(t.fibers[f].state)
    requires PcOk(t, w) && FiberOk(t, f)
    requires HasFiber(t.pcs[w]) && t.pcs[w].cb == s.pcs[w].cb
    ensures Orderly(t)
  {
    assert PcOk(s, w) && KeptOk(s, w) && FiberOk(s, f);
    ChangeOne(s, t, w, f);
    QueueSame(s, t);
  }

  /** While a fiber executes nobody has taken its entry. */
  lemma NotInHand(s: State, f: nat)
    requires Orderly(s) && f in s.fibers && s.fibers[f].ticket.InHand?
    ensures s.fibers[f].state != EXEC
  {
    assert FiberOk(s, f);
    assert PcOk(s, s.fibers[f].ticket.w);
  }

  lemma RunningKeeps(s: State, step: Step)
    requires Orderly(s) && Enabled(s, step) && (step.YieldReady? || step.Finish? || step.SwapOut?)
    ensures Safe(s, step) && Orderly(Apply(s, step))
  {
    var w := step.w;
    var f := s.pcs[w].fiber;
    assert PcOk(s, w);
    if s.fibers[f].ticket.InHand? {
      NotInHand(s, f);
    }
    OwnFiber(s, Apply(s, step), w, f);
  }

  lemma DecrementKeeps(s: State, w: nat)
    requires Orderly(s) && Enabled(s, Decrement(w))
    ensures Orderly(Apply(s, Decrement(w)))
  {
    assert PcOk(s, w);
    assert FiberOk(s, s.pcs[w].fiber);
    var t := Apply(s, Decrement(w));
    assert t.fibers == s.fibers[s.pcs[w].fiber := s.fibers[s.pcs[w].fiber]];
    if s.fibers[s.pcs[w].fiber].ticket.InHand? {
      NotInHand(s, s.pcs[w].fiber);
    }
    OwnFiber(s, t, w, s.pcs[w].fiber);
  }

  /** The fiber `f` of worker `w` gets its new place `b`. */
  lemma SettleOne(s: State, w: nat, f: nat, b: Fiber)
    requires Orderly(s) && w < |s.pcs| && s.pcs[w].Counted? && s.pcs[w].fiber == f && f in s.fibers
    requires b.ticket == s.fibers[f].ticket && b.saved && b.state != EXEC && b.owner == Nobody
    requires b.ticket.InHand? ==> Dead(b.state)
    ensures Orderly(SetFiber(SetPc(s, w, Scan), f, b))
  {
    var u := SetFiber(SetPc(s, w, Scan), f, b);
    assert PcOk(s, w) && KeptOk(s, w) && FiberOk(s, f);
    ChangeOne(s, u, w, f);
    QueueSame(s, u);
  }

  lemma KeepFiber(s: State, w: nat, f: nat)
    requires Orderly(s) && w < |s.pcs| && s.pcs[w] == Counted(f, true) && f in s.fibers
    requires s.fibers[f].ticket == NoTicket
    ensures Orderly(SetFiber(SetPc(s, w, Scan), f, Fiber(INIT, true, Kept(w), NoTicket))
                    .(cbFibers := s.cbFibers[w := Some(f)]))
  {
    var u := SetFiber(SetPc(s, w, Scan), f, Fiber(INIT, true, Kept(w), NoTicket))
             .(cbFibers := s.cbFibers[w := Some(f)]);
    assert PcOk(s, w) && KeptOk(s, w) && FiberOk(s, f);
    ChangeOne(s, u, w, f);
    QueueSame(s, u);
  }

  lemma SettleKeeps(s: State, w: nat)
    requires Orderly(s) && Enabled(s, Settle(w))
    ensures Safe(s, Settle(w)) && Orderly(Apply(s, Settle(w)))
  {
    var f := s.pcs[w].fiber;
    assert PcOk(s, w);
    var b := s.fibers[f];
    if b.ticket.InHand? {
      NotInHand(s, f);
    }
    if b.state == READY {
      SettleOne(s, w, f, b.(owner := Nobody));
      EnqueueKeeps(SetFiber(SetPc(s, w, Scan), f, b.(owner := Nobody)), Entry(OfFiber(f), -1));
    } else if Dead(b.state) && s.pcs[w].cb {
      KeepFiber(s, w, f);
    } else if Dead(b.state) {
      SettleOne(s, w, f, b.(owner := Nobody));
    } else {
      SettleOne(s, w, f, b.(state := HOLD, owner := Nobody));
    }
  }

  /** Every step keeps fibers, counters and queue in order, and meets the scheduler's assertions. */
  lemma StepOrderly(s: State, step: Step)
    requires Orderly(s) && Enabled(s, step)
    requires step.Decrement? || step.Resume? ==> s.active > 0
    ensures Safe(s, step) && Orderly(Apply(s, step))
  {
    match step
    case NewFiber(f) => NewFiberKeeps(s, f);
    case ScheduleOutside(e) => EnqueueKeeps(s, e);
    case ScheduleInside(_, e) => EnqueueKeeps(s, e);
    case SetAutoStop => FlagsOnly(s, Apply(s, step));
    case SetStopping => FlagsOnly(s, Apply(s, step));
    case Begin(w, _) => PcOnly(s, Apply(s, step), w);
    case DoScan(w) =>
      var k := ScanFrom(s, w, 0);
      if k < |s.queue| {
        TakeKeeps(s, w, k);
      } else {
        PcOnly(s, Apply(s, step), w);
      }
    case Resume(w, made) => ResumeKeeps(s, w, made);
    case YieldReady(_) => RunningKeeps(s, step);
    case Finish(_, _) => RunningKeeps(s, step);
    case SwapOut(_) => RunningKeeps(s, step);
    case Decrement(w) => DecrementKeeps(s, w);
    case Settle(w) => SettleKeeps(s, w);
    case IdleCheck(w, _) => PcOnly(s, Apply(s, step), w);
    case Wake(w) => PcOnly(s, Apply(s, step), w);
    case Leave(w) => PcOnly(s, Apply(s, step), w);
  }

  lemma FlagsOnly(s: State, t: State)
    requires Orderly(s) && t == s.(autoStop := t.autoStop, stopping := t.stopping)
    ensures Orderly(t)
  {
    forall v | 0 <= v < |t.pcs| ensures PcOk(t, v) && KeptOk(t, v) {
      assert PcOk(s, v) && KeptOk(s, v);
    }
    forall g | g in t.fibers ensures FiberOk(t, g) {
      assert FiberOk(s, g);
    }
    QueueSame(s, t);
  }

  // ---------- the active count

  lemma {:induction false} ActiveUpdate(pcs: seq<Pc>, w: nat, pc: Pc)
    requires w < |pcs|
    ensures Active(pcs[w := pc]) == Active(pcs) - (if Counts(pcs[w]) then 1 else 0) + (if Counts(pc) then 1 else 0)
    ensures Counts(pcs[w]) ==> Active(pcs) > 0
    decreases |pcs|
  {
    var n := |pcs| - 1;
    var init := pcs[..n];
    if w < n {
      ActiveUpdate(init, w, pc);
      assert pcs[w := pc][..n] == init[w := pc];
    } else {
      assert pcs[w := pc][..n] == init;
    }
  }

  lemma CountsOne(s: State, t: State, w: nat)
    requires w < |s.pcs| && s.active == Active(s.pcs)
    requires |t.pcs| == |s.pcs| && t.pcs == s.pcs[w := t.pcs[w]]
    requires t.active == s.active - (if Counts(s.pcs[w]) then 1 else 0) + (if Counts(t.pcs[w]) then 1 else 0)
    ensures t.active == Active(t.pcs)
    ensures Counts(s.pcs[w]) ==> s.active > 0
  {
    ActiveUpdate(s.pcs, w, t.pcs[w]);
  }

  lemma ScanCounts(s: State, w: nat)
    requires s.active == Active(s.pcs) && Enabled(s, DoScan(w))
    ensures Apply(s, DoScan(w)).active == Active(Apply(s, DoScan(w)).pcs)
  {
    CountsOne(s, Apply(s, DoScan(w)), w);
  }

  lemma ResumeCounts(s: State, w: nat, made: nat)
    requires Orderly(s) && s.active == Active(s.pcs) && Enabled(s, Resume(w, made))
    ensures s.active > 0
    ensures Apply(s, Resume(w, made)).active == Active(Apply(s, Resume(w, made)).pcs)
  {
    assert PcOk(s, w);
    CountsOne(s, Apply(s, Resume(w, made)), w);
  }

  /** What settling a fiber leaves to its worker. */
  lemma SettleIs(s: State, w: nat)
    requires Orderly(s) && Enabled(s, Settle(w))
    ensures var t := Apply(s, Settle(w));
            && t.pcs == s.pcs[w := Scan] && t.active == s.active && t.idleDone == s.idleDone
            && t.autoStop == s.autoStop && t.stopping == s.stopping
  {
    assert PcOk(s, w);
  }

  lemma SettleCounts(s: State, w: nat)
    requires Orderly(s) && s.active == Active(s.pcs) && Enabled(s, Settle(w))
    ensures Apply(s, Settle(w)).active == Active(Apply(s, Settle(w)).pcs)
  {
    SettleIs(s, w);
    CountsOne(s, Apply(s, Settle(w)), w);
  }

  lemma FiberCounts(s: State, step: Step)
    requires Orderly(s) && s.active == Active(s.pcs) && Enabled(s, step)
    requires step.YieldReady? || step.Finish? || step.SwapOut? || step.Decrement?
    ensures step.Decrement? ==> s.active > 0
    ensures Apply(s, step).active == Active(Apply(s, step).pcs)
  {
    assert PcOk(s, step.w);
    CountsOne(s, Apply(s, step), step.w);
  }

  lemma IdleCounts(s: State, step: Step)
    requires s.active == Active(s.pcs) && Enabled(s, step)
    requires step.Begin? || step.IdleCheck? || step.Wake? || step.Leave?
    ensures Apply(s, step).active == Active(Apply(s, step).pcs)
  {
    CountsOne(s, Apply(s, step), step.w);
  }

  /** The count is the number of workers between taking an entry and their decrement, on every way out. */
  lemma StepCounts(s: State, step: Step)
    requires Orderly(s) && s.active == Active(s.pcs) && Enabled(s, step)
    ensures step.Decrement? || step.Resume? ==> s.active > 0
    ensures Apply(s, step).active == Active(Apply(s, step).pcs)
  {
    match step
    case DoScan(w) => ScanCounts(s, w);
    case Resume(w, made) => ResumeCounts(s, w, made);
    case Settle(w) => SettleCounts(s, w);
    case YieldReady(_) => FiberCounts(s, step);
    case Finish(_, _) => FiberCounts(s, step);
    case SwapOut(_) => FiberCounts(s, step);
    case Decrement(_) => FiberCounts(s, step);
    case Begin(_, _) => IdleCounts(s, step);
    case IdleCheck(_, _) => IdleCounts(s, step);
    case Wake(_) => IdleCounts(s, step);
    case Leave(_) => IdleCounts(s, step);
    case _ =>
  }

  // ---------- conservation and shutdown

  lemma TakeConserves(q: seq<Entry>, k: nat)
    requires k < |q|
    ensures multiset(q) == multiset(q[..k] + q[k + 1..]) + multiset{q[k]}
  {
    assert q == q[..k] + [q[k]] + q[k + 1..];
  }

  ghost predicate Conserved(s: State) { s.scheduled == s.taken + multiset(s.queue) }

  lemma EnqueueConserves(s: State, e: Entry)
    requires Conserved(s)
    ensures Conserved(Enqueue(s, e))
  {
  }

  lemma SettleConserves(s: State, w: nat)
    requires Orderly(s) && Conserved(s) && Enabled(s, Settle(w))
    ensures Conserved(Apply(s, Settle(w)))
  {
    assert PcOk(s, w);
    var f := s.pcs[w].fiber;
    if s.fibers[f].state == READY {
      EnqueueConserves(SetFiber(SetPc(s, w, Scan), f, s.fibers[f].(owner := Nobody)), Entry(OfFiber(f), -1));
    }
  }

  lemma ScanConserves(s: State, w: nat)
    requires Conserved(s) && Enabled(s, DoScan(w))
    ensures Conserved(Apply(s, DoScan(w)))
  {
    var k := ScanFrom(s, w, 0);
    if k < |s.queue| {
      TakeIs(s, w, k);
    }
  }

  lemma TakeIs(s: State, w: nat, k: nat)
    requires Conserved(s) && w < |s.pcs| && k < |s.queue|
    ensures Conserved(Take(s, w, k))
  {
    var t, e := Take(s, w, k), s.queue[k];
    var q, q' := multiset(s.queue), multiset(t.queue);
    assert q == q' + multiset{e} by {
      TakeConserves(s.queue, k);
      assert t.queue == s.queue[..k] + s.queue[k + 1..];
    }
    OneMore(s.scheduled, s.taken, q, q', e);
    assert t.scheduled == s.scheduled && t.taken == s.taken + multiset{e};
  }

  lemma OneMore(all: multiset<Entry>, a: multiset<Entry>, q: multiset<Entry>, q': multiset<Entry>, e: Entry)
    requires all == a + q && q == q' + multiset{e}
    ensures all == (a + multiset{e}) + q'
  {
  }

  /** Every entry that was scheduled is still queued or was taken, and none is taken twice. */
  lemma StepConserves(s: State, step: Step)
    requires Orderly(s) && Conserved(s) && Enabled(s, step)
    ensures Conserved(Apply(s, step))
  {
    match step
    case ScheduleOutside(e) => EnqueueConserves(s, e);
    case ScheduleInside(_, e) => EnqueueConserves(s, e);
    case DoScan(w) => ScanConserves(s, w);
    case Settle(w) => SettleConserves(s, w);
    case _ => assert Apply(s, step).queue == s.queue;
  }

  /** An entry that no thread is bound to and that this worker may not take: its fiber is on another worker. */
  lemma SkippedIsElsewhere(s: State, w: nat, e: Entry) returns (v: nat)
    requires Orderly(s) && w < |s.pcs| && s.pcs[w].Scan?
    requires e in s.queue && e.thread == -1 && !Eligible(s, w, e)
    ensures v != w && WillScan(s, v)
  {
    var f := e.work.id;
    assert EntryOk(s, e);
    assert FiberOk(s, f);
    assert s.fibers[f].state == EXEC;
    if s.fibers[f].owner.Kept? {
      KeptIsFree(s, f);
    }
    v := s.fibers[f].owner.w;
  }

  /** A worker that goes on scanning after the step. */
  lemma StillScans(s: State, t: State, v: nat)
    requires |s.pcs| == |s.idleDone| && |t.pcs| == |t.idleDone|
    requires WillScan(t, v)
    requires forall w :: 0 <= w < |t.pcs| ==> (t.idleDone[w] || t.pcs[w].Left? ==> t.autoStop && t.stopping)
    ensures ShutdownOk(t)
  {
  }

  ghost predicate Unbound(q: seq<Entry>) { exists e :: e in q && e.thread == -1 }

  /** A worker that found nothing leaves no unbound entry without someone to take it. */
  lemma NothingFound(s: State, w: nat)
    requires Orderly(s) && ShutdownOk(s) && Enabled(s, DoScan(w)) && ScanFrom(s, w, 0) == |s.queue|
    ensures ShutdownOk(SetPc(s, w, NoTask))
  {
    if Unbound(s.queue) {
      var e :| e in s.queue && e.thread == -1;
      var i :| 0 <= i < |s.queue| && s.queue[i] == e;
      var v := SkippedIsElsewhere(s, w, e);
      StillScans(s, SetPc(s, w, NoTask), v);
    }
  }

  lemma ScanShutdown(s: State, w: nat)
    requires Orderly(s) && ShutdownOk(s) && Enabled(s, DoScan(w))
    ensures |Apply(s, DoScan(w)).pcs| == |Apply(s, DoScan(w)).idleDone| && ShutdownOk(Apply(s, DoScan(w)))
  {
    var k := ScanFrom(s, w, 0);
    if k < |s.queue| {
      StillScans(s, Take(s, w, k), w);
    } else {
      NothingFound(s, w);
    }
  }

  lemma FiberShutdown(s: State, step: Step)
    requires Orderly(s) && ShutdownOk(s) && Enabled(s, step)
    requires step.YieldReady? || step.Finish? || step.SwapOut? || step.Decrement? || step.Resume?
    ensures |Apply(s, step).pcs| == |Apply(s, step).idleDone| && ShutdownOk(Apply(s, step))
  {
    assert PcOk(s, step.w);
    StillScans(s, Apply(s, step), step.w);
  }

  lemma SettleShutdown(s: State, w: nat)
    requires Orderly(s) && ShutdownOk(s) && Enabled(s, Settle(w))
    ensures |Apply(s, Settle(w)).pcs| == |Apply(s, Settle(w)).idleDone| && ShutdownOk(Apply(s, Settle(w)))
  {
    SettleIs(s, w);
    StillScans(s, Apply(s, Settle(w)), w);
  }

  lemma IdleShutdown(s: State, step: Step)
    requires Orderly(s) && ShutdownOk(s) && Enabled(s, step)
    requires step.Begin? || step.IdleCheck? || step.Wake? || step.Leave?
    ensures |Apply(s, step).pcs| == |Apply(s, step).idleDone| && ShutdownOk(Apply(s, step))
  {
    var t := Apply(s, step);
    if step.Leave? {
      if Unbound(s.queue) {
        var v :| WillScan(s, v);
        StillScans(s, t, v);
      }
    } else if !(step.Begin? && Stopping(s) && !step.veto) {
      StillScans(s, t, step.w);
    }
  }

  /** No step makes the last worker that would still scan go while an unbound entry is queued. */
  lemma StepShutdown(s: State, step: Step)
    requires Orderly(s) && ShutdownOk(s) && Enabled(s, step)
    ensures |Apply(s, step).pcs| == |Apply(s, step).idleDone| && ShutdownOk(Apply(s, step))
  {
    match step
    case NewFiber(_) => QueueUntouched(s, Apply(s, step));
    case SetAutoStop => QueueUntouched(s, Apply(s, step));
    case SetStopping => QueueUntouched(s, Apply(s, step));
    case ScheduleOutside(e) => StillScans(s, Apply(s, step), 0);
    case ScheduleInside(w, e) => StillScans(s, Apply(s, step), w);
    case DoScan(w) => ScanShutdown(s, w);
    case Settle(w) => SettleShutdown(s, w);
    case Begin(_, _) => IdleShutdown(s, step);
    case IdleCheck(_, _) => IdleShutdown(s, step);
    case Wake(_) => IdleShutdown(s, step);
    case Leave(_) => IdleShutdown(s, step);
    case _ => FiberShutdown(s, step);
  }

  lemma QueueUntouched(s: State, t: State)
    requires Shape(s) && ShutdownOk(s)
    requires t.queue == s.queue && t.pcs == s.pcs && t.idleDone == s.idleDone
    requires s.autoStop ==> t.autoStop
    requires s.stopping ==> t.stopping
    ensures ShutdownOk(t)
  {
    if Unbound(t.queue) {
      var v :| WillScan(s, v);
      StillScans(s, t, v);
    }
  }

  lemma StepKeeps(s: State, step: Step)
    requires Inv(s) && Enabled(s, step)
    ensures Safe(s, step) && Inv(Apply(s, step))
  {
    StepCounts(s, step);
    StepOrderly(s, step);
    StepConserves(s, step);
    StepShutdown(s, step);
  }

  // ---------- runs

  /** Workers that are about to scan or wait for the caller, and nothing else. */
  ghost predicate Init(s: State) {
    && Shape(s)
    && (forall w :: 0 <= w < |s.pcs| ==>
          (s.pcs[w].Scan? || s.pcs[w].NotStarted?) && s.cbFibers[w] == None && !s.idleDone[w])
    && s.queue == [] && s.fibers == map[] && s.active == 0
    && s.scheduled == multiset{} && s.taken == multiset{}
  }

  function RunTo(s: State, steps: seq<Step>): State
    decreases |steps|
  {
    if steps == [] then s else RunTo(Apply(s, steps[0]), steps[1..])
  }

  ghost predicate EnabledRun(s: State, steps: seq<Step>)
    decreases |steps|
  {
    steps == [] || (Enabled(s, steps[0]) && EnabledRun(Apply(s, steps[0]), steps[1..]))
  }

  lemma {:induction false} NoneActive(pcs: seq<Pc>)
    requires forall w :: 0 <= w < |pcs| ==> !Counts(pcs[w])
    ensures Active(pcs) == 0
    decreases |pcs|
  {
    if pcs != [] {
      NoneActive(pcs[..|pcs| - 1]);
    }
  }

  lemma InitInv(s: State)
    requires Init(s)
    ensures Inv(s)
  {
    NoneActive(s.pcs);
  }

  lemma {:induction false} RunKeeps(s: State, steps: seq<Step>)
    requires Inv(s) && EnabledRun(s, steps)
    ensures Inv(RunTo(s, steps))
    decreases |steps|
  {
    if steps != [] {
      StepKeeps(s, steps[0]);
      RunKeeps(Apply(s, steps[0]), steps[1..]);
    }
  }

  /**
   In every run no fiber is on the stacks of two workers, and whatever step comes next
   meets the assertions: a fiber is resumed only when it is not executing, its context
   has been saved and nobody has it; the count does not underflow.
   */
  lemma Exclusion(s: State, steps: seq<Step>, v: nat, w: nat, next: Step)
    requires Init(s) && EnabledRun(s, steps)
    ensures var e := RunTo(s, steps);
            && (v < |e.pcs| && w < |e.pcs| && v != w && HasFiber(e.pcs[v]) && HasFiber(e.pcs[w]) ==>
                  e.pcs[v].fiber != e.pcs[w].fiber)
            && (Enabled(e, next) ==> Safe(e, next))
  {
    InitInv(s);
    RunKeeps(s, steps);
    var e := RunTo(s, steps);
    if v < |e.pcs| && w < |e.pcs| {
      assert PcOk(e, v) && PcOk(e, w);
    }
    if Enabled(e, next) {
      StepKeeps(e, next);
    }
  }

  /** In every run the active count is the number of workers that have an entry or its fiber in hand. */
  lemma ActiveIsExact(s: State, steps: seq<Step>)
    requires Init(s) && EnabledRun(s, steps)
    ensures RunTo(s, steps).active == Active(RunTo(s, steps).pcs)
  {
    InitInv(s);
    RunKeeps(s, steps);
  }

  /**
   In every run of any number of workers, once all have left, every entry that is not
   bound to a thread has been taken from the queue as often as it was put there.
   */
  lemma NothingLost(s: State, steps: seq<Step>, x: Entry)
    requires Init(s) && EnabledRun(s, steps)
    requires forall w :: 0 <= w < |RunTo(s, steps).pcs| ==> RunTo(s, steps).pcs[w].Left?
    requires x.thread == -1
    ensures x !in RunTo(s, steps).queue
    ensures RunTo(s, steps).taken[x] == RunTo(s, steps).scheduled[x]
  {
    InitInv(s);
    RunKeeps(s, steps);
    var e := RunTo(s, steps);
    assert ShutdownOk(e);
    assert multiset(e.queue)[x] == 0;
  }

  // ---------- why the rules for users are needed

  /** The scan of worker `v` stops at place `k`, at an entry of fiber `f`, once `f` does not execute. */
  ghost predicate StopsAt(s: State, v: nat, k: nat, f: nat) {
    && k < |s.queue| && s.queue[k].work == OfFiber(f) && (s.queue[k].thread == -1 || s.queue[k].thread == v)
    && forall j :: 0 <= j < k ==> !Eligible(s, v, s.queue[j])
  }

  lemma ScanIs(s: State, t: State, v: nat, k: nat, f: nat)
    requires QueueOk(s) && StopsAt(s, v, k, f) && t.queue == s.queue && !Executing(t, f)
    requires forall g :: g != f ==> (Executing(t, g) <==> Executing(s, g))
    ensures ScanFrom(t, v, 0) == k
  {
    forall j | 0 <= j < k ensures !Eligible(t, v, t.queue[j]) {
      assert !Eligible(s, v, s.queue[j]);
      assert s.queue[j].work != s.queue[k].work;
    }
    assert Eligible(t, v, t.queue[k]);
  }

  /** A fiber that yields as READY while its entry is queued can be resumed before its context is saved. */
  lemma EarlyReadyIsUnsafe(s: State, w: nat, v: nat, k: nat, made: nat)
    requires Inv(s) && w < |s.pcs| && v < |s.pcs| && s.pcs[w].Running? && s.pcs[v].Scan? && made !in s.fibers
    requires StopsAt(s, v, k, s.pcs[w].fiber)
    ensures var t := Apply(Apply(s, YieldReady(w)), DoScan(v));
            Enabled(t, Resume(v, made)) && !Safe(t, Resume(v, made))
  {
    var f := s.pcs[w].fiber;
    assert PcOk(s, w);
    var t1 := Apply(s, YieldReady(w));
    ScanIs(s, t1, v, k, f);
    TakenThenRun(t1, v, k, f, made);
  }

  /** Worker `w` ends the callback that it runs, up to the point where it scans again. */
  function EndCallback(s: State, w: nat, ok: bool): State {
    Apply(Apply(Apply(Apply(s, Finish(w, ok)), SwapOut(w)), Decrement(w)), Settle(w))
  }

  lemma OutAndCounted(s: State, w: nat, f: nat)
    requires w < |s.pcs| && (s.pcs[w].Running? || s.pcs[w].Leaving?) && s.pcs[w].fiber == f && f in s.fibers
    ensures Apply(Apply(s, SwapOut(w)), Decrement(w)) ==
            s.(pcs := s.pcs[w := Counted(f, s.pcs[w].cb)], fibers := s.fibers[f := s.fibers[f].(saved := true)],
               active := s.active - 1)
  {
    var cb := s.pcs[w].cb;
    assert s.pcs[w := Back(f, cb)][w := Counted(f, cb)] == s.pcs[w := Counted(f, cb)];
  }

  lemma ToCounted(s: State, w: nat, f: nat, ok: bool)
    requires w < |s.pcs| && s.pcs[w] == Running(f, true) && f in s.fibers
    ensures var t := Apply(Apply(Apply(s, Finish(w, ok)), SwapOut(w)), Decrement(w));
            var b := s.fibers[f].(state := if ok then TERM else EXCEPT, saved := true);
            t == s.(pcs := s.pcs[w := Counted(f, true)], fibers := s.fibers[f := b], active := s.active - 1)
  {
    var b := s.fibers[f].(state := if ok then TERM else EXCEPT);
    var t1 := s.(pcs := s.pcs[w := Leaving(f, true)], fibers := s.fibers[f := b]);
    assert t1 == Apply(s, Finish(w, ok));
    OutAndCounted(t1, w, f);
    assert t1.pcs[w := Counted(f, true)] == s.pcs[w := Counted(f, true)];
    assert t1.fibers[f := b.(saved := true)] == s.fibers[f := b.(saved := true)];
  }

  /** It keeps the fiber for its next callback, with whatever entry the fiber has. */
  lemma KeptAfterwards(s: State, w: nat, f: nat, ok: bool)
    requires w < |s.pcs| == |s.cbFibers| && s.pcs[w] == Running(f, true) && f in s.fibers
    ensures EndCallback(s, w, ok) ==
            s.(pcs := s.pcs[w := Scan], cbFibers := s.cbFibers[w := Some(f)], active := s.active - 1,
               fibers := s.fibers[f := Fiber(INIT, true, Kept(w), s.fibers[f].ticket)])
  {
    ToCounted(s, w, f, ok);
    var t := Apply(Apply(Apply(s, Finish(w, ok)), SwapOut(w)), Decrement(w));
    assert t.pcs[w := Scan] == s.pcs[w := Scan];
    assert t.fibers[f := Fiber(INIT, true, Kept(w), s.fibers[f].ticket)] ==
           s.fibers[f := Fiber(INIT, true, Kept(w), s.fibers[f].ticket)];
  }

  /**
   A callback fiber that finishes while its entry is queued: the worker keeps it for its
   next callback, and another worker can take the entry and run the same fiber.
   */
  lemma KeptFiberIsUnsafe(s: State, w: nat, v: nat, k: nat, ok: bool, made: nat)
    requires Inv(s) && w < |s.pcs| && v < |s.pcs| && s.pcs[v].Scan? && made !in s.fibers
    requires s.pcs[w].Running? && s.pcs[w].cb && StopsAt(s, v, k, s.pcs[w].fiber)
    ensures var f, t := s.pcs[w].fiber, Apply(EndCallback(s, w, ok), DoScan(v));
            && Enabled(t, Resume(v, made)) && !Safe(t, Resume(v, made))
            && var u := Apply(t, Resume(v, made));
               && Executing(u, f) && u.pcs == s.pcs[w := Scan][v := Running(f, false)]
               && u.cbFibers == s.cbFibers[w := Some(f)]
  {
    var f := s.pcs[w].fiber;
    assert PcOk(s, w);
    KeptAfterwards(s, w, f, ok);
    var t0 := EndCallback(s, w, ok);
    ScanIs(s, t0, v, k, f);
    TakenThenRun(t0, v, k, f, made);
  }

  lemma TakenThenRun(s: State, v: nat, k: nat, f: nat, made: nat)
    requires v < |s.pcs| == |s.cbFibers| && s.pcs[v].Scan? && ScanFrom(s, v, 0) == k < |s.queue|
    requires s.queue[k].work == OfFiber(f) && f in s.fibers && !Dead(s.fibers[f].state)
    ensures var t := Apply(s, DoScan(v));
            && t.pcs == s.pcs[v := Took(s.queue[k])] && t.fibers == s.fibers[f := s.fibers[f].(ticket := InHand(v))]
            && t.cbFibers == s.cbFibers
            && var u := Apply(t, Resume(v, made));
               Executing(u, f) && u.pcs == s.pcs[v := Running(f, false)] && u.cbFibers == s.cbFibers
  {
    assert s.pcs[v := Took(s.queue[k])][v := Running(f, false)] == s.pcs[v := Running(f, false)];
  }

  /** What `stopping` tells: every scheduled entry was taken, and no worker has an entry or a fiber in hand. */
  lemma StoppingIs(s: State)
    requires Inv(s) && Stopping(s)
    ensures s.scheduled == s.taken
    ensures forall w :: 0 <= w < |s.pcs| ==> !Counts(s.pcs[w])
  {
    forall w | 0 <= w < |s.pcs| ensures !Counts(s.pcs[w]) {
      ActiveUpdate(s.pcs, w, Scan);
    }
  }

  ghost predicate AllLeft(s: State) {
    Shape(s) && forall w :: 0 <= w < |s.pcs| ==> s.pcs[w].Left?
  }

  /** After all workers have left, nothing is taken any more: a task from outside would stay in the queue. */
  lemma LateEntryStays(s: State, e: Entry, steps: seq<Step>)
    requires AllLeft(s) && EnabledRun(Enqueue(s, e), steps)
    ensures RunTo(Enqueue(s, e), steps).taken == s.taken
  {
    StaysLeft(Enqueue(s, e), steps);
  }

  lemma {:induction false} StaysLeft(s: State, steps: seq<Step>)
    requires AllLeft(s) && EnabledRun(s, steps)
    ensures RunTo(s, steps).taken == s.taken
    decreases |steps|
  {
    if steps != [] {
      assert Apply(s, steps[0]).pcs == s.pcs && Apply(s, steps[0]).taken == s.taken;
      StaysLeft(Apply(s, steps[0]), steps[1..]);
    }
  }
}
