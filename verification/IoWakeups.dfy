/** From the event table to the workers: what the table hands out is queued, and taken in the end. */
module IoWakeups {
  import opened Options
  import S = SchedulerSpec
  import R = SchedulerRuns
  import opened IoShutdown
  import opened Waiters
  import opened EventSpec
  import opened EventRuns
  import opened IoEvents

  // ---------- one call

  /** The continuations that a call on the table hands out, in order. */
  function Handed(table: EventSpec.State, call: Call): seq<Task> {
    match call.op
    case Cancel(fd, e) => if Goes(table, fd, e, call.refuse) then Fired(table.fds[fd].Get(e), true) else []
    case CancelAll(fd) =>
      if fd < |table.fds| && !call.refuse then FiredBy(table.fds[fd], table.fds[fd].events) else []
    case Dispatch(fd, reported, failed) =>
      if fd < |table.fds| && !call.refuse then FiredBy(table.fds[fd], Awakened(table.fds[fd], reported, failed)) else []
    case _ => []
  }

  /** Their queue entries, for any thread. */
  function Entries(ts: seq<Task>): seq<S.Entry> {
    if ts == [] then [] else [S.Entry(WorkOf(ts[0]), -1)] + Entries(ts[1..])
  }

  lemma {:induction false} EntriesJoin(a: seq<Task>, b: seq<Task>)
    ensures Entries(a + b) == Entries(a) + Entries(b)
    decreases |a|
  {
    if a == [] {
      assert a + b == b;
    } else {
      assert (a + b)[1..] == a[1..] + b;
      EntriesJoin(a[1..], b);
    }
  }

  /** The scheduler's queue and books grew by these entries. */
  ghost predicate Queued(p: Pool, q: Pool, es: seq<S.Entry>) {
    && q.io.s.queue == p.io.s.queue + es
    && q.io.s.scheduled == p.io.s.scheduled + multiset(es) && q.io.s.taken == p.io.s.taken
  }

  lemma QueuedTwice(p: Pool, q: Pool, r: Pool, a: seq<S.Entry>, b: seq<S.Entry>)
    requires Queued(p, q, a) && Queued(q, r, b)
    ensures Queued(p, r, a + b)
  {
  }

  lemma WakeOneQueues(p: Pool, caller: Option<nat>, c: Context, want: bool)
    ensures Queued(p, PoolTo(p, WakeOne(caller, c, want)), Entries(Fired(c, want)))
  {
    if want && Fire(c).Some? {
      OneStep(p, Trigger(caller, WorkOf(Fire(c).value)));
      assert Fired(c, want)[1..] == [];
    }
  }

  lemma {:induction false} PoolAfter(p: Pool, a: seq<IoStep>, b: seq<IoStep>)
    ensures PoolTo(p, a + b) == PoolTo(PoolTo(p, a), b)
    decreases |a|
  {
    if a == [] {
      assert a + b == b;
    } else {
      assert (a + b)[1..] == a[1..] + b;
      PoolAfter(Next(p, a[0]), a[1..], b);
    }
  }

  lemma WakesQueue(p: Pool, caller: Option<nat>, f: Fd, due: Mask)
    ensures Queued(p, PoolTo(p, Wakes(caller, f, due)), Entries(FiredBy(f, due)))
  {
    var one, two := WakeOne(caller, f.read, READ in due), WakeOne(caller, f.write, WRITE in due);
    var q := PoolTo(p, one);
    WakeOneQueues(p, caller, f.read, READ in due);
    WakeOneQueues(q, caller, f.write, WRITE in due);
    PoolAfter(p, one, two);
    EntriesJoin(Fired(f.read, READ in due), Fired(f.write, WRITE in due));
    QueuedTwice(p, q, PoolTo(q, two), Entries(Fired(f.read, READ in due)), Entries(Fired(f.write, WRITE in due)));
  }

  /** Arming and dropping do not touch the queue. */
  lemma NoWakeQueues(p: Pool, steps: seq<IoStep>)
    requires steps == [] || (|steps| == 1 && (steps[0].Arm? || steps[0].Drop?))
    ensures Queued(p, PoolTo(p, steps), Entries([]))
  {
    if steps != [] {
      assert steps == [steps[0]];
      OneStep(p, steps[0]);
    }
  }

  /** Every call on the table puts exactly what it hands out into the queue, in order, at its end, for any thread. */
  lemma CallQueues(table: EventSpec.State, p: Pool, call: Call, caller: Option<nat>)
    ensures Queued(p, PoolTo(p, StepsFor(table, call, caller)), Entries(Handed(table, call)))
  {
    var steps := StepsFor(table, call, caller);
    match call.op
    case Resize(_) => NoWakeQueues(p, steps);
    case Add(_, _, _) => NoWakeQueues(p, steps);
    case Del(_, _) => NoWakeQueues(p, steps);
    case Cancel(fd, e) =>
      if Goes(table, fd, e, call.refuse) {
        WakeOneQueues(p, caller, table.fds[fd].Get(e), true);
      } else {
        NoWakeQueues(p, steps);
      }
    case CancelAll(fd) => WakesOrNot(table, p, call, caller, fd, if fd < |table.fds| then table.fds[fd].events else {});
    case Dispatch(fd, reported, failed) =>
      var due: Mask := if fd < |table.fds| then Awakened(table.fds[fd], reported, failed) else {};
      WakesOrNot(table, p, call, caller, fd, due);
  }

  lemma WakesOrNot(table: EventSpec.State, p: Pool, call: Call, caller: Option<nat>, fd: nat, due: Mask)
    requires var woken := fd < |table.fds| && !call.refuse;
             && StepsFor(table, call, caller) == (if woken then Wakes(caller, table.fds[fd], due) else [])
             && Handed(table, call) == if woken then FiredBy(table.fds[fd], due) else []
    ensures Queued(p, PoolTo(p, StepsFor(table, call, caller)), Entries(Handed(table, call)))
  {
    if fd < |table.fds| && !call.refuse {
      WakesQueue(p, caller, table.fds[fd], due);
    } else {
      NoWakeQueues(p, []);
    }
  }

  /** The table's own books agree. */
  lemma CallHands(table: EventSpec.State, call: Call)
    requires EventSpec.Inv(table) && EventSpec.Legal(table, call.op, call.refuse)
    ensures var r := EventSpec.Apply(table, call.op, call.refuse);
            r.Some? && r.value.scheduled == table.scheduled + multiset(Handed(table, call))
  {
    match call.op
    case Resize(n) =>
    case Add(fd, e, t) => EventRuns.AddKeeps(table, fd, e, t, call.refuse);
    case Del(fd, e) => DelKeeps(table, fd, e, call.refuse);
    case Cancel(fd, e) => EventRuns.CancelKeeps(table, fd, e, call.refuse);
    case CancelAll(fd) => CancelAllKeeps(table, fd, call.refuse);
    case Dispatch(fd, reported, failed) => DispatchKeeps(table, fd, reported, failed, call.refuse);
  }

  // ---------- runs of the whole manager

  /** Whatever the table handed out was given to the scheduler, at least as often. */
  ghost predicate Covered(j: Joint) {
    forall x :: j.table.scheduled[TaskOf(x)] <= j.p.io.s.scheduled[S.Entry(x, -1)]
  }

  lemma {:induction false} EntryCount(ts: seq<Task>, x: S.Work)
    ensures multiset(ts)[TaskOf(x)] <= multiset(Entries(ts))[S.Entry(x, -1)]
    decreases |ts|
  {
    if ts != [] {
      EntryCount(ts[1..], x);
      assert ts == [ts[0]] + ts[1..];
    }
  }

  lemma ScheduledGrows(s: S.State, step: S.Step)
    ensures s.scheduled <= S.Apply(s, step).scheduled
  {
  }

  lemma CoverStep(j: Joint, step: JointStep)
    requires JointOk(j) && Allowed(j, step) && Covered(j)
    ensures Covered(After(j, step))
  {
    match step
    case OnTable(caller, call) =>
      CallHands(j.table, call);
      CallQueues(j.table, j.p, call, caller);
      forall x { EntryCount(Handed(j.table, call), x); }
    case Other(st) =>
      OneStep(j.p, st);
      if st.Plain? { ScheduledGrows(j.p.io.s, st.step); }
  }

  lemma {:induction false} CoverRun(j: Joint, steps: seq<JointStep>)
    requires JointOk(j) && AllowedRun(j, steps) && Covered(j)
    ensures Covered(JointTo(j, steps))
    decreases |steps|
  {
    if steps != [] {
      CoverStep(j, steps[0]);
      JointKeeps(j, steps[0]);
      CoverRun(After(j, steps[0]), steps[1..]);
    }
  }

  /**
   In every run of the whole manager, once all workers have left, every continuation that
   the event table handed out, by dispatch or cancel, was taken by a worker as often.
   */
  lemma WokenAreTaken(j: Joint, steps: seq<JointStep>, x: S.Work)
    requires JointInit(j) && AllowedRun(j, steps)
    requires R.AllLeft(JointTo(j, steps).p.io.s)
    ensures var e := JointTo(j, steps); e.table.scheduled[TaskOf(x)] <= e.p.io.s.taken[S.Entry(x, -1)]
  {
    JointInitOk(j);
    CoverRun(j, steps);
    ManagerRuns(j, steps);
    NoneUnbound(JointTo(j, steps).p.io.s, S.Entry(x, -1));
  }

  lemma NoneUnbound(s: S.State, e: S.Entry)
    requires S.Inv(s) && R.AllLeft(s) && e.thread == -1
    ensures s.taken[e] == s.scheduled[e]
  {
    assert e !in s.queue;
    assert multiset(s.queue)[e] == 0;
  }
}
