/**
 The event table and the scheduler together: every call on the table arms, schedules or
 drops exactly the continuations that the scheduler's side sees. So in every run of the
 whole manager the fibers that wait for events meet the scheduler's rules by themselves.
 */
module IoEvents {
  import opened Options
  import S = SchedulerSpec
  import R = SchedulerRuns
  import opened IoShutdown
  import opened Waiters
  import opened EventSpec
  import opened EventRuns

  /** The one scheduler of the manager. */
  const SELF: nat := 0

  function WorkOf(t: Task): S.Work {
    match t.what
    case Callback(id) => S.OfCallback(id)
    case FiberOf(id) => S.OfFiber(id)
  }

  function TaskOf(x: S.Work): Task {
    match x
    case OfCallback(id) => Task(SELF, Callback(id))
    case OfFiber(id) => Task(SELF, FiberOf(id))
  }

  /** The armed events on both sides are the same, and all belong to this manager. */
  ghost predicate Linked(table: EventSpec.State, armed: multiset<S.Work>) {
    && (forall x :: Armed(table.fds, TaskOf(x)) == armed[x])
    && (forall t: Task :: Armed(table.fds, t) > 0 ==> t.scheduler == SELF)
  }

  lemma TaskOfWork(t: Task)
    requires t.scheduler == SELF
    ensures TaskOf(WorkOf(t)) == t
  {
  }

  /** The armed events change by what is added, less what is scheduled or dropped. */
  lemma LinkBy(a: EventSpec.State, b: EventSpec.State, armed: multiset<S.Work>, armed': multiset<S.Work>,
               plus: multiset<Task>, minus: multiset<Task>)
    requires EventSpec.Inv(a) && EventSpec.Inv(b) && Linked(a, armed)
    requires b.added == a.added + plus && forall t :: t in plus ==> t.scheduler == SELF
    requires forall t :: b.scheduled[t] + b.dropped[t] == a.scheduled[t] + a.dropped[t] + minus[t]
    requires forall x :: armed'[x] + minus[TaskOf(x)] == armed[x] + plus[TaskOf(x)]
    ensures Linked(b, armed')
  {
    forall t: Task ensures Armed(b.fds, t) + minus[t] == Armed(a.fds, t) + plus[t] {
      assert a.added[t] == Armed(a.fds, t) + a.scheduled[t] + a.dropped[t];
      assert b.added[t] == Armed(b.fds, t) + b.scheduled[t] + b.dropped[t];
    }
  }

  // ---------- the count that `stopping` reads

  lemma {:induction false} NoBits(fds: seq<Fd>)
    ensures Bits(fds) == 0 <==> forall i :: 0 <= i < |fds| ==> fds[i].events == {}
    decreases |fds|
  {
    if fds != [] {
      var init, last := fds[..|fds| - 1], fds[|fds| - 1];
      NoBits(init);
      assert |last.events| == 0 <==> last.events == {};
      assert forall i :: 0 <= i < |init| ==> init[i] == fds[i];
    }
  }

  lemma {:induction false} ArmedAt(fds: seq<Fd>, i: nat, t: Task)
    requires i < |fds|
    ensures Armed(fds, t) >= ArmedIn(fds[i], t)
    decreases |fds|
  {
    if i < |fds| - 1 {
      ArmedAt(fds[..|fds| - 1], i, t);
    }
  }

  lemma {:induction false} NoneArmed(fds: seq<Fd>, t: Task)
    requires forall i :: 0 <= i < |fds| ==> fds[i].events == {}
    ensures Armed(fds, t) == 0
    decreases |fds|
  {
    if fds != [] {
      NoneArmed(fds[..|fds| - 1], t);
    }
  }

  /** The count is zero if and only if no event is armed, so reading it is reading the armed events. */
  lemma CountIsArmed(table: EventSpec.State, armed: multiset<S.Work>)
    requires EventSpec.Inv(table) && Linked(table, armed)
    ensures table.pending == 0 <==> armed == multiset{}
  {
    NoBits(table.fds);
    if table.pending == 0 {
      forall x ensures armed[x] == 0 {
        NoneArmed(table.fds, TaskOf(x));
      }
    } else {
      var i :| 0 <= i < |table.fds| && table.fds[i].events != {};
      var e :| e in table.fds[i].events;
      FullFires(table.fds[i].Get(e));
      var t := Fire(table.fds[i].Get(e)).value;
      ArmedAt(table.fds, i, t);
      TaskOfWork(t);
      assert armed[WorkOf(t)] > 0;
    }
  }

  // ---------- one call

  function WakeOne(caller: Option<nat>, c: Context, wanted: bool): seq<IoStep> {
    if wanted && Fire(c).Some? then [Trigger(caller, WorkOf(Fire(c).value))] else []
  }

  /** The read event goes to the scheduler before the write event. */
  function Wakes(caller: Option<nat>, f: Fd, due: Mask): seq<IoStep> {
    WakeOne(caller, f.read, READ in due) + WakeOne(caller, f.write, WRITE in due)
  }

  /** What a call on the table does on the side of the scheduler. */
  function StepsFor(table: EventSpec.State, call: Call, caller: Option<nat>): seq<IoStep> {
    match call.op
    case Resize(_) => []
    case Add(fd, e, t) => if call.refuse then [] else [Arm(caller, WorkOf(t))]
    case Del(fd, e) =>
      if Goes(table, fd, e, call.refuse) && Fire(table.fds[fd].Get(e)).Some?
      then [Drop(caller, WorkOf(Fire(table.fds[fd].Get(e)).value))] else []
    case Cancel(fd, e) => if Goes(table, fd, e, call.refuse) then WakeOne(caller, table.fds[fd].Get(e), true) else []
    case CancelAll(fd) =>
      if fd < |table.fds| && !call.refuse then Wakes(caller, table.fds[fd], table.fds[fd].events) else []
    case Dispatch(fd, reported, failed) =>
      if fd < |table.fds| && !call.refuse
      then Wakes(caller, table.fds[fd], Awakened(table.fds[fd], reported, failed)) else []
  }

  /** Who may call: a fiber adds an event for itself from its own code, or a callback. */
  ghost predicate MayAsk(p: Pool, call: Call, caller: Option<nat>) {
    match call.op
    case Add(_, _, t) => t.scheduler == SELF && Disciplined(p, Arm(caller, WorkOf(t)))
    case Del(_, _) => MayCall(p.io.s, caller, false)
    case _ => MayCall(p.io.s, caller, true)
  }

  // ---------- short runs

  lemma OneStep(p: Pool, step: IoStep)
    ensures DisciplinedRun(p, [step]) <==> Disciplined(p, step)
    ensures PoolTo(p, [step]) == Next(p, step)
  {
    assert [step][1..] == [];
  }

  lemma {:induction false} PoolJoin(p: Pool, a: seq<IoStep>, b: seq<IoStep>)
    requires DisciplinedRun(p, a) && DisciplinedRun(PoolTo(p, a), b)
    ensures DisciplinedRun(p, a + b) && PoolTo(p, a + b) == PoolTo(PoolTo(p, a), b)
    decreases |a|
  {
    if a == [] {
      assert a + b == b;
    } else {
      assert (a + b)[1..] == a[1..] + b;
      PoolJoin(Next(p, a[0]), a[1..], b);
    }
  }

  lemma ArmRuns(p: Pool, caller: Option<nat>, x: S.Work)
    requires Disciplined(p, Arm(caller, x))
    ensures DisciplinedRun(p, [Arm(caller, x)]) && PoolTo(p, [Arm(caller, x)]).io.armed == p.io.armed + multiset{x}
  {
    OneStep(p, Arm(caller, x));
  }

  lemma DropRuns(p: Pool, caller: Option<nat>, x: S.Work)
    requires MayCall(p.io.s, caller, false) && x in p.io.armed
    ensures DisciplinedRun(p, [Drop(caller, x)]) && PoolTo(p, [Drop(caller, x)]).io.armed == p.io.armed - multiset{x}
  {
    OneStep(p, Drop(caller, x));
  }

  function Woken(c: Context, wanted: bool): multiset<S.Work> {
    if wanted && Fire(c).Some? then multiset{WorkOf(Fire(c).value)} else multiset{}
  }

  /** One wake-up: its continuation is armed on the other side too, and goes from there to the queue. */
  lemma WakeOneRuns(p: Pool, caller: Option<nat>, c: Context, wanted: bool)
    requires MayCall(p.io.s, caller, true)
    requires wanted && Fire(c).Some? ==> WorkOf(Fire(c).value) in p.io.armed
    ensures var q := PoolTo(p, WakeOne(caller, c, wanted));
            && DisciplinedRun(p, WakeOne(caller, c, wanted)) && MayCall(q.io.s, caller, true)
            && q.io.armed == p.io.armed - Woken(c, wanted)
  {
    if wanted && Fire(c).Some? {
      OneStep(p, Trigger(caller, WorkOf(Fire(c).value)));
    }
  }

  lemma OwnTask(table: EventSpec.State, armed: multiset<S.Work>, fd: nat, e: Event)
    requires EventSpec.Inv(table) && Linked(table, armed) && fd < |table.fds| && e in table.fds[fd].events
    ensures var c := table.fds[fd].Get(e);
            Fire(c).Some? && Fire(c).value.scheduler == SELF && WorkOf(Fire(c).value) in armed
  {
    var c := table.fds[fd].Get(e);
    FullFires(c);
    ArmedAt(table.fds, fd, Fire(c).value);
    TaskOfWork(Fire(c).value);
    assert armed[WorkOf(Fire(c).value)] > 0;
  }

  /** How often `x` is woken by one event. */
  function Hits(c: Context, wanted: bool, x: S.Work): nat {
    if wanted && Fire(c) == Some(TaskOf(x)) then 1 else 0
  }

  lemma WokenCount(c: Context, wanted: bool, x: S.Work)
    requires wanted && Fire(c).Some? ==> Fire(c).value.scheduler == SELF
    ensures Woken(c, wanted)[x] == Hits(c, wanted, x)
  {
    if wanted && Fire(c).Some? {
      TaskOfWork(Fire(c).value);
    }
  }

  lemma FiredCount(f: Fd, due: Mask, x: S.Work)
    requires due <= f.events
    ensures multiset(FiredBy(f, due))[TaskOf(x)] == Hits(f.read, READ in due, x) + Hits(f.write, WRITE in due, x)
    ensures ArmedIn(f, TaskOf(x)) >= Hits(f.read, READ in due, x) + Hits(f.write, WRITE in due, x)
  {
  }

  /** The armed events `due` of one descriptor are armed on the other side too, each as often. */
  lemma DueAreArmed(table: EventSpec.State, armed: multiset<S.Work>, fd: nat, due: Mask, x: S.Work)
    requires EventSpec.Inv(table) && Linked(table, armed) && fd < |table.fds| && due <= table.fds[fd].events
    ensures var f := table.fds[fd];
            Woken(f.read, READ in due)[x] + Woken(f.write, WRITE in due)[x] ==
            multiset(FiredBy(f, due))[TaskOf(x)] <= armed[x]
  {
    var f := table.fds[fd];
    if READ in due {
      OwnTask(table, armed, fd, READ);
    }
    if WRITE in due {
      OwnTask(table, armed, fd, WRITE);
    }
    WokenCount(f.read, READ in due, x);
    WokenCount(f.write, WRITE in due, x);
    FiredCount(f, due, x);
    ArmedAt(table.fds, fd, TaskOf(x));
  }

  lemma WakesRun(p: Pool, caller: Option<nat>, table: EventSpec.State, fd: nat, due: Mask)
    requires EventSpec.Inv(table) && Linked(table, p.io.armed) && fd < |table.fds| && due <= table.fds[fd].events
    requires MayCall(p.io.s, caller, true)
    ensures var f, steps := table.fds[fd], Wakes(caller, table.fds[fd], due);
            && DisciplinedRun(p, steps)
            && PoolTo(p, steps).io.armed == p.io.armed - Woken(f.read, READ in due) - Woken(f.write, WRITE in due)
  {
    var f := table.fds[fd];
    var one, two := WakeOne(caller, f.read, READ in due), WakeOne(caller, f.write, WRITE in due);
    forall x { DueAreArmed(table, p.io.armed, fd, due, x); }
    WakeOneRuns(p, caller, f.read, READ in due);
    var q := PoolTo(p, one);
    if WRITE in due && Fire(f.write).Some? {
      var x := WorkOf(Fire(f.write).value);
      assert Woken(f.read, READ in due)[x] + Woken(f.write, WRITE in due)[x] <= p.io.armed[x];
    }
    WakeOneRuns(q, caller, f.write, WRITE in due);
    PoolJoin(p, one, two);
  }

  // ---------- every call keeps both sides together

  /** The call was made on both sides and they are still together. */
  ghost predicate Together(table: EventSpec.State, p: Pool, call: Call, caller: Option<nat>) {
    var r, steps := EventSpec.Apply(table, call.op, call.refuse), StepsFor(table, call, caller);
    r.Some? && EventSpec.Inv(r.value) && DisciplinedRun(p, steps) && Linked(r.value, PoolTo(p, steps).io.armed)
  }

  ghost predicate Ready(table: EventSpec.State, p: Pool, call: Call, caller: Option<nat>) {
    && EventSpec.Inv(table) && Linked(table, p.io.armed)
    && EventSpec.Legal(table, call.op, call.refuse) && MayAsk(p, call, caller)
  }

  lemma ResizeTogether(table: EventSpec.State, p: Pool, call: Call, caller: Option<nat>)
    requires Ready(table, p, call, caller) && call.op.Resize?
    ensures Together(table, p, call, caller)
  {
    ResizeKeeps(table, call.op.n);
    var r := EventSpec.Apply(table, call.op, call.refuse).value;
    LinkBy(table, r, p.io.armed, p.io.armed, multiset{}, multiset{});
  }

  lemma OneMore(table: EventSpec.State, r: EventSpec.State, armed: multiset<S.Work>, t: Task)
    requires EventSpec.Inv(table) && EventSpec.Inv(r) && Linked(table, armed) && t.scheduler == SELF
    requires r.added == table.added + multiset{t} && r.scheduled == table.scheduled && r.dropped == table.dropped
    ensures Linked(r, armed + multiset{WorkOf(t)})
  {
    forall x ensures (armed + multiset{WorkOf(t)})[x] == armed[x] + multiset{t}[TaskOf(x)] {
      SameTask(t, x);
    }
    LinkBy(table, r, armed, armed + multiset{WorkOf(t)}, multiset{t}, multiset{});
  }

  lemma AddTogether(table: EventSpec.State, p: Pool, call: Call, caller: Option<nat>)
    requires Ready(table, p, call, caller) && call.op.Add?
    ensures Together(table, p, call, caller)
  {
    var t, r := call.op.task, EventSpec.Apply(table, call.op, call.refuse);
    EventRuns.AddKeeps(table, call.op.fd, call.op.event, t, call.refuse);
    if call.refuse {
      LinkBy(table, r.value, p.io.armed, p.io.armed, multiset{}, multiset{});
    } else {
      ArmRuns(p, caller, WorkOf(t));
      OneMore(table, r.value, p.io.armed, t);
    }
  }

  lemma SameTask(t: Task, x: S.Work)
    requires t.scheduler == SELF
    ensures WorkOf(t) == x <==> TaskOf(x) == t
  {
  }

  lemma OneLess(table: EventSpec.State, r: EventSpec.State, armed: multiset<S.Work>, t: Task)
    requires EventSpec.Inv(table) && EventSpec.Inv(r) && Linked(table, armed) && r.added == table.added
    requires t.scheduler == SELF && WorkOf(t) in armed
    requires || (r.scheduled == table.scheduled + multiset{t} && r.dropped == table.dropped)
             || (r.dropped == table.dropped + multiset{t} && r.scheduled == table.scheduled)
    ensures Linked(r, armed - multiset{WorkOf(t)})
  {
    assert r.added == table.added + multiset{};
    forall x ensures (armed - multiset{WorkOf(t)})[x] + multiset{t}[TaskOf(x)] == armed[x] {
      SameTask(t, x);
    }
    LinkBy(table, r, armed, armed - multiset{WorkOf(t)}, multiset{}, multiset{t});
  }

  lemma DelTogether(table: EventSpec.State, p: Pool, call: Call, caller: Option<nat>)
    requires Ready(table, p, call, caller) && call.op.Del?
    ensures Together(table, p, call, caller)
  {
    var fd, e := call.op.fd, call.op.event;
    DelKeeps(table, fd, e, call.refuse);
    if Goes(table, fd, e, call.refuse) {
      OwnTask(table, p.io.armed, fd, e);
      var t := Fire(table.fds[fd].Get(e)).value;
      OneLess(table, EventSpec.Apply(table, call.op, call.refuse).value, p.io.armed, t);
      assert StepsFor(table, call, caller) == [Drop(caller, WorkOf(t))];
      DropRuns(p, caller, WorkOf(t));
    }
  }

  lemma CancelTogether(table: EventSpec.State, p: Pool, call: Call, caller: Option<nat>)
    requires Ready(table, p, call, caller) && call.op.Cancel?
    ensures Together(table, p, call, caller)
  {
    var fd, e := call.op.fd, call.op.event;
    EventRuns.CancelKeeps(table, fd, e, call.refuse);
    if Goes(table, fd, e, call.refuse) {
      OwnTask(table, p.io.armed, fd, e);
      var t := Fire(table.fds[fd].Get(e)).value;
      OneLess(table, EventSpec.Apply(table, call.op, call.refuse).value, p.io.armed, t);
      WakeOneRuns(p, caller, table.fds[fd].Get(e), true);
    }
  }

  /** A call that wakes the events `due` of `fd`. */
  lemma WokeTogether(table: EventSpec.State, r: EventSpec.State, p: Pool, caller: Option<nat>, fd: nat, due: Mask)
    requires EventSpec.Inv(table) && EventSpec.Inv(r) && Linked(table, p.io.armed) && MayCall(p.io.s, caller, true)
    requires fd < |table.fds| && due <= table.fds[fd].events
    requires if due == {} then r == table else Woke(table, r, fd, due)
    ensures var steps := Wakes(caller, table.fds[fd], due);
            DisciplinedRun(p, steps) && Linked(r, PoolTo(p, steps).io.armed)
  {
    var f := table.fds[fd];
    WakesRun(p, caller, table, fd, due);
    var armed', fired := p.io.armed - Woken(f.read, READ in due) - Woken(f.write, WRITE in due), FiredBy(f, due);
    forall x ensures armed'[x] + multiset(fired)[TaskOf(x)] == p.io.armed[x] {
      DueAreArmed(table, p.io.armed, fd, due, x);
    }
    ScheduledLink(table, r, p.io.armed, armed', multiset(fired));
  }

  lemma ScheduledLink(a: EventSpec.State, b: EventSpec.State, armed: multiset<S.Work>, armed': multiset<S.Work>,
                      fired: multiset<Task>)
    requires EventSpec.Inv(a) && EventSpec.Inv(b) && Linked(a, armed)
    requires b.added == a.added && b.scheduled == a.scheduled + fired && b.dropped == a.dropped
    requires forall x :: armed'[x] + fired[TaskOf(x)] == armed[x]
    ensures Linked(b, armed')
  {
    assert b.added == a.added + multiset{};
    LinkBy(a, b, armed, armed', multiset{}, fired);
  }

  /** The same, for a call that is known to do that on both sides. */
  lemma WakingTogether(table: EventSpec.State, p: Pool, call: Call, caller: Option<nat>, fd: nat, due: Mask)
    requires EventSpec.Inv(table) && Linked(table, p.io.armed) && MayCall(p.io.s, caller, true)
    requires fd < |table.fds| && due <= table.fds[fd].events
    requires StepsFor(table, call, caller) == Wakes(caller, table.fds[fd], due)
    requires var r := EventSpec.Apply(table, call.op, call.refuse);
             && r.Some? && EventSpec.Inv(r.value)
             && if due == {} then r.value == table else Woke(table, r.value, fd, due)
    ensures Together(table, p, call, caller)
  {
    WokeTogether(table, EventSpec.Apply(table, call.op, call.refuse).value, p, caller, fd, due);
  }

  lemma CancelAllTogether(table: EventSpec.State, p: Pool, call: Call, caller: Option<nat>)
    requires Ready(table, p, call, caller) && call.op.CancelAll?
    ensures Together(table, p, call, caller)
  {
    var fd := call.op.fd;
    CancelAllKeeps(table, fd, call.refuse);
    if fd < |table.fds| && !call.refuse {
      WakingTogether(table, p, call, caller, fd, table.fds[fd].events);
    }
  }

  lemma DispatchTogether(table: EventSpec.State, p: Pool, call: Call, caller: Option<nat>)
    requires Ready(table, p, call, caller) && call.op.Dispatch?
    ensures Together(table, p, call, caller)
  {
    var Dispatch(fd, reported, failed) := call.op;
    DispatchKeeps(table, fd, reported, failed, call.refuse);
    if fd < |table.fds| && !call.refuse {
      WakingTogether(table, p, call, caller, fd, Awakened(table.fds[fd], reported, failed));
    }
  }

  /** Every legal call on the table is a disciplined run on the other side, and both stay together. */
  lemma CallTogether(table: EventSpec.State, p: Pool, call: Call, caller: Option<nat>)
    requires Ready(table, p, call, caller)
    ensures Together(table, p, call, caller)
  {
    match call.op
    case Resize(_) => ResizeTogether(table, p, call, caller);
    case Add(_, _, _) => AddTogether(table, p, call, caller);
    case Del(_, _) => DelTogether(table, p, call, caller);
    case Cancel(_, _) => CancelTogether(table, p, call, caller);
    case CancelAll(_) => CancelAllTogether(table, p, call, caller);
    case Dispatch(_, _, _) => DispatchTogether(table, p, call, caller);
  }

  // ---------- runs of the whole manager

  datatype Joint = Joint(table: EventSpec.State, p: Pool)

  /** A call on the table, or a step of the scheduler or of `stopping`. */
  datatype JointStep = OnTable(caller: Option<nat>, call: Call) | Other(step: IoStep)

  ghost predicate JointOk(j: Joint) {
    EventSpec.Inv(j.table) && Linked(j.table, j.p.io.armed) && S.Inv(j.p.io.s) && WaitOk(j.p)
  }

  ghost predicate Allowed(j: Joint, step: JointStep) {
    match step
    case OnTable(caller, call) => EventSpec.Legal(j.table, call.op, call.refuse) && MayAsk(j.p, call, caller)
    case Other(st) => (st.Plain? || st.Look?) && Disciplined(j.p, st)
  }

  /** The steps on the scheduler's side. */
  function Below(j: Joint, step: JointStep): seq<IoStep> {
    match step
    case OnTable(caller, call) => StepsFor(j.table, call, caller)
    case Other(st) => [st]
  }

  function After(j: Joint, step: JointStep): Joint {
    Joint(match step
          case OnTable(_, call) =>
            (match EventSpec.Apply(j.table, call.op, call.refuse) case Some(t) => t case None => j.table)
          case Other(_) => j.table,
          PoolTo(j.p, Below(j, step)))
  }

  lemma JointKeeps(j: Joint, step: JointStep)
    requires JointOk(j) && Allowed(j, step)
    ensures JointOk(After(j, step)) && DisciplinedRun(j.p, Below(j, step))
  {
    match step
    case OnTable(caller, call) =>
      CallTogether(j.table, j.p, call, caller);
      DisciplinedRunKeeps(j.p, Below(j, step));
    case Other(st) =>
      OneStep(j.p, st);
      WaitersKeep(j.p, st);
  }

  function JointTo(j: Joint, steps: seq<JointStep>): Joint
    decreases |steps|
  {
    if steps == [] then j else JointTo(After(j, steps[0]), steps[1..])
  }

  ghost predicate AllowedRun(j: Joint, steps: seq<JointStep>)
    decreases |steps|
  {
    steps == [] || (Allowed(j, steps[0]) && AllowedRun(After(j, steps[0]), steps[1..]))
  }

  function AllBelow(j: Joint, steps: seq<JointStep>): seq<IoStep>
    decreases |steps|
  {
    if steps == [] then [] else Below(j, steps[0]) + AllBelow(After(j, steps[0]), steps[1..])
  }

  lemma {:induction false} JointRunKeeps(j: Joint, steps: seq<JointStep>)
    requires JointOk(j) && AllowedRun(j, steps)
    ensures JointOk(JointTo(j, steps))
    ensures DisciplinedRun(j.p, AllBelow(j, steps)) && PoolTo(j.p, AllBelow(j, steps)) == JointTo(j, steps).p
    decreases |steps|
  {
    if steps != [] {
      JointKeeps(j, steps[0]);
      JointRunKeeps(After(j, steps[0]), steps[1..]);
      PoolJoin(j.p, Below(j, steps[0]), AllBelow(After(j, steps[0]), steps[1..]));
    }
  }

  ghost predicate JointInit(j: Joint) {
    j.table == Fresh() && IoInit(j.p.io) && j.p.asked == {}
  }

  lemma JointInitOk(j: Joint)
    requires JointInit(j)
    ensures JointOk(j)
  {
    FreshInv();
    R.InitInv(j.p.io.s);
    forall t: Task ensures Armed(Fresh().fds, t) == 0 {
      NoneArmed(Fresh().fds, t);
    }
  }

  /**
   In every run of the whole manager the table's side and the scheduler's side agree on
   what is armed, the count is zero exactly if nothing is, every fiber that waits for an
   event may be scheduled when it comes, and the run obeys all the scheduler's rules, so
   its theorems hold: they need no assumption about fibers that wait for events.
   */
  lemma ManagerRuns(j: Joint, steps: seq<JointStep>)
    requires JointInit(j) && AllowedRun(j, steps)
    ensures var e := JointTo(j, steps);
            && EventSpec.Inv(e.table) && S.Inv(e.p.io.s)
            && Linked(e.table, e.p.io.armed) && (e.table.pending == 0 <==> e.p.io.armed == multiset{})
            && (forall f :: S.OfFiber(f) in e.p.io.armed ==> S.MaySchedule(e.p.io.s, f))
    ensures IoEnabledRun(j.p.io, AllBelow(j, steps))
    ensures IoRunTo(j.p.io, AllBelow(j, steps)) == JointTo(j, steps).p.io
  {
    JointInitOk(j);
    JointRunKeeps(j, steps);
    DisciplinedRunKeeps(j.p, AllBelow(j, steps));
    var e := JointTo(j, steps);
    CountIsArmed(e.table, e.p.io.armed);
    forall f | S.OfFiber(f) in e.p.io.armed ensures S.MaySchedule(e.p.io.s, f) {
      ArmedMayBeScheduled(e.p, f);
    }
  }
}
