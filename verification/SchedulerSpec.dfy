/**
 The M:N scheduler as a transition system: a run queue, fiber states, one program
 counter per worker and the active count. A step is what one thread does between two
 points where others can interfere: the scan of the queue, the resume, the yields, the
 swap back, the decrement, the requeue, the idle check and the leave.
 */
module SchedulerSpec {
  import opened Options

  datatype FiberState = INIT | HOLD | EXEC | TERM | READY | EXCEPT

  datatype Work = OfFiber(id: nat) | OfCallback(id: nat)

  /** A queue entry; `thread` is -1 for any thread, else the index of a worker. */
  datatype Entry = Entry(work: Work, thread: int)

  datatype Pc =
    | NotStarted                        // the caller's thread before `stop` lets it run
    | Scan                              // at the top of the loop
    | Took(entry: Entry)                // an entry in hand, counted as active
    | Running(fiber: nat, cb: bool)     // inside the fiber
    | Leaving(fiber: nat, cb: bool)     // the fiber has set its own state but not yet swapped out
    | Back(fiber: nat, cb: bool)        // swapped out, still counted
    | Counted(fiber: nat, cb: bool)     // after the decrement, before the fiber's new place is settled
    | NoTask                            // the scan found nothing
    | Idling                            // inside the idle fiber, which goes on
    | Left                              // `run` has returned

  /** Where a fiber is: on a worker's stack, kept by a worker for its next callback, or neither. */
  datatype Owner = Nobody | Worker(w: nat) | Kept(w: nat)

  /** The one outstanding entry that a fiber may have. */
  datatype Ticket = NoTicket | Queued | InHand(w: nat)

  /** `saved`, `owner` and `ticket` record the past; no step branches on them. */
  datatype Fiber = Fiber(state: FiberState, saved: bool, owner: Owner, ticket: Ticket)

  datatype State = State(
    queue: seq<Entry>,
    fibers: map<nat, Fiber>,
    pcs: seq<Pc>,
    cbFibers: seq<Option<nat>>,
    idleDone: seq<bool>,
    active: int,
    autoStop: bool,
    stopping: bool,
    scheduled: multiset<Entry>,
    taken: multiset<Entry>)

  datatype Step =
    | NewFiber(f: nat)
    | ScheduleOutside(entry: Entry)
    | ScheduleInside(w: nat, entry: Entry)
    | SetAutoStop
    | SetStopping
    | Begin(w: nat, veto: bool)         // the caller's thread enters `run`, or finds nothing to do
    | DoScan(w: nat)
    | Resume(w: nat, made: nat)        // `made` names the fiber made for a callback, if one is made
    | YieldReady(w: nat)
    | Finish(w: nat, ok: bool)
    | SwapOut(w: nat)
    | Decrement(w: nat)
    | Settle(w: nat)                    // requeue, hold, or keep for the next callback
    | IdleCheck(w: nat, veto: bool)     // in both, an override of `stopping` may say no where the scheduler says yes
    | Wake(w: nat)
    | Leave(w: nat)

  predicate Dead(st: FiberState) { st == TERM || st == EXCEPT }

  predicate Executing(s: State, f: nat) { f in s.fibers && s.fibers[f].state == EXEC }

  predicate Eligible(s: State, w: nat, e: Entry) {
    (e.thread == -1 || e.thread == w) && !(e.work.OfFiber? && Executing(s, e.work.id))
  }

  /** The first eligible entry from `i` on, or the length. */
  function ScanFrom(s: State, w: nat, i: nat): (k: nat)
    requires i <= |s.queue|
    ensures i <= k <= |s.queue|
    ensures k < |s.queue| ==> Eligible(s, w, s.queue[k])
    ensures forall j :: i <= j < k ==> !Eligible(s, w, s.queue[j])
    decreases |s.queue| - i
  {
    if i == |s.queue| || Eligible(s, w, s.queue[i]) then i else ScanFrom(s, w, i + 1)
  }

  predicate Stopping(s: State) {
    s.autoStop && s.stopping && s.queue == [] && s.active == 0
  }

  function SetFiber(s: State, f: nat, b: Fiber): State { s.(fibers := s.fibers[f := b]) }

  function SetPc(s: State, w: nat, pc: Pc): State
    requires w < |s.pcs|
  {
    s.(pcs := s.pcs[w := pc])
  }

  function Enqueue(s: State, e: Entry): State {
    var t := s.(queue := s.queue + [e], scheduled := s.scheduled + multiset{e});
    if e.work.OfFiber? && e.work.id in s.fibers then
      SetFiber(t, e.work.id, s.fibers[e.work.id].(ticket := Queued))
    else t
  }

  function Take(s: State, w: nat, k: nat): State
    requires w < |s.pcs| && k < |s.queue|
  {
    var e := s.queue[k];
    var t := SetPc(s, w, Took(e)).(queue := s.queue[..k] + s.queue[k + 1..], active := s.active + 1,
                                   taken := s.taken + multiset{e});
    if e.work.OfFiber? && e.work.id in s.fibers then
      SetFiber(t, e.work.id, s.fibers[e.work.id].(ticket := InHand(w)))
    else t
  }

  /** Runs the fiber in hand, or drops a dead one; a callback gets the kept fiber or a fresh one. */
  function AfterResume(s: State, w: nat, made: nat): State
    requires w < |s.pcs| && |s.cbFibers| == |s.pcs| && s.pcs[w].Took?
  {
    match s.pcs[w].entry.work
    case OfFiber(f) =>
      if f !in s.fibers then s
      else if Dead(s.fibers[f].state) then
        SetFiber(SetPc(s, w, Scan), f, s.fibers[f].(ticket := NoTicket)).(active := s.active - 1)
      else SetFiber(SetPc(s, w, Running(f, false)), f, Fiber(EXEC, false, Worker(w), NoTicket))
    case OfCallback(_) =>
      var f := if s.cbFibers[w].Some? then s.cbFibers[w].value else made;
      SetFiber(SetPc(s, w, Running(f, true)).(cbFibers := s.cbFibers[w := None]), f,
               Fiber(EXEC, false, Worker(w), NoTicket))
  }

  /** What `run` does with a fiber that came back. */
  function AfterSettle(s: State, w: nat): State
    requires w < |s.pcs| && |s.cbFibers| == |s.pcs| && s.pcs[w].Counted?
  {
    var Counted(f, cb) := s.pcs[w];
    if f !in s.fibers then s
    else
      var b := s.fibers[f];
      var t := SetPc(s, w, Scan);
      if b.state == READY then
        Enqueue(SetFiber(t, f, b.(owner := Nobody)), Entry(OfFiber(f), -1))
      else if Dead(b.state) then
        if cb then SetFiber(t, f, Fiber(INIT, true, Kept(w), b.ticket)).(cbFibers := s.cbFibers[w := Some(f)])
        else SetFiber(t, f, b.(owner := Nobody))
      else SetFiber(t, f, b.(state := HOLD, owner := Nobody))
  }

  predicate HasFiber(pc: Pc) { pc.Running? || pc.Leaving? || pc.Back? || pc.Counted? }

  // ---------- what the users of the scheduler must respect

  /**
   A fiber may be scheduled when it has no outstanding entry, is not on its way back as
   READY, and is not a callback fiber that has finished.
   */
  ghost predicate MaySchedule(s: State, f: nat) {
    && f in s.fibers
    && s.fibers[f].ticket == NoTicket
    && !s.fibers[f].owner.Kept?
    && (s.fibers[f].owner.Worker? ==>
          var w := s.fibers[f].owner.w;
          w < |s.pcs| && HasFiber(s.pcs[w]) && s.fibers[f].state != READY && (s.pcs[w].cb ==> !Dead(s.fibers[f].state)))
  }

  ghost predicate MayEnqueue(s: State, e: Entry) {
    e.work.OfFiber? ==> MaySchedule(s, e.work.id)
  }

  ghost predicate NoEntry(s: State, f: nat) {
    f in s.fibers && s.fibers[f].ticket == NoTicket
  }

  ghost predicate Enabled(s: State, step: Step) {
    match step
    case NewFiber(f) => f !in s.fibers
    case ScheduleOutside(e) => !(s.autoStop && s.stopping) && MayEnqueue(s, e)
    case ScheduleInside(w, e) => w < |s.pcs| && (s.pcs[w].Running? || s.pcs[w].Idling?) && MayEnqueue(s, e)
    case SetAutoStop => true
    case SetStopping => s.autoStop
    case Begin(w, _) => w < |s.pcs| && s.pcs[w].NotStarted?
    case DoScan(w) => w < |s.pcs| && s.pcs[w].Scan?
    case Resume(w, made) => w < |s.pcs| && s.pcs[w].Took? && made !in s.fibers
    case YieldReady(w) => w < |s.pcs| && s.pcs[w].Running? && NoEntry(s, s.pcs[w].fiber)
    case Finish(w, _) => w < |s.pcs| && s.pcs[w].Running? && (s.pcs[w].cb ==> NoEntry(s, s.pcs[w].fiber))
    case SwapOut(w) => w < |s.pcs| && (s.pcs[w].Running? || s.pcs[w].Leaving?)
    case Decrement(w) => w < |s.pcs| && s.pcs[w].Back?
    case Settle(w) => w < |s.pcs| && s.pcs[w].Counted?
    case IdleCheck(w, _) => w < |s.pcs| && s.pcs[w].NoTask? && w < |s.idleDone| && !s.idleDone[w]
    case Wake(w) => w < |s.pcs| && s.pcs[w].Idling?
    case Leave(w) => w < |s.pcs| && s.pcs[w].NoTask? && w < |s.idleDone| && s.idleDone[w]
  }

  /** The state after a step whose program counter fits; the same state otherwise. */
  function Apply(s: State, step: Step): State {
    match step
    case NewFiber(f) => if f in s.fibers then s else SetFiber(s, f, Fiber(INIT, true, Nobody, NoTicket))
    case ScheduleOutside(e) => Enqueue(s, e)
    case ScheduleInside(_, e) => Enqueue(s, e)
    case SetAutoStop => s.(autoStop := true)
    case SetStopping => s.(stopping := true)
    case Begin(w, veto) =>
      if w < |s.pcs| then SetPc(s, w, if Stopping(s) && !veto then Left else Scan) else s
    case DoScan(w) =>
      if w >= |s.pcs| then s
      else
        var k := ScanFrom(s, w, 0);
        if k < |s.queue| then Take(s, w, k) else SetPc(s, w, NoTask)
    case Resume(w, made) =>
      if w < |s.pcs| && |s.cbFibers| == |s.pcs| && s.pcs[w].Took? then AfterResume(s, w, made) else s
    case YieldReady(w) =>
      if w < |s.pcs| && s.pcs[w].Running? && s.pcs[w].fiber in s.fibers then
        var Running(f, cb) := s.pcs[w];
        SetFiber(SetPc(s, w, Leaving(f, cb)), f, s.fibers[f].(state := READY))
      else s
    case Finish(w, ok) =>
      if w < |s.pcs| && s.pcs[w].Running? && s.pcs[w].fiber in s.fibers then
        var Running(f, cb) := s.pcs[w];
        SetFiber(SetPc(s, w, Leaving(f, cb)), f, s.fibers[f].(state := if ok then TERM else EXCEPT))
      else s
    case SwapOut(w) =>
      if w < |s.pcs| && (s.pcs[w].Running? || s.pcs[w].Leaving?) && s.pcs[w].fiber in s.fibers then
        var f := s.pcs[w].fiber;
        SetFiber(SetPc(s, w, Back(f, s.pcs[w].cb)), f, s.fibers[f].(saved := true))
      else s
    case Decrement(w) =>
      if w < |s.pcs| && s.pcs[w].Back? then
        SetPc(s, w, Counted(s.pcs[w].fiber, s.pcs[w].cb)).(active := s.active - 1)
      else s
    case Settle(w) =>
      if w < |s.pcs| && |s.cbFibers| == |s.pcs| && s.pcs[w].Counted? then AfterSettle(s, w) else s
    case IdleCheck(w, veto) =>
      if w < |s.pcs| && w < |s.idleDone| then
        if Stopping(s) && !veto then SetPc(s, w, Scan).(idleDone := s.idleDone[w := true])
        else SetPc(s, w, Idling)
      else s
    case Wake(w) => if w < |s.pcs| then SetPc(s, w, Scan) else s
    case Leave(w) => if w < |s.pcs| then SetPc(s, w, Left) else s
  }

  /** The assertions and the hidden conditions of a step: no double resume, no half-saved context, no underflow. */
  ghost predicate Safe(s: State, step: Step) {
    match step
    case Resume(w, _) =>
      w < |s.pcs| && s.pcs[w].Took? && w < |s.cbFibers| &&
      (match s.pcs[w].entry.work
       case OfFiber(f) =>
         f in s.fibers &&
         (if Dead(s.fibers[f].state) then s.active > 0
          else s.fibers[f].state != EXEC && s.fibers[f].saved && s.fibers[f].owner == Nobody)
       case OfCallback(_) =>
         s.cbFibers[w].Some? ==>
           s.cbFibers[w].value in s.fibers &&
           var b := s.fibers[s.cbFibers[w].value];
           (Dead(b.state) || b.state == INIT) && b.saved && b.owner == Kept(w))
    case YieldReady(w) => w < |s.pcs| && s.pcs[w].Running? && Executing(s, s.pcs[w].fiber)
    case Decrement(w) => s.active > 0
    case Settle(w) =>
      w < |s.pcs| && s.pcs[w].Counted? && s.pcs[w].fiber in s.fibers && s.fibers[s.pcs[w].fiber].saved
    case _ => true
  }

  // ---------- the invariant

  predicate Counts(pc: Pc) { pc.Took? || pc.Running? || pc.Leaving? || pc.Back? }

  function Active(pcs: seq<Pc>): nat {
    if pcs == [] then 0 else Active(pcs[..|pcs| - 1]) + (if Counts(pcs[|pcs| - 1]) then 1 else 0)
  }

  /** The worker's program counter fits the fiber it deals with. */
  ghost predicate PcOk(s: State, w: nat)
    requires w < |s.pcs|
  {
    match s.pcs[w]
    case Took(e) =>
      e.work.OfFiber? ==>
        e.work.id in s.fibers &&
        var b := s.fibers[e.work.id];
        b.ticket == InHand(w) && b.state != EXEC && (Dead(b.state) || b.owner == Nobody)
    case Running(f, _) =>
      f in s.fibers && s.fibers[f].owner == Worker(w) && s.fibers[f].state == EXEC && !s.fibers[f].saved
    case Leaving(f, cb) =>
      f in s.fibers && s.fibers[f].owner == Worker(w) && !s.fibers[f].saved &&
      (s.fibers[f].state == READY || Dead(s.fibers[f].state)) &&
      (s.fibers[f].state == READY || cb ==> s.fibers[f].ticket == NoTicket)
    case Back(f, cb) => OffStack(s, w, f, cb)
    case Counted(f, cb) => OffStack(s, w, f, cb)
    case _ => true
  }

  ghost predicate OffStack(s: State, w: nat, f: nat, cb: bool) {
    && f in s.fibers
    && var b := s.fibers[f];
    && b.owner == Worker(w) && b.saved
    && (b.state == EXEC || b.state == READY || Dead(b.state))
    && (b.state == READY || (cb && Dead(b.state)) ==> b.ticket == NoTicket)
  }

  ghost predicate KeptOk(s: State, w: nat)
    requires w < |s.cbFibers| == |s.pcs|
  {
    && (s.cbFibers[w].Some? ==>
          s.cbFibers[w].value in s.fibers && s.fibers[s.cbFibers[w].value] == Fiber(INIT, true, Kept(w), NoTicket))
    && (HasFiber(s.pcs[w]) && s.pcs[w].cb ==> s.cbFibers[w] == None)
  }

  ghost predicate FiberOk(s: State, f: nat)
    requires f in s.fibers
  {
    var b := s.fibers[f];
    && (match b.owner
        case Nobody => b.saved && b.state != EXEC
        case Worker(w) => w < |s.pcs| && HasFiber(s.pcs[w]) && s.pcs[w].fiber == f
        case Kept(w) => w < |s.cbFibers| && s.cbFibers[w] == Some(f))
    && (b.ticket.InHand? ==>
          b.ticket.w < |s.pcs| && s.pcs[b.ticket.w].Took? && s.pcs[b.ticket.w].entry.work == OfFiber(f))
  }

  ghost predicate EntryOk(s: State, e: Entry) {
    e.work.OfFiber? ==> e.work.id in s.fibers && s.fibers[e.work.id].ticket == Queued
  }

  ghost predicate QueueOk(s: State) {
    && (forall e :: e in s.queue ==> EntryOk(s, e))
    && (forall i, j :: 0 <= i < j < |s.queue| && s.queue[i].work.OfFiber? ==> s.queue[i].work != s.queue[j].work)
  }

  /** A worker that looks at the queue again before it leaves. */
  ghost predicate WillScan(s: State, w: nat)
    requires |s.pcs| == |s.idleDone|
  {
    w < |s.pcs| && !s.pcs[w].Left? && !(s.pcs[w].NoTask? && s.idleDone[w])
  }

  ghost predicate SomeoneScans(s: State)
    requires |s.pcs| == |s.idleDone|
  {
    exists w :: WillScan(s, w)
  }

  ghost predicate ShutdownOk(s: State)
    requires |s.pcs| == |s.idleDone|
  {
    && (forall w :: 0 <= w < |s.pcs| ==> (s.idleDone[w] || s.pcs[w].Left? ==> s.autoStop && s.stopping))
    && ((exists e :: e in s.queue && e.thread == -1) ==> SomeoneScans(s))
  }

  ghost predicate Shape(s: State) {
    0 < |s.pcs| == |s.cbFibers| == |s.idleDone|
  }

  ghost predicate FibersOk(s: State)
    requires Shape(s)
  {
    && (forall w :: 0 <= w < |s.pcs| ==> PcOk(s, w))
    && (forall w :: 0 <= w < |s.pcs| ==> KeptOk(s, w))
    && (forall f :: f in s.fibers ==> FiberOk(s, f))
  }

  ghost predicate Inv(s: State) {
    && Shape(s)
    && FibersOk(s)
    && QueueOk(s)
    && s.active == Active(s.pcs)
    && ShutdownOk(s)
    && s.scheduled == s.taken + multiset(s.queue)
  }
}
