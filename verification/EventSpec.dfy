/**
 The event table of the I/O manager as a value: per descriptor the armed events and
 their contexts, the pending count, the kernel's interest set, and what became of
 every continuation. The class in `IOManagers` is proved to take exactly these steps.
 A step is the critical section of one call; the kernel may refuse any request.
 */
module EventSpec {
  import opened Options

  datatype Event = READ | WRITE

  type Mask = set<Event>

  datatype Continuation = Callback(id: nat) | FiberOf(id: nat)

  /** A continuation and the scheduler that is to run it. */
  datatype Task = Task(scheduler: nat, what: Continuation)

  datatype Context = Context(scheduler: Option<nat>, fiber: Option<nat>, cb: Option<nat>)

  const EMPTY_CONTEXT: Context := Context(None, None, None)

  datatype Fd = Fd(events: Mask, read: Context, write: Context) {
    function Get(e: Event): Context { if e == READ then read else write }

    function Set(e: Event, c: Context): Fd {
      if e == READ then this.(read := c) else this.(write := c)
    }
  }

  const UNUSED_FD: Fd := Fd({}, EMPTY_CONTEXT, EMPTY_CONTEXT)

  datatype State = State(
    fds: seq<Fd>,
    pending: int,
    kernel: map<nat, Mask>,
    added: multiset<Task>,
    scheduled: multiset<Task>,
    dropped: multiset<Task>)

  datatype Op =
    | Resize(n: nat)                            // `contextResize`, with a size computed before the lock was taken
    | Add(fd: nat, event: Event, task: Task)
    | Del(fd: nat, event: Event)
    | Cancel(fd: nat, event: Event)
    | CancelAll(fd: nat)
    | Dispatch(fd: nat, reported: Mask, failed: bool)

  datatype CtlOp = ADD | MOD | DEL

  /** `epoll_ctl`: the new interest set, or nothing if the kernel refuses, as it must for a wrong request. */
  function EpollCtl(kernel: map<nat, Mask>, op: CtlOp, fd: nat, mask: Mask, refuse: bool): Option<map<nat, Mask>> {
    if refuse || (op == ADD && fd in kernel) || (op != ADD && fd !in kernel) then None
    else Some(if op == DEL then kernel - {fd} else kernel[fd := mask])
  }

  function Refill(f: Fd, e: Event, t: Task): Fd {
    match t.what
    case Callback(c) => f.Set(e, Context(Some(t.scheduler), None, Some(c)))
    case FiberOf(g) => f.Set(e, Context(Some(t.scheduler), Some(g), None))
  }

  function Resized(fds: seq<Fd>, n: nat): (r: seq<Fd>)
    ensures |r| == n
    ensures forall i :: 0 <= i < n ==> r[i] == if i < |fds| then fds[i] else UNUSED_FD
  {
    if n <= |fds| then fds[..n] else fds + seq(n - |fds|, i => UNUSED_FD)
  }

  /** The scheduler call of `triggerEvent`: the callback if there is one, else the fiber. */
  function Fire(c: Context): Option<Task> {
    if c.scheduler == None then None
    else if c.cb.Some? then Some(Task(c.scheduler.value, Callback(c.cb.value)))
    else if c.fiber.Some? then Some(Task(c.scheduler.value, FiberOf(c.fiber.value)))
    else None
  }

  /** The context that is left behind: only what was scheduled and the scheduler are taken out. */
  function Spent(c: Context): Context {
    if c.cb.Some? then Context(None, c.fiber, None) else Context(None, None, None)
  }

  /** `triggerEvent` and the decrement behind it; nothing if an assertion fails or there is no scheduler. */
  function Trigger(s: State, fd: nat, e: Event): (r: Option<State>)
    requires fd < |s.fds|
    ensures r.Some? ==> |r.value.fds| == |s.fds|
  {
    var f := s.fds[fd];
    var t := Fire(f.Get(e));
    if e !in f.events || t == None then None
    else Some(s.(fds := s.fds[fd := f.(events := f.events - {e}).Set(e, Spent(f.Get(e)))],
                 pending := s.pending - 1,
                 scheduled := s.scheduled + multiset{t.value}))
  }

  function TriggerIf(s: Option<State>, want: bool, fd: nat, e: Event): (r: Option<State>)
    requires s.Some? ==> fd < |s.value.fds|
    ensures r.Some? ==> s.Some? && |r.value.fds| == |s.value.fds|
  {
    if s.Some? && want then Trigger(s.value, fd, e) else s
  }

  function DelOp(left: Mask): CtlOp { if left != {} then MOD else DEL }

  /** The events that a report stands for: an error or a hang-up wakes everything armed. */
  function Real(f: Fd, reported: Mask, failed: bool): Mask {
    if failed then reported + f.events else reported
  }

  /** The state after the step, or nothing if it runs into a failing assertion. */
  function Apply(s: State, op: Op, refuse: bool): Option<State> {
    match op
    case Resize(n) => Some(s.(fds := Resized(s.fds, n)))
    case Add(fd, e, t) => AfterAdd(s, fd, e, t, refuse)
    case Del(fd, e) =>
      if fd >= |s.fds| || e !in s.fds[fd].events then Some(s)
      else
        var f := s.fds[fd];
        var left := f.events - {e};
        var k := EpollCtl(s.kernel, DelOp(left), fd, left, refuse);
        if k == None then Some(s)
        else Some(s.(fds := s.fds[fd := f.(events := left).Set(e, EMPTY_CONTEXT)],
                     pending := s.pending - 1, kernel := k.value,
                     dropped := s.dropped + (match Fire(f.Get(e)) case None => multiset{} case Some(t) => multiset{t})))
    case Cancel(fd, e) =>
      if fd >= |s.fds| || e !in s.fds[fd].events then Some(s)
      else
        var left := s.fds[fd].events - {e};
        var k := EpollCtl(s.kernel, DelOp(left), fd, left, refuse);
        if k == None then Some(s) else Trigger(s.(kernel := k.value), fd, e)
    case CancelAll(fd) =>
      if fd >= |s.fds| || s.fds[fd].events == {} then Some(s)
      else
        var k := EpollCtl(s.kernel, DEL, fd, {}, refuse);
        if k == None then Some(s)
        else
          var armed := s.fds[fd].events;
          var s1 := TriggerIf(Some(s.(kernel := k.value)), READ in armed, fd, READ);
          var s2 := TriggerIf(s1, WRITE in armed, fd, WRITE);
          if s2.Some? && s2.value.fds[fd].events != {} then None else s2
    case Dispatch(fd, reported, failed) =>
      // a late report on a context that a legal resize has cut off finds nothing armed
      if fd >= |s.fds| then Some(s) else AfterDispatch(s, fd, Real(s.fds[fd], reported, failed), refuse)
  }

  /** What `addEvent` does under the lock of the descriptor, once the table reaches it. */
  function AfterAdd(s: State, fd: nat, e: Event, t: Task, refuse: bool): Option<State> {
    if fd >= |s.fds| || e in s.fds[fd].events then None
    else
      var f := s.fds[fd];
      var mask := f.events + {e};
      var k := EpollCtl(s.kernel, if f.events != {} then MOD else ADD, fd, mask, refuse);
      if k == None then Some(s)
      else if f.Get(e) != EMPTY_CONTEXT then None
      else Some(s.(fds := s.fds[fd := Refill(f.(events := mask), e, t)],
                   pending := s.pending + 1, kernel := k.value, added := s.added + multiset{t}))
  }

  /** The dispatch triggers every reported event, armed or not. */
  function AfterDispatch(s: State, fd: nat, due: Mask, refuse: bool): Option<State>
    requires fd < |s.fds|
  {
    var armed := s.fds[fd].events;
    if armed * due == {} then Some(s)
    else
      var left := armed - due;
      var k := EpollCtl(s.kernel, DelOp(left), fd, left, refuse);
      if k == None then Some(s)
      else TriggerIf(TriggerIf(Some(s.(kernel := k.value)), READ in due, fd, READ), WRITE in due, fd, WRITE)
  }

  // ---------- what every step keeps

  ghost predicate Holds(c: Context) {
    c.scheduler.Some? && (c.cb.Some? <==> c.fiber == None)
  }

  /** Armed events have a full context, the others an empty one. */
  ghost predicate FdOk(f: Fd) {
    forall e: Event :: if e in f.events then Holds(f.Get(e)) else f.Get(e) == EMPTY_CONTEXT
  }

  /** How often `x` waits in one descriptor. */
  function ArmedIn(f: Fd, x: Task): nat {
    (if READ in f.events && Fire(f.read) == Some(x) then 1 else 0) +
    (if WRITE in f.events && Fire(f.write) == Some(x) then 1 else 0)
  }

  /** How often `x` waits in the table. */
  function Armed(fds: seq<Fd>, x: Task): nat {
    if fds == [] then 0 else Armed(fds[..|fds| - 1], x) + ArmedIn(fds[|fds| - 1], x)
  }

  /** The number of armed bits. */
  function Bits(fds: seq<Fd>): nat {
    if fds == [] then 0 else Bits(fds[..|fds| - 1]) + |fds[|fds| - 1].events|
  }

  ghost predicate KernelOk(fds: seq<Fd>, kernel: map<nat, Mask>) {
    && (forall i :: i in kernel ==> i < |fds| && fds[i].events != {} && kernel[i] == fds[i].events)
    && (forall i :: 0 <= i < |fds| && fds[i].events != {} ==> i in kernel)
  }

  /** Every continuation that was added is still armed, or was scheduled, or was dropped. */
  ghost predicate Conserved(s: State) {
    forall x: Task :: s.added[x] == Armed(s.fds, x) + s.scheduled[x] + s.dropped[x]
  }

  ghost predicate Inv(s: State) {
    && |s.fds| >= 32
    && (forall i :: 0 <= i < |s.fds| ==> FdOk(s.fds[i]))
    && s.pending == Bits(s.fds)
    && KernelOk(s.fds, s.kernel)
    && Conserved(s)
  }

  /** Nothing is armed at or beyond `n`. */
  ghost predicate ClearFrom(fds: seq<Fd>, n: nat) {
    forall i :: n <= i < |fds| ==> fds[i].events == {}
  }

  /** The armed events that a report wakes: those reported, and all of them after an error or a hang-up. */
  function Awakened(f: Fd, reported: Mask, failed: bool): Mask {
    if failed then f.events else f.events * reported
  }

  /** When a step fails no assertion and keeps the invariant. */
  ghost predicate Legal(s: State, op: Op, refuse: bool) {
    match op
    case Resize(n) => n >= 32 && ClearFrom(s.fds, n)
    case Add(fd, e, _) => fd < |s.fds| && e !in s.fds[fd].events
    case Dispatch(fd, reported, failed) =>
      fd < |s.fds| ==>
      refuse || Awakened(s.fds[fd], reported, failed) == {} || reported <= s.fds[fd].events
    case _ => true
  }

  lemma {:induction false} ArmedUpdate(fds: seq<Fd>, i: nat, f: Fd, x: Task)
    requires i < |fds|
    ensures Armed(fds[i := f], x) + ArmedIn(fds[i], x) == Armed(fds, x) + ArmedIn(f, x)
    decreases |fds|
  {
    var n := |fds| - 1;
    var init := fds[..n];
    if i < n {
      ArmedUpdate(init, i, f, x);
      assert fds[i := f][..n] == init[i := f];
    } else {
      assert fds[i := f][..n] == init;
    }
  }

  lemma {:induction false} BitsUpdate(fds: seq<Fd>, i: nat, f: Fd)
    requires i < |fds|
    ensures Bits(fds[i := f]) + |fds[i].events| == Bits(fds) + |f.events|
    decreases |fds|
  {
    var n := |fds| - 1;
    var init := fds[..n];
    if i < n {
      BitsUpdate(init, i, f);
      assert fds[i := f][..n] == init[i := f];
    } else {
      assert fds[i := f][..n] == init;
    }
  }

  lemma {:induction false} ArmedMore(fds: seq<Fd>, n: nat, x: Task)
    requires n >= |fds|
    ensures Armed(Resized(fds, n), x) == Armed(fds, x)
    decreases n
  {
    var r := Resized(fds, n);
    if n > |fds| {
      ArmedMore(fds, n - 1, x);
      assert r[..n - 1] == Resized(fds, n - 1);
    } else {
      assert r == fds;
    }
  }

  lemma {:induction false} BitsMore(fds: seq<Fd>, n: nat)
    requires n >= |fds|
    ensures Bits(Resized(fds, n)) == Bits(fds)
    decreases n
  {
    var r := Resized(fds, n);
    if n > |fds| {
      BitsMore(fds, n - 1);
      assert r[..n - 1] == Resized(fds, n - 1);
    } else {
      assert r == fds;
    }
  }
}
