/** The event-table invariant over every run, and what becomes of each continuation. */
module EventRuns {
  import opened Options
  import opened EventSpec

  /** The invariant without the kernel's part, which a step breaks and restores. */
  ghost predicate Core(s: State) {
    && |s.fds| >= 32
    && (forall i :: 0 <= i < |s.fds| ==> FdOk(s.fds[i]))
    && s.pending == Bits(s.fds)
    && Conserved(s)
  }

  lemma FullFires(c: Context)
    requires Holds(c)
    ensures Fire(c).Some? && Spent(c) == EMPTY_CONTEXT
  {
  }

  /** Taking event `e` out of a descriptor. */
  lemma Disarm(f: Fd, e: Event)
    requires FdOk(f) && e in f.events
    ensures var g := f.(events := f.events - {e}).Set(e, EMPTY_CONTEXT);
            && FdOk(g) && g.events == f.events - {e}
            && |g.events| == |f.events| - 1
            && Fire(f.Get(e)).Some?
            && forall x: Task :: ArmedIn(f, x) == ArmedIn(g, x) + (if Fire(f.Get(e)) == Some(x) then 1 else 0)
  {
    FullFires(f.Get(e));
    var g := f.(events := f.events - {e}).Set(e, EMPTY_CONTEXT);
    assert forall d: Event :: d != e ==> g.Get(d) == f.Get(d);
  }

  /** Changing one descriptor keeps the table right if every continuation stays accounted for. */
  lemma ReplaceCore(s: State, fd: nat, g: Fd, t: State)
    requires Core(s) && fd < |s.fds| && FdOk(g)
    requires t.fds == s.fds[fd := g] && t.pending == s.pending - |s.fds[fd].events| + |g.events|
    requires forall x: Task :: t.added[x] + ArmedIn(s.fds[fd], x) + s.scheduled[x] + s.dropped[x] ==
                               s.added[x] + ArmedIn(g, x) + t.scheduled[x] + t.dropped[x]
    ensures Core(t)
  {
    BitsUpdate(s.fds, fd, g);
    forall x: Task ensures t.added[x] == Armed(t.fds, x) + t.scheduled[x] + t.dropped[x] {
      ArmedUpdate(s.fds, fd, g, x);
    }
  }

  /** An armed event triggers without a failing assertion, and its continuation moves to the scheduler. */
  lemma TriggerKeeps(s: State, fd: nat, e: Event)
    requires Core(s) && fd < |s.fds| && e in s.fds[fd].events
    ensures var r := Trigger(s, fd, e);
            && r.Some? && Core(r.value)
            && r.value.kernel == s.kernel && |r.value.fds| == |s.fds|
            && r.value.fds == s.fds[fd := s.fds[fd].(events := s.fds[fd].events - {e}).Set(e, EMPTY_CONTEXT)]
            && r.value.pending == s.pending - 1
            && Fire(s.fds[fd].Get(e)).Some?
            && r.value.scheduled == s.scheduled + multiset{Fire(s.fds[fd].Get(e)).value}
            && r.value.added == s.added && r.value.dropped == s.dropped
  {
    var f := s.fds[fd];
    Disarm(f, e);
    FullFires(f.Get(e));
    var g := f.(events := f.events - {e}).Set(e, EMPTY_CONTEXT);
    ReplaceCore(s, fd, g, Trigger(s, fd, e).value);
  }

  /** The interest set stays right when one descriptor changes and the kernel is told. */
  lemma KernelFollows(fds: seq<Fd>, kernel: map<nat, Mask>, fds': seq<Fd>, fd: nat)
    requires KernelOk(fds, kernel) && |fds'| == |fds| && fd < |fds|
    requires forall i :: 0 <= i < |fds| && i != fd ==> fds'[i].events == fds[i].events
    ensures KernelOk(fds', if fds'[fd].events == {} then kernel - {fd} else kernel[fd := fds'[fd].events])
  {
  }

  /** In a good state the kernel refuses only on its own account: the request fits its interest set. */
  lemma RequestFits(s: State, fd: nat, left: Mask, refuse: bool)
    requires KernelOk(s.fds, s.kernel) && fd < |s.fds| && s.fds[fd].events != {}
    ensures var k := EpollCtl(s.kernel, DelOp(left), fd, left, refuse);
            && (k == None <==> refuse)
            && (k.Some? ==> k.value == if left == {} then s.kernel - {fd} else s.kernel[fd := left])
  {
  }

  lemma CoreIs(s: State)
    ensures Inv(s) <==> Core(s) && KernelOk(s.fds, s.kernel)
  {
  }

  function Fired(c: Context, want: bool): seq<Task> {
    if want && Fire(c).Some? then [Fire(c).value] else []
  }

  /** The continuations of the events `due` of a descriptor, the reader before the writer. */
  function FiredBy(f: Fd, due: Mask): seq<Task> {
    Fired(f.read, READ in due) + Fired(f.write, WRITE in due)
  }

  /** The descriptor without the events `due`. */
  function Quieted(f: Fd, due: Mask): Fd {
    Fd(f.events - due, if READ in due then EMPTY_CONTEXT else f.read, if WRITE in due then EMPTY_CONTEXT else f.write)
  }

  /** Exactly the continuations of the events `due` of `fd` went to the scheduler, and nothing else changed. */
  ghost predicate Woke(s: State, t: State, fd: nat, due: Mask) {
    && fd < |s.fds| && t.fds == s.fds[fd := Quieted(s.fds[fd], due)] && t.pending == s.pending - |due|
    && t.scheduled == s.scheduled + multiset(FiredBy(s.fds[fd], due)) && t.added == s.added && t.dropped == s.dropped
  }

  /** `x` waits for event `e` of the descriptor. */
  ghost predicate Waits(f: Fd, e: Event, x: Task) {
    && e in f.events
    && (if e == READ then f.read else f.write) ==
       match x.what
       case Callback(id) => Context(Some(x.scheduler), None, Some(id))
       case FiberOf(id) => Context(Some(x.scheduler), Some(id), None)
  }

  /** `e` is armed and the kernel lets it go. */
  predicate Goes(s: State, fd: nat, e: Event, refuse: bool) {
    fd < |s.fds| && e in s.fds[fd].events && !refuse
  }

  lemma CancelKeeps(s: State, fd: nat, e: Event, refuse: bool)
    requires Inv(s)
    ensures var r := Apply(s, Cancel(fd, e), refuse);
            && r.Some? && Inv(r.value)
            && if Goes(s, fd, e, refuse) then
                 && Woke(s, r.value, fd, {e}) && Fire(s.fds[fd].Get(e)).Some?
                 && r.value.scheduled == s.scheduled + multiset{Fire(s.fds[fd].Get(e)).value}
               else r.value == s
  {
    if fd < |s.fds| && e in s.fds[fd].events && !refuse {
      var left := s.fds[fd].events - {e};
      RequestFits(s, fd, left, refuse);
      var s1 := s.(kernel := EpollCtl(s.kernel, DelOp(left), fd, left, refuse).value);
      TriggerKeeps(s1, fd, e);
      TriggerOne(s1, true, fd, e);
      WokeInv(s, Trigger(s1, fd, e).value, fd, {e});
    }
  }

  lemma QuietedIs(f: Fd, e: Event)
    ensures Quieted(f, {e}) == f.(events := f.events - {e}).Set(e, EMPTY_CONTEXT)
  {
  }

  lemma DropKeeps(s: State, fd: nat, e: Event)
    requires Inv(s) && fd < |s.fds| && e in s.fds[fd].events && Fire(s.fds[fd].Get(e)).Some?
    ensures var left := s.fds[fd].events - {e};
            Inv(s.(fds := s.fds[fd := s.fds[fd].(events := left).Set(e, EMPTY_CONTEXT)], pending := s.pending - 1,
                   kernel := if left == {} then s.kernel - {fd} else s.kernel[fd := left],
                   dropped := s.dropped + multiset{Fire(s.fds[fd].Get(e)).value}))
  {
    var left := s.fds[fd].events - {e};
    var g := s.fds[fd].(events := left).Set(e, EMPTY_CONTEXT);
    var r := s.(fds := s.fds[fd := g], pending := s.pending - 1,
                kernel := if left == {} then s.kernel - {fd} else s.kernel[fd := left],
                dropped := s.dropped + multiset{Fire(s.fds[fd].Get(e)).value});
    Disarm(s.fds[fd], e);
    ReplaceCore(s, fd, g, r);
    KernelFollows(s.fds, s.kernel, r.fds, fd);
    CoreIs(r);
  }

  lemma DelKeeps(s: State, fd: nat, e: Event, refuse: bool)
    requires Inv(s)
    ensures var r := Apply(s, Del(fd, e), refuse);
            && r.Some? && Inv(r.value) && r.value.added == s.added && r.value.scheduled == s.scheduled
            && if Goes(s, fd, e, refuse) then
                 && r.value.fds == s.fds[fd := Quieted(s.fds[fd], {e})] && r.value.pending == s.pending - 1
                 && Fire(s.fds[fd].Get(e)).Some?
                 && r.value.dropped == s.dropped + multiset{Fire(s.fds[fd].Get(e)).value}
               else r.value == s
  {
    if fd < |s.fds| && e in s.fds[fd].events && !refuse {
      FullFires(s.fds[fd].Get(e));
      RequestFits(s, fd, s.fds[fd].events - {e}, refuse);
      DropKeeps(s, fd, e);
      QuietedIs(s.fds[fd], e);
    }
  }

  lemma ArmMore(f: Fd, e: Event, t: Task)
    requires FdOk(f) && e !in f.events
    ensures var g := Refill(f.(events := f.events + {e}), e, t);
            && FdOk(g) && g.events == f.events + {e}
            && |g.events| == |f.events| + 1
            && Waits(g, e, t) && Quieted(g, {e}) == f
            && forall x: Task :: ArmedIn(g, x) == ArmedIn(f, x) + (if x == t then 1 else 0)
  {
    var g := Refill(f.(events := f.events + {e}), e, t);
    assert forall d: Event :: d != e ==> g.Get(d) == f.Get(d);
    assert Fire(g.Get(e)) == Some(t);
    assert f.Get(e) == EMPTY_CONTEXT && g.events - {e} == f.events;
  }

  /** `t` waits for event `e` of `fd`, which was not armed, and nothing else in the table changed. */
  ghost predicate NowWaits(s: State, r: State, fd: nat, e: Event, t: Task) {
    && fd < |s.fds| == |r.fds| && r.fds[fd].events == s.fds[fd].events + {e} && Waits(r.fds[fd], e, t)
    && s.fds == r.fds[fd := Quieted(r.fds[fd], {e})]
  }

  lemma AddFits(s: State, fd: nat, e: Event, refuse: bool)
    requires KernelOk(s.fds, s.kernel) && fd < |s.fds|
    ensures var armed := s.fds[fd].events;
            EpollCtl(s.kernel, if armed != {} then MOD else ADD, fd, armed + {e}, refuse) ==
            if refuse then None else Some(s.kernel[fd := armed + {e}])
  {
  }

  lemma AddKeeps(s: State, fd: nat, e: Event, t: Task, refuse: bool)
    requires Inv(s)
    ensures var r := Apply(s, Add(fd, e, t), refuse);
            && (r.Some? <==> Legal(s, Add(fd, e, t), refuse))
            && (r.Some? ==> Inv(r.value))
            && (r.Some? ==>
                  if refuse then r.value == s
                  else
                    && NowWaits(s, r.value, fd, e, t)
                    && r.value == s.(fds := r.value.fds, pending := s.pending + 1, kernel := r.value.kernel,
                                     added := s.added + multiset{t}))
  {
    if fd < |s.fds| {
      AddFits(s, fd, e, refuse);
      if e !in s.fds[fd].events && !refuse {
        ArmKeeps(s, fd, e, t);
      }
    }
  }

  lemma ArmKeeps(s: State, fd: nat, e: Event, t: Task)
    requires Inv(s) && fd < |s.fds| && e !in s.fds[fd].events
    ensures var g := Refill(s.fds[fd].(events := s.fds[fd].events + {e}), e, t);
            var r := s.(fds := s.fds[fd := g], pending := s.pending + 1,
                        kernel := s.kernel[fd := s.fds[fd].events + {e}], added := s.added + multiset{t});
            Inv(r) && NowWaits(s, r, fd, e, t)
  {
    ArmMore(s.fds[fd], e, t);
    var g := Refill(s.fds[fd].(events := s.fds[fd].events + {e}), e, t);
    var r := s.(fds := s.fds[fd := g], pending := s.pending + 1,
                kernel := s.kernel[fd := s.fds[fd].events + {e}], added := s.added + multiset{t});
    ReplaceCore(s, fd, g, r);
    KernelFollows(s.fds, s.kernel, r.fds, fd);
    CoreIs(r);
  }

  lemma WriterStays(s: State, want: bool, fd: nat)
    requires fd < |s.fds| && TriggerIf(Some(s), want, fd, READ).Some?
    ensures TriggerIf(Some(s), want, fd, READ).value.fds[fd].write == s.fds[fd].write
  {
  }

  lemma FiredInTurn(before: seq<Task>, f: Fd, due: Mask)
    ensures before + FiredBy(f, due) == before + Fired(f.read, READ in due) + Fired(f.write, WRITE in due)
  {
  }

  ghost function Only(want: bool, e: Event): Mask { if want then {e} else {} }

  /** One of the two triggers of a descriptor. */
  lemma TriggerOne(s: State, want: bool, fd: nat, e: Event)
    requires Core(s) && fd < |s.fds| && (want ==> e in s.fds[fd].events)
    ensures var r := TriggerIf(Some(s), want, fd, e);
            r.Some? && Core(r.value) && r.value.kernel == s.kernel && Woke(s, r.value, fd, Only(want, e))
  {
    if want {
      TriggerKeeps(s, fd, e);
      assert FiredBy(s.fds[fd], {e}) == [Fire(s.fds[fd].Get(e)).value];
      QuietedIs(s.fds[fd], e);
    } else {
      assert Quieted(s.fds[fd], {}) == s.fds[fd];
    }
  }

  lemma WokeBoth(s: State, t: State, u: State, fd: nat, due: Mask)
    requires Woke(s, t, fd, Only(READ in due, READ)) && Woke(t, u, fd, Only(WRITE in due, WRITE))
    ensures Woke(s, u, fd, due)
  {
    OneByOne(s.fds[fd], due);
    assert t.fds[fd := u.fds[fd]] == s.fds[fd := u.fds[fd]];
  }

  lemma OneByOne(f: Fd, due: Mask)
    ensures var g := Quieted(f, Only(READ in due, READ));
            && Quieted(g, Only(WRITE in due, WRITE)) == Quieted(f, due)
            && FiredBy(f, Only(READ in due, READ)) + FiredBy(g, Only(WRITE in due, WRITE)) == FiredBy(f, due)
    ensures |due| == |Only(READ in due, READ)| + |Only(WRITE in due, WRITE)|
  {
    assert forall e :: e in due ==> e == READ || e == WRITE;
    assert due == Only(READ in due, READ) + Only(WRITE in due, WRITE);
  }

  /** Triggering both events of a set that is armed. */
  lemma TriggerAll(s: State, fd: nat, due: Mask)
    requires Core(s) && fd < |s.fds| && due <= s.fds[fd].events
    ensures var r := TriggerIf(TriggerIf(Some(s), READ in due, fd, READ), WRITE in due, fd, WRITE);
            r.Some? && Core(r.value) && r.value.kernel == s.kernel && Woke(s, r.value, fd, due)
  {
    TriggerOne(s, READ in due, fd, READ);
    var t := TriggerIf(Some(s), READ in due, fd, READ).value;
    TriggerOne(t, WRITE in due, fd, WRITE);
    WokeBoth(s, t, TriggerIf(Some(t), WRITE in due, fd, WRITE).value, fd, due);
  }

  /** A reported event that is not armed any more fails the assertion of `triggerEvent`. */
  lemma UnarmedFails(s: State, fd: nat, due: Mask)
    requires fd < |s.fds| && !(due <= s.fds[fd].events)
    ensures TriggerIf(TriggerIf(Some(s), READ in due, fd, READ), WRITE in due, fd, WRITE) == None
  {
    if READ !in due || READ in s.fds[fd].events {
      assert WRITE in due && WRITE !in s.fds[fd].events by {
        var e: Event :| e in due && e !in s.fds[fd].events;
        assert e == READ || e == WRITE;
      }
      if READ in due {
        var s1 := Trigger(s, fd, READ);
        assert s1.Some? ==> s1.value.fds[fd].events == s.fds[fd].events - {READ};
      }
    }
  }

  lemma WakeKeeps(s: State, fd: nat, due: Mask)
    requires Inv(s) && fd < |s.fds| && due != {} && due <= s.fds[fd].events
    ensures var r := AfterDispatch(s, fd, due, false); r.Some? && Inv(r.value) && Woke(s, r.value, fd, due)
  {
    var left := s.fds[fd].events - due;
    RequestFits(s, fd, left, false);
    assert s.fds[fd].events * due == due;
    var s1 := s.(kernel := if left == {} then s.kernel - {fd} else s.kernel[fd := left]);
    TriggerAll(s1, fd, due);
    WokeInv(s, AfterDispatch(s, fd, due, false).value, fd, due);
  }

  lemma WokeInv(s: State, r: State, fd: nat, due: Mask)
    requires Inv(s) && Core(r) && Woke(s, r, fd, due)
    requires var left := s.fds[fd].events - due;
             r.kernel == if left == {} then s.kernel - {fd} else s.kernel[fd := left]
    ensures Inv(r)
  {
    KernelFollows(s.fds, s.kernel, r.fds, fd);
    CoreIs(r);
  }

  lemma CancelAllKeeps(s: State, fd: nat, refuse: bool)
    requires Inv(s)
    ensures var r := Apply(s, CancelAll(fd), refuse);
            && r.Some? && Inv(r.value)
            && if fd < |s.fds| && s.fds[fd].events != {} && !refuse then Woke(s, r.value, fd, s.fds[fd].events)
               else r.value == s
  {
    if fd < |s.fds| && s.fds[fd].events != {} && !refuse {
      WakeKeeps(s, fd, s.fds[fd].events);
      AllIsDispatch(s, fd, AfterDispatch(s, fd, s.fds[fd].events, false).value);
    }
  }

  /** Cancelling all events is the dispatch of all that is armed. */
  lemma AllIsDispatch(s: State, fd: nat, r: State)
    requires fd < |s.fds| && s.fds[fd].events != {} && AfterDispatch(s, fd, s.fds[fd].events, false) == Some(r)
    requires Woke(s, r, fd, s.fds[fd].events) && fd in s.kernel
    ensures Apply(s, CancelAll(fd), false) == Some(r)
  {
    var armed := s.fds[fd].events;
    assert armed * armed == armed && armed - armed == {};
    assert r.fds[fd].events == {};
  }

  lemma AfterDispatchKeeps(s: State, fd: nat, due: Mask, refuse: bool)
    requires Inv(s) && fd < |s.fds|
    ensures var r, armed := AfterDispatch(s, fd, due, refuse), s.fds[fd].events;
            && (r.Some? <==> refuse || due * armed == {} || due <= armed)
            && (r.Some? ==> Inv(r.value))
            && (r.Some? ==> if refuse || due * armed == {} then r.value == s else Woke(s, r.value, fd, due))
  {
    var armed := s.fds[fd].events;
    if armed * due != {} && !refuse {
      if due <= armed {
        WakeKeeps(s, fd, due);
      } else {
        var left := armed - due;
        RequestFits(s, fd, left, refuse);
        UnarmedFails(s.(kernel := EpollCtl(s.kernel, DelOp(left), fd, left, refuse).value), fd, due);
      }
    }
  }

  /** The dispatch of one report fails exactly when it reports armed and unarmed events together. */
  lemma DispatchKeeps(s: State, fd: nat, reported: Mask, failed: bool, refuse: bool)
    requires Inv(s)
    ensures var op := Dispatch(fd, reported, failed);
            var r := Apply(s, op, refuse);
            && (r.Some? <==> Legal(s, op, refuse))
            && (r.Some? ==> Inv(r.value))
            && (r.Some? ==>
                  if refuse || fd >= |s.fds| || Awakened(s.fds[fd], reported, failed) == {} then r.value == s
                  else Woke(s, r.value, fd, Awakened(s.fds[fd], reported, failed)))
  {
    if fd < |s.fds| {
      RealIs(s.fds[fd], reported, failed);
      AfterDispatchKeeps(s, fd, Real(s.fds[fd], reported, failed), refuse);
    }
  }

  /** What is armed and what is counted after a legal report, without the code's own choice of events. */
  lemma DispatchLeaves(s: State, fd: nat, reported: Mask, failed: bool, refuse: bool)
    requires Inv(s) && Legal(s, Dispatch(fd, reported, failed), refuse)
    ensures var r := Apply(s, Dispatch(fd, reported, failed), refuse);
            && r.Some? && Inv(r.value) && |r.value.fds| == |s.fds|
            && (refuse || fd >= |s.fds| ==> r.value == s)
            && (!refuse && fd < |s.fds| ==>
                  var f, due := s.fds[fd], if failed then s.fds[fd].events else s.fds[fd].events * reported;
                  && r.value.fds[fd].events == (if failed then {} else f.events - reported)
                  && r.value.pending == s.pending - |due|
                  && (due == {} <==> r.value == s)
                  && (due == {} <==> Real(f, reported, failed) * f.events == {})
                  && (due != {} ==> due == Real(f, reported, failed)))
  {
    DispatchKeeps(s, fd, reported, failed, refuse);
    if !refuse && fd < |s.fds| {
      var f, due := s.fds[fd], Awakened(s.fds[fd], reported, failed);
      RealIs(f, reported, failed);
      assert f.events - due == if failed then {} else f.events - reported;
    }
  }

  /** The code's events against those that are to be woken. */
  lemma RealIs(f: Fd, reported: Mask, failed: bool)
    ensures Real(f, reported, failed) * f.events == Awakened(f, reported, failed)
    ensures Real(f, reported, failed) <= f.events <==> reported <= f.events
    ensures reported <= f.events ==> Real(f, reported, failed) == Awakened(f, reported, failed)
  {
    assert (reported + f.events) * f.events == f.events;
  }

  /**
   A report of armed events, to a kernel that agrees. With an error or a hang-up it
   disarms the descriptor and schedules whatever waits there, each once, though nothing
   else be reported. Without, it disarms exactly what it reports and schedules exactly that.
   */
  lemma ReportWakes(s: State, fd: nat, m: Mask, failed: bool, x: Task)
    requires Inv(s) && fd < |s.fds| && m <= s.fds[fd].events
    ensures var r, f := Apply(s, Dispatch(fd, m, failed), false), s.fds[fd];
            && r.Some? && |r.value.fds| == |s.fds|
            && (failed ==> r.value.fds[fd] == UNUSED_FD && r.value.pending == s.pending - |f.events|)
            && (!failed ==> r.value.fds[fd].events == f.events - m && r.value.pending == s.pending - |m|)
            && r.value.scheduled[x] == s.scheduled[x]
                 + (if Waits(f, READ, x) && (failed || READ in m) then 1 else 0)
                 + (if Waits(f, WRITE, x) && (failed || WRITE in m) then 1 else 0)
  {
    var f, due := s.fds[fd], if failed then s.fds[fd].events else m;
    assert f.events * m == m;
    assert due == Awakened(f, m, failed);
    DispatchKeeps(s, fd, m, failed, false);
    WokeIs(s, Apply(s, Dispatch(fd, m, failed), false).value, fd, due, x);
  }

  lemma WokeIs(s: State, t: State, fd: nat, due: Mask, x: Task)
    requires Inv(s) && Inv(t) && fd < |s.fds| && due <= s.fds[fd].events
    requires if due == {} then t == s else Woke(s, t, fd, due)
    ensures |t.fds| == |s.fds| && t.fds[fd].events == s.fds[fd].events - due && t.pending == s.pending - |due|
    ensures due == s.fds[fd].events ==> t.fds[fd] == UNUSED_FD
    ensures t.scheduled[x] == s.scheduled[x]
              + (if Waits(s.fds[fd], READ, x) && READ in due then 1 else 0)
              + (if Waits(s.fds[fd], WRITE, x) && WRITE in due then 1 else 0)
  {
    assert FdOk(t.fds[fd]);
    FiredAre(s.fds[fd], due, x);
    assert due == {} ==> s.fds[fd].events - due == s.fds[fd].events;
    if due == s.fds[fd].events {
      assert t.fds[fd].Get(READ) == EMPTY_CONTEXT && t.fds[fd].Get(WRITE) == EMPTY_CONTEXT;
    }
  }

  lemma FiredAre(f: Fd, due: Mask, x: Task)
    requires FdOk(f) && due <= f.events
    ensures multiset(FiredBy(f, due))[x] ==
            (if Waits(f, READ, x) && READ in due then 1 else 0) + (if Waits(f, WRITE, x) && WRITE in due then 1 else 0)
  {
    WaitsFires(f, READ, x);
    WaitsFires(f, WRITE, x);
  }

  lemma WaitsFires(f: Fd, e: Event, x: Task)
    requires FdOk(f)
    ensures Waits(f, e, x) <==> e in f.events && Fire(f.Get(e)) == Some(x)
  {
    assert f.Get(e) == if e == READ then f.read else f.write;
  }

  // ---------- what one call undoes

  /** In a good state the rest of the table determines the interest set. */
  lemma KernelDetermined(s: State, t: State)
    requires KernelOk(s.fds, s.kernel) && KernelOk(t.fds, t.kernel) && s.fds == t.fds
    ensures s.kernel == t.kernel
  {
    assert forall i :: i in s.kernel <==> i in t.kernel;
  }

  lemma Undone(s: State, r: State, q: State, fd: nat, e: Event, t: Task)
    requires Inv(s) && Inv(r) && Inv(q) && NowWaits(s, r, fd, e, t) && Woke(r, q, fd, {e})
    requires r == s.(fds := r.fds, pending := s.pending + 1, kernel := r.kernel, added := s.added + multiset{t})
    ensures q == s.(added := s.added + multiset{t}, scheduled := s.scheduled + multiset{t})
  {
    WaitsFires(r.fds[fd], e, t);
    assert FiredBy(r.fds[fd], {e}) == [t];
    KernelDetermined(s, q);
  }

  /** A cancel behind an add leaves nothing but the continuation, scheduled. */
  lemma CancelUndoesAdd(s: State, fd: nat, e: Event, t: Task)
    requires Inv(s) && fd < |s.fds| && e !in s.fds[fd].events
    ensures var r := Apply(s, Add(fd, e, t), false);
            && r.Some?
            && Apply(r.value, Cancel(fd, e), false) ==
               Some(s.(added := s.added + multiset{t}, scheduled := s.scheduled + multiset{t}))
  {
    AddKeeps(s, fd, e, t, false);
    var r := Apply(s, Add(fd, e, t), false).value;
    CancelKeeps(r, fd, e, false);
    Undone(s, r, Apply(r, Cancel(fd, e), false).value, fd, e, t);
  }

  lemma ReportOne(s: State, fd: nat, e: Event)
    requires Inv(s) && fd < |s.fds| && e in s.fds[fd].events
    ensures var r := Apply(s, Dispatch(fd, {e}, false), false);
            r.Some? && Inv(r.value) && Woke(s, r.value, fd, {e})
  {
    DispatchKeeps(s, fd, {e}, false, false);
    assert Awakened(s.fds[fd], {e}, false) == {e};
  }

  /** So does the report of just that event. */
  lemma ReportUndoesAdd(s: State, fd: nat, e: Event, t: Task)
    requires Inv(s) && fd < |s.fds| && e !in s.fds[fd].events
    ensures var r := Apply(s, Add(fd, e, t), false);
            && r.Some?
            && Apply(r.value, Dispatch(fd, {e}, false), false) ==
               Some(s.(added := s.added + multiset{t}, scheduled := s.scheduled + multiset{t}))
  {
    AddKeeps(s, fd, e, t, false);
    var r := Apply(s, Add(fd, e, t), false).value;
    ReportOne(r, fd, e);
    Undone(s, r, Apply(r, Dispatch(fd, {e}, false), false).value, fd, e, t);
  }

  /** A delete behind an add leaves nothing but the continuation, dropped. */
  lemma DelUndoesAdd(s: State, fd: nat, e: Event, t: Task)
    requires Inv(s) && fd < |s.fds| && e !in s.fds[fd].events
    ensures var r := Apply(s, Add(fd, e, t), false);
            && r.Some?
            && Apply(r.value, Del(fd, e), false) ==
               Some(s.(added := s.added + multiset{t}, dropped := s.dropped + multiset{t}))
  {
    AddKeeps(s, fd, e, t, false);
    var r := Apply(s, Add(fd, e, t), false).value;
    DelKeeps(r, fd, e, false);
    WaitsFires(r.fds[fd], e, t);
    KernelDetermined(s, Apply(r, Del(fd, e), false).value);
  }

  // ---------- the resize

  lemma {:induction false} BitsCut(fds: seq<Fd>, n: nat)
    requires n <= |fds|
    ensures Bits(fds) == Bits(fds[..n]) <==> ClearFrom(fds, n)
    ensures Bits(fds) >= Bits(fds[..n])
    decreases |fds|
  {
    if n < |fds| {
      var init := fds[..|fds| - 1];
      BitsCut(init, n);
      assert init[..n] == fds[..n];
      assert |fds[|fds| - 1].events| == 0 <==> fds[|fds| - 1].events == {};
      assert forall i :: n <= i < |init| ==> init[i] == fds[i];
    } else {
      assert fds[..n] == fds;
    }
  }

  lemma {:induction false} ArmedCut(fds: seq<Fd>, n: nat, x: Task)
    requires n <= |fds| && ClearFrom(fds, n)
    ensures Armed(fds[..n], x) == Armed(fds, x)
    decreases |fds|
  {
    if n < |fds| {
      var init := fds[..|fds| - 1];
      assert forall i :: n <= i < |init| ==> init[i] == fds[i];
      ArmedCut(init, n, x);
      assert init[..n] == fds[..n];
    } else {
      assert fds[..n] == fds;
    }
  }

  /** The counts survive a resize exactly when nothing is armed at or beyond the new size. */
  lemma ResizeCounts(s: State, n: nat)
    ensures Bits(Resized(s.fds, n)) == Bits(s.fds) <==> ClearFrom(s.fds, n)
    ensures ClearFrom(s.fds, n) ==> forall x: Task :: Armed(Resized(s.fds, n), x) == Armed(s.fds, x)
  {
    if n <= |s.fds| {
      BitsCut(s.fds, n);
      if ClearFrom(s.fds, n) {
        forall x: Task { ArmedCut(s.fds, n, x); }
      }
    } else {
      BitsMore(s.fds, n);
      forall x: Task { ArmedMore(s.fds, n, x); }
    }
  }

  /** A resize keeps the invariant if and only if nothing is armed at or beyond the new size. */
  lemma ResizeKeeps(s: State, n: nat)
    requires Inv(s)
    ensures Inv(Apply(s, Resize(n), false).value) <==> n >= 32 && ClearFrom(s.fds, n)
  {
    var r := s.(fds := Resized(s.fds, n));
    ResizeCounts(s, n);
    if n >= 32 && ClearFrom(s.fds, n) {
      assert KernelOk(r.fds, r.kernel);
      CoreIs(r);
    }
  }

  /** A step fails no assertion and keeps the invariant if and only if it is legal. */
  lemma StepKeeps(s: State, op: Op, refuse: bool)
    requires Inv(s)
    ensures var r := Apply(s, op, refuse);
            && (r.Some? && Inv(r.value) <==> Legal(s, op, refuse))
            && (r.Some? && !op.Resize? ==> Inv(r.value))
  {
    match op
    case Resize(n) => ResizeKeeps(s, n);
    case Add(fd, e, t) => AddKeeps(s, fd, e, t, refuse);
    case Del(fd, e) => DelKeeps(s, fd, e, refuse);
    case Cancel(fd, e) => CancelKeeps(s, fd, e, refuse);
    case CancelAll(fd) => CancelAllKeeps(s, fd, refuse);
    case Dispatch(fd, m, failed) => DispatchKeeps(s, fd, m, failed, refuse);
  }

  // ---------- runs

  datatype Call = Call(op: Op, refuse: bool)

  function Fresh(): State {
    State(seq(32, i => UNUSED_FD), 0, map[], multiset{}, multiset{}, multiset{})
  }

  /** The state after the calls, or nothing if one of them failed an assertion. */
  function RunTo(s: State, calls: seq<Call>): Option<State>
    decreases |calls|
  {
    if calls == [] then Some(s)
    else
      var r := Apply(s, calls[0].op, calls[0].refuse);
      if r == None then None else RunTo(r.value, calls[1..])
  }

  ghost predicate LegalRun(s: State, calls: seq<Call>)
    decreases |calls|
  {
    calls == [] ||
    (Legal(s, calls[0].op, calls[0].refuse) &&
     var r := Apply(s, calls[0].op, calls[0].refuse);
     r.Some? ==> LegalRun(r.value, calls[1..]))
  }

  /** No call fails an assertion, and the invariant holds after each. */
  ghost predicate KeptAlong(s: State, calls: seq<Call>)
    decreases |calls|
  {
    calls == [] ||
    (var r := Apply(s, calls[0].op, calls[0].refuse);
     r.Some? && Inv(r.value) && KeptAlong(r.value, calls[1..]))
  }

  lemma {:induction false} RunKeeps(s: State, calls: seq<Call>)
    requires Inv(s)
    ensures KeptAlong(s, calls) <==> LegalRun(s, calls)
    ensures LegalRun(s, calls) ==> RunTo(s, calls).Some? && Inv(RunTo(s, calls).value)
    decreases |calls|
  {
    if calls != [] {
      StepKeeps(s, calls[0].op, calls[0].refuse);
      var r := Apply(s, calls[0].op, calls[0].refuse);
      if r.Some? && Inv(r.value) {
        RunKeeps(r.value, calls[1..]);
      }
    }
  }

  /**
   The two steps of `addEvent`: a resize if the size that it saw, which other calls may
   have changed since, does not reach the descriptor, and then the arming.
   */
  function AddCalls(fd: nat, e: Event, t: Task, seen: nat, refuse: bool): seq<Call> {
    (if seen > fd then [] else [Call(Resize(fd * 3 / 2), false)]) + [Call(Add(fd, e, t), refuse)]
  }

  /** With a size that is not stale, `addEvent` is legal if and only if the event is not armed. */
  lemma AddEventKeeps(s: State, fd: nat, e: Event, t: Task, refuse: bool)
    requires Inv(s)
    ensures LegalRun(s, AddCalls(fd, e, t, |s.fds|, refuse)) <==> (fd < |s.fds| ==> e !in s.fds[fd].events)
  {
    var last := [Call(Add(fd, e, t), refuse)];
    if |s.fds| > fd {
      assert AddCalls(fd, e, t, |s.fds|, refuse) == last;
      assert LegalRun(s, last) <==> Legal(s, Add(fd, e, t), refuse);
    } else {
      var r := s.(fds := Resized(s.fds, fd * 3 / 2));
      assert AddCalls(fd, e, t, |s.fds|, refuse)[1..] == last;
      assert r.fds[fd] == UNUSED_FD;
      assert LegalRun(r, last) <==> Legal(r, Add(fd, e, t), refuse);
    }
  }

  /** The state in which `addEvent` arms: the table, resized if the size seen asks for it. */
  function Reached(s: State, fd: nat, seen: nat): State {
    if seen > fd then s else s.(fds := Resized(s.fds, fd * 3 / 2))
  }

  lemma AddRun(s: State, fd: nat, e: Event, t: Task, seen: nat, refuse: bool)
    requires Inv(s) && LegalRun(s, AddCalls(fd, e, t, seen, refuse))
    ensures var r := Reached(s, fd, seen);
            && Inv(r) && Legal(r, Add(fd, e, t), refuse)
            && RunTo(s, AddCalls(fd, e, t, seen, refuse)) == Apply(r, Add(fd, e, t), refuse)
  {
    var r, calls, last := Reached(s, fd, seen), AddCalls(fd, e, t, seen, refuse), [Call(Add(fd, e, t), refuse)];
    if seen > fd {
      assert calls == last;
    } else {
      ResizeKeeps(s, fd * 3 / 2);
      assert calls[0] == Call(Resize(fd * 3 / 2), false) && calls[1..] == last;
      assert RunTo(s, calls) == RunTo(r, last);
    }
    assert LegalRun(r, last);
    LastCall(r, last[0]);
  }

  lemma LastCall(s: State, call: Call)
    ensures RunTo(s, [call]) == Apply(s, call.op, call.refuse)
  {
    var r := Apply(s, call.op, call.refuse);
    assert r.Some? ==> RunTo(r.value, [call][1..]) == r;
  }

  lemma {:induction false} FreshIsGood(n: nat, x: Task)
    ensures Armed(seq(n, i => UNUSED_FD), x) == 0 && Bits(seq(n, i => UNUSED_FD)) == 0
  {
    if n > 0 {
      FreshIsGood(n - 1, x);
      assert seq(n, i => UNUSED_FD)[..n - 1] == seq(n - 1, i => UNUSED_FD);
    }
  }

  lemma FreshInv()
    ensures Inv(Fresh())
  {
    var fds := Fresh().fds;
    forall x: Task ensures Armed(fds, x) == 0 && Bits(fds) == 0 {
      FreshIsGood(32, x);
    }
    assert Armed(fds, Task(0, Callback(0))) == 0;
  }

  /**
   From a fresh table, a run meets all assertions and keeps the invariant after every
   call if and only if it is legal: it adds no armed event, it reports no unarmed event
   together with an armed one, and no stale resize cuts off an armed descriptor. The
   invariant: the pending count is the number of armed bits, contexts are full exactly
   for armed bits, every continuation is accounted for, and the kernel's interest set is
   the armed bits, so every request fits it.
   */
  lemma TableInvariant(calls: seq<Call>)
    ensures KeptAlong(Fresh(), calls) <==> LegalRun(Fresh(), calls)
    ensures LegalRun(Fresh(), calls) ==> RunTo(Fresh(), calls).Some? && Inv(RunTo(Fresh(), calls).value)
  {
    FreshInv();
    RunKeeps(Fresh(), calls);
  }

  /** No continuation is scheduled more often than it was added, and none that was dropped or still waits. */
  lemma ScheduledOnce(calls: seq<Call>, x: Task)
    requires LegalRun(Fresh(), calls)
    ensures RunTo(Fresh(), calls).Some?
    ensures var s := RunTo(Fresh(), calls).value;
            s.scheduled[x] == s.added[x] - s.dropped[x] - Armed(s.fds, x)
  {
    TableInvariant(calls);
  }

  lemma MixedReportFails(s: State, fd: nat)
    requires Inv(s) && fd < |s.fds| && READ in s.fds[fd].events && WRITE !in s.fds[fd].events
    ensures Apply(s, Dispatch(fd, {READ, WRITE}, false), false) == None
  {
    var both: Mask := {READ, WRITE};
    assert READ in both * s.fds[fd].events;
    AfterDispatchKeeps(s, fd, both, false);
  }

  /** The race: a report of both events, one of which was cancelled before its dispatch. */
  lemma LateReportFails(s: State, fd: nat)
    requires Inv(s) && fd < |s.fds| && s.fds[fd].events == {READ, WRITE}
    ensures var r := Apply(s, Cancel(fd, WRITE), false);
            r.Some? && Apply(r.value, Dispatch(fd, {READ, WRITE}, false), false) == None
  {
    CancelKeeps(s, fd, WRITE, false);
    MixedReportFails(Apply(s, Cancel(fd, WRITE), false).value, fd);
  }

  /**
   The race of two calls of `addEvent` on a fresh table, on descriptors 100 and 40: both
   see 32 contexts, the first makes 150 and arms, then the second makes 60. The armed
   event is gone from the table, but not from the count and the kernel.
   */
  lemma StaleResizeLosesEvent(t: Task)
    ensures var r := RunTo(Fresh(), AddCalls(100, READ, t, 32, false) + [Call(Resize(60), false)]);
            && r.Some? && r.value.pending == 1 && r.value.kernel == map[100 := {READ}]
            && ClearFrom(r.value.fds, 0) && !Inv(r.value)
  {
    var calls := AddCalls(100, READ, t, 32, false) + [Call(Resize(60), false)];
    var s0 := Fresh();
    var s1 := s0.(fds := Resized(s0.fds, 150));
    var s2 := Apply(s1, Add(100, READ, t), false).value;
    var s3 := s2.(fds := Resized(s2.fds, 60));
    assert calls[0] == Call(Resize(150), false) && calls[1..][0] == Call(Add(100, READ, t), false);
    assert calls[1..][1..] == [Call(Resize(60), false)];
    assert RunTo(s2, [Call(Resize(60), false)]) == Some(s3);
    assert RunTo(s0, calls) == RunTo(s1, calls[1..]);
    var none: Mask := {};
    assert none + {READ} == {READ};
    assert s1.fds[100] == UNUSED_FD && s2.kernel == map[100 := none + {READ}];
    assert 100 in s3.kernel;
  }
}
