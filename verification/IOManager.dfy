/** The I/O manager with its descriptor contexts on the heap, proved to take the steps of `EventSpec`. */
module IOManagers {
  import opened Options
  import opened EventSpec
  import opened EventRuns

  class FdContext {
    const fd: nat
    var events: Mask
    var read: Context
    var write: Context

    constructor (fd: nat)
      ensures this.fd == fd && Value() == UNUSED_FD
    {
      this.fd := fd;
      events, read, write := {}, EMPTY_CONTEXT, EMPTY_CONTEXT;
    }

    ghost function Value(): Fd
      reads this
    {
      Fd(events, read, write)
    }

    function GetContext(e: Event): (c: Context)
      reads this
      ensures c == Value().Get(e)
    {
      if e == READ then read else write
    }

    method SetContext(e: Event, c: Context)
      modifies this`read, this`write
      ensures Value() == old(Value()).Set(e, c)
    {
      if e == READ {
        read := c;
      } else {
        write := c;
      }
    }
  }

  class IOManager {
    var fdContexts: seq<FdContext>
    var pending: int
    /** The kernel's interest set. */
    var kernel: map<nat, Mask>
    /** What the schedulers were given, in order. */
    var scheduled: seq<Task>
    ghost var fds: seq<Fd>
    ghost var added: multiset<Task>
    ghost var dropped: multiset<Task>

    ghost predicate Valid()
      reads this, fdContexts
    {
      && |fdContexts| == |fds|
      && forall i :: 0 <= i < |fds| ==> fdContexts[i].fd == i && fdContexts[i].Value() == fds[i]
    }

    ghost function View(): State
      reads this
    {
      State(fds, pending, kernel, added, multiset(scheduled), dropped)
    }

    constructor ()
      ensures Valid() && forall c :: c in fdContexts ==> fresh(c)
      ensures View() == Fresh() && |fdContexts| == 32
      ensures forall i :: 0 <= i < 32 ==> fdContexts[i].fd == i && fdContexts[i].Value() == UNUSED_FD
    {
      fdContexts, fds := [], [];
      pending, kernel, scheduled, added, dropped := 0, map[], [], multiset{}, multiset{};
      new;
      ContextResize(32);
      assert fds == Fresh().fds;
    }

    /** Contexts up to index `n`, old ones kept; a smaller `n` drops the contexts behind it. */
    method ContextResize(n: nat)
      requires Valid()
      modifies this`fdContexts, this`fds
      ensures Valid()
      ensures fds == Resized(old(fds), n) && |fdContexts| == n
      ensures forall i :: 0 <= i < n && i < |old(fdContexts)| ==> fdContexts[i] == old(fdContexts)[i]
      ensures forall c :: c in fdContexts ==> c in old(fdContexts) || fresh(c)
    {
      if n < |fdContexts| {
        fdContexts, fds := fdContexts[..n], fds[..n];
      }
      while |fdContexts| < n
        invariant Valid() && |fds| <= n
        invariant fds == Resized(old(fds), |fds|) && (|fds| < n ==> |old(fds)| <= |fds|)
        invariant fdContexts[..if n < |old(fds)| then n else |old(fds)|] ==
                  old(fdContexts)[..if n < |old(fds)| then n else |old(fds)|]
        invariant forall c :: c in fdContexts ==> c in old(fdContexts) || fresh(c)
        decreases n - |fdContexts|
      {
        var c := new FdContext(|fdContexts|);
        fdContexts, fds := fdContexts + [c], fds + [UNUSED_FD];
      }
    }

    /** The system call; the interest set changes only on success. */
    method Ctl(op: CtlOp, fd: nat, mask: Mask, refuse: bool) returns (ok: bool)
      modifies this`kernel
      ensures var k := EpollCtl(old(kernel), op, fd, mask, refuse);
              ok == k.Some? && kernel == if ok then k.value else old(kernel)
    {
      var k := EpollCtl(kernel, op, fd, mask, refuse);
      ok := k.Some?;
      if ok {
        kernel := k.value;
      }
    }

    /** Stores the armed events of `fd` and one of its contexts. */
    method Install(fd: nat, mask: Mask, e: Event, ctx: Context)
      requires Valid() && fd < |fds|
      modifies this`fds, fdContexts[fd]
      ensures Valid() && fds == old(fds)[fd := old(fds)[fd].(events := mask).Set(e, ctx)]
    {
      var c := fdContexts[fd];
      c.events := mask;
      c.SetContext(e, ctx);
      fds := fds[fd := c.Value()];
    }

    /** Hands the continuation of an armed event to its scheduler. */
    method TriggerEvent(fd: nat, e: Event)
      requires Valid() && fd < |fds| && Trigger(View(), fd, e).Some?
      modifies this`pending, this`scheduled, this`fds, fdContexts[fd]
      ensures Valid() && View() == Trigger(old(View()), fd, e).value
      ensures scheduled == old(scheduled) + [Fire(old(fds)[fd].Get(e)).value]
    {
      var c := fdContexts[fd];
      var ctx := c.GetContext(e);
      scheduled := scheduled + [Fire(ctx).value];
      Install(fd, c.events - {e}, e, Spent(ctx));
      pending := pending - 1;
    }

    /** `seen` is the size that the call saw before it let the table's lock go. */
    method AddEvent(fd: nat, e: Event, t: Task, seen: nat, refuse: bool) returns (rt: int)
      requires Valid() && Inv(View()) && LegalRun(View(), AddCalls(fd, e, t, seen, refuse))
      modifies this, fdContexts
      ensures Valid() && Inv(View())
      ensures Some(View()) == RunTo(old(View()), AddCalls(fd, e, t, seen, refuse))
      ensures rt == if refuse then -1 else 0
      ensures |fds| == (if seen <= fd then fd * 3 / 2 else old(|fds|)) && fd < |fdContexts|
      ensures scheduled == old(scheduled) && dropped == old(dropped)
      ensures rt == 0 ==> && pending == old(pending) + 1 && added == old(added) + multiset{t}
                          && NowWaits(Reached(old(View()), fd, seen), View(), fd, e, t)
                          && Waits(fdContexts[fd].Value(), e, t)
      ensures rt == -1 ==> View() == Reached(old(View()), fd, seen)
    {
      AddRun(View(), fd, e, t, seen, refuse);
      AddKeeps(Reached(View(), fd, seen), fd, e, t, refuse);
      rt := AddEventStep(fd, e, t, seen, refuse);
    }

    method AddEventStep(fd: nat, e: Event, t: Task, seen: nat, refuse: bool) returns (rt: int)
      requires Valid() && AfterAdd(Reached(View(), fd, seen), fd, e, t, refuse).Some?
      modifies this, fdContexts
      ensures Valid() && Some(View()) == AfterAdd(Reached(old(View()), fd, seen), fd, e, t, refuse)
      ensures scheduled == old(scheduled)
      ensures rt == if pending == old(pending) + 1 then 0 else -1
    {
      Reach(fd, seen);
      assert fdContexts[fd] in fdContexts;
      rt := Arm(fd, e, t, refuse);
    }

    /** Resizes the table if the size seen does not reach `fd`. */
    method Reach(fd: nat, seen: nat)
      requires Valid()
      modifies this`fdContexts, this`fds
      ensures Valid() && View() == Reached(old(View()), fd, seen)
      ensures forall c :: c in fdContexts ==> c in old(fdContexts) || fresh(c)
    {
      if seen <= fd {
        ContextResize(fd * 3 / 2);
      }
    }

    /** The part of `AddEvent` under the lock of the descriptor. */
    method Arm(fd: nat, e: Event, t: Task, refuse: bool) returns (rt: int)
      requires Valid() && fd < |fdContexts| && AfterAdd(View(), fd, e, t, refuse).Some?
      modifies this`pending, this`kernel, this`fds, this`added, fdContexts[fd]
      ensures Valid() && Some(View()) == AfterAdd(old(View()), fd, e, t, refuse)
      ensures rt == if pending == old(pending) + 1 then 0 else -1
    {
      var c := fdContexts[fd];
      var op := if c.events != {} then MOD else ADD;
      var ok := Ctl(op, fd, c.events + {e}, refuse);
      if !ok {
        return -1;
      }
      pending := pending + 1;
      added := added + multiset{t};
      var ctx := match t.what
        case Callback(id) => Context(Some(t.scheduler), None, Some(id))
        case FiberOf(id) => Context(Some(t.scheduler), Some(id), None);
      Install(fd, c.events + {e}, e, ctx);
      rt := 0;
    }

    method DelEvent(fd: nat, e: Event, refuse: bool) returns (ok: bool)
      requires Valid() && Inv(View())
      modifies this, fdContexts
      ensures Valid() && Inv(View()) && Some(View()) == Apply(old(View()), Del(fd, e), refuse)
      ensures ok <==> fd < |old(fds)| && e in old(fds)[fd].events && !refuse
      ensures ok ==> && fds == old(fds)[fd := Quieted(old(fds)[fd], {e})] && pending == old(pending) - 1
                     && exists x :: Waits(old(fds)[fd], e, x) && dropped == old(dropped) + multiset{x}
      ensures scheduled == old(scheduled) && (!ok ==> View() == old(View()))
    {
      DelKeeps(View(), fd, e, refuse);
      ghost var s := View();
      ok := DelEventStep(fd, e, refuse);
      if ok {
        WaitsFires(s.fds[fd], e, Fire(s.fds[fd].Get(e)).value);
      }
    }

    method DelEventStep(fd: nat, e: Event, refuse: bool) returns (ok: bool)
      requires Valid() && Apply(View(), Del(fd, e), refuse).Some?
      modifies this, fdContexts
      ensures Valid() && Some(View()) == Apply(old(View()), Del(fd, e), refuse)
      ensures ok <==> pending == old(pending) - 1
      ensures scheduled == old(scheduled)
    {
      if |fdContexts| <= fd || e !in fdContexts[fd].events {
        return false;
      }
      var left := fdContexts[fd].events - {e};
      ok := Ctl(DelOp(left), fd, left, refuse);
      if !ok {
        return false;
      }
      pending := pending - 1;
      dropped := dropped + (match Fire(fds[fd].Get(e)) case None => multiset{} case Some(x) => multiset{x});
      Install(fd, left, e, EMPTY_CONTEXT);
    }

    method CancelEvent(fd: nat, e: Event, refuse: bool) returns (ok: bool)
      requires Valid() && Inv(View())
      modifies this, fdContexts
      ensures Valid() && Inv(View()) && Some(View()) == Apply(old(View()), Cancel(fd, e), refuse)
      ensures ok <==> fd < |old(fds)| && e in old(fds)[fd].events && !refuse
      ensures ok ==> && fds == old(fds)[fd := Quieted(old(fds)[fd], {e})] && pending == old(pending) - 1
                     && exists x :: Waits(old(fds)[fd], e, x) && scheduled == old(scheduled) + [x]
      ensures dropped == old(dropped) && (!ok ==> View() == old(View()))
    {
      CancelKeeps(View(), fd, e, refuse);
      ghost var s := View();
      ok := CancelEventStep(fd, e, refuse);
      if ok {
        WaitsFires(s.fds[fd], e, Fire(s.fds[fd].Get(e)).value);
      }
    }

    method CancelEventStep(fd: nat, e: Event, refuse: bool) returns (ok: bool)
      requires Valid() && Apply(View(), Cancel(fd, e), refuse).Some?
      modifies this, fdContexts
      ensures Valid() && Some(View()) == Apply(old(View()), Cancel(fd, e), refuse)
      ensures ok <==> pending == old(pending) - 1
      ensures ok ==> fd < |old(fds)| && Fire(old(fds)[fd].Get(e)).Some?
                     && scheduled == old(scheduled) + [Fire(old(fds)[fd].Get(e)).value]
    {
      if |fdContexts| <= fd || e !in fdContexts[fd].events {
        return false;
      }
      var left := fdContexts[fd].events - {e};
      ok := Ctl(DelOp(left), fd, left, refuse);
      if !ok {
        return false;
      }
      TriggerEvent(fd, e);
    }

    method TriggerEventIf(want: bool, fd: nat, e: Event)
      requires Valid() && fd < |fds| && TriggerIf(Some(View()), want, fd, e).Some?
      modifies this`pending, this`scheduled, this`fds, fdContexts[fd]
      ensures Valid() && Some(View()) == TriggerIf(Some(old(View())), want, fd, e)
      ensures scheduled == old(scheduled) + Fired(if e == READ then old(fds)[fd].read else old(fds)[fd].write, want)
    {
      if want {
        TriggerEvent(fd, e);
      }
    }

    /** The events `due`, the read event first. */
    method TriggerBoth(fd: nat, due: Mask)
      requires Valid() && fd < |fds|
      requires TriggerIf(TriggerIf(Some(View()), READ in due, fd, READ), WRITE in due, fd, WRITE).Some?
      modifies this`pending, this`scheduled, this`fds, fdContexts[fd]
      ensures Valid()
      ensures Some(View()) == TriggerIf(TriggerIf(Some(old(View())), READ in due, fd, READ), WRITE in due, fd, WRITE)
      ensures scheduled == old(scheduled) + FiredBy(old(fds)[fd], due)
    {
      WriterStays(View(), READ in due, fd);
      FiredInTurn(scheduled, fds[fd], due);
      TriggerEventIf(READ in due, fd, READ);
      TriggerEventIf(WRITE in due, fd, WRITE);
    }

    method CancelAll(fd: nat, refuse: bool) returns (ok: bool)
      requires Valid() && Inv(View())
      modifies this, fdContexts
      ensures Valid() && Inv(View()) && Some(View()) == Apply(old(View()), EventSpec.CancelAll(fd), refuse)
      ensures ok <==> fd < |old(fds)| && old(fds)[fd].events != {} && !refuse
      ensures ok ==> && fds == old(fds)[fd := UNUSED_FD] && pending == old(pending) - |old(fds)[fd].events|
                     && scheduled == old(scheduled) + FiredBy(old(fds)[fd], old(fds)[fd].events)
      ensures dropped == old(dropped) && (!ok ==> View() == old(View()))
    {
      CancelAllKeeps(View(), fd, refuse);
      ok := CancelAllStep(fd, refuse);
    }

    method CancelAllStep(fd: nat, refuse: bool) returns (ok: bool)
      requires Valid() && Apply(View(), EventSpec.CancelAll(fd), refuse).Some?
      modifies this, fdContexts
      ensures Valid() && Some(View()) == Apply(old(View()), EventSpec.CancelAll(fd), refuse)
      ensures ok <==> kernel != old(kernel)
      ensures ok ==> fd < |old(fds)| && scheduled == old(scheduled) + FiredBy(old(fds)[fd], old(fds)[fd].events)
    {
      if |fdContexts| <= fd || fdContexts[fd].events == {} {
        return false;
      }
      ok := Ctl(DEL, fd, {}, refuse);
      if !ok {
        return false;
      }
      TriggerBoth(fd, fdContexts[fd].events);
      assert fdContexts[fd].events == {};
    }

    /** One report in the loop of `idle`. */
    method DispatchReport(fd: nat, reported: Mask, failed: bool, refuse: bool)
      requires Valid() && Inv(View()) && Legal(View(), Dispatch(fd, reported, failed), refuse)
      modifies this`pending, this`scheduled, this`fds, this`kernel, fdContexts
      ensures Valid() && Inv(View()) && Some(View()) == Apply(old(View()), Dispatch(fd, reported, failed), refuse)
      ensures refuse || fd >= |old(fds)| ==> View() == old(View()) && scheduled == old(scheduled)
      ensures !refuse && fd < |old(fds)| ==>
                var armed := old(fds)[fd].events;
                && fd < |fdContexts|
                && (failed ==> fdContexts[fd].events == {} && pending == old(pending) - |armed|)
                && (!failed ==> && fdContexts[fd].events == armed - reported
                                && pending == old(pending) - |armed * reported|)
                && scheduled == old(scheduled) + FiredBy(old(fds)[fd], if failed then armed else armed * reported)
    {
      DispatchLeaves(View(), fd, reported, failed, refuse);
      ghost var done := DispatchReportStep(fd, reported, failed, refuse);
    }

    method DispatchReportStep(fd: nat, reported: Mask, failed: bool, refuse: bool) returns (ghost done: bool)
      requires Valid() && Apply(View(), Dispatch(fd, reported, failed), refuse).Some?
      modifies this`pending, this`scheduled, this`fds, this`kernel, fdContexts
      ensures Valid() && Some(View()) == Apply(old(View()), Dispatch(fd, reported, failed), refuse)
      ensures !done ==> View() == old(View()) && scheduled == old(scheduled)
      ensures done ==> && fd < |old(fds)| && !refuse && Real(old(fds)[fd], reported, failed) * old(fds)[fd].events != {}
                       && scheduled == old(scheduled) + FiredBy(old(fds)[fd], Real(old(fds)[fd], reported, failed))
    {
      done := false;
      if |fdContexts| <= fd {
        return;
      }
      var armed := fdContexts[fd].events;
      var due := reported;
      if failed {
        due := due + armed;
      }
      if armed * due == {} {
        return;
      }
      var left := armed - due;
      var ok := Ctl(DelOp(left), fd, left, refuse);
      if !ok {
        return;
      }
      TriggerBoth(fd, due);
      done := true;
    }

    /** The dispatch loop of `idle` over the reports of one wait; a report on the wake-up pipe is passed over. */
    method DispatchAll(reports: seq<Report>)
      requires Valid() && Inv(View()) && LegalRun(View(), Dispatches(reports))
      modifies this`pending, this`scheduled, this`fds, this`kernel, fdContexts
      ensures Valid() && Inv(View()) && Some(View()) == RunTo(old(View()), Dispatches(reports))
    {
      var rest := reports;
      while |rest| > 0
        invariant Valid() && Inv(View()) && LegalRun(View(), Dispatches(rest))
        invariant RunTo(View(), Dispatches(rest)) == RunTo(old(View()), Dispatches(reports))
      {
        match rest[0] {
          case Tickled =>
          case Ready(fd, reported, failed, refuse) =>
            assert Dispatches(rest)[1..] == Dispatches(rest[1..]);
            DispatchReport(fd, reported, failed, refuse);
        }
        rest := rest[1..];
      }
    }
  }

  datatype Report = Tickled | Ready(fd: nat, reported: Mask, failed: bool, refuse: bool)

  /** The table's steps for a list of reports. */
  function Dispatches(reports: seq<Report>): seq<Call> {
    if reports == [] then []
    else
      match reports[0]
      case Tickled => Dispatches(reports[1..])
      case Ready(fd, reported, failed, refuse) =>
        [Call(Dispatch(fd, reported, failed), refuse)] + Dispatches(reports[1..])
  }
}
