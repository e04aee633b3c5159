/** Two runs in which the workers of an I/O manager leave while an event is armed. */
module IoStranded {
  import opened Options
  import opened SchedulerSpec
  import opened SchedulerRuns
  import opened IoShutdown

  // ---------- reaching a state

  /** Some run leads from `a` to `b`; a quiet one without a yield as READY. */
  ghost predicate Reaches(a: Io, b: Io, quiet: bool) {
    exists steps :: IoEnabledRun(a, steps) && IoRunTo(a, steps) == b && (quiet ==> NoYields(steps))
  }

  lemma ReachesBy(a: Io, step: IoStep, quiet: bool)
    requires IoEnabled(a, step) && !(quiet && step.Plain? && step.step.YieldReady?)
    ensures Reaches(a, IoApply(a, step), quiet)
  {
    var b := IoApply(a, step);
    assert [step][1..] == [];
    assert IoEnabledRun(b, []) && IoRunTo(b, []) == b;
    assert IoEnabledRun(a, [step]) && IoRunTo(a, [step]) == b;
  }

  lemma {:induction false} RunJoin(a: Io, p: seq<IoStep>, q: seq<IoStep>)
    requires IoEnabledRun(a, p) && IoEnabledRun(IoRunTo(a, p), q)
    ensures IoEnabledRun(a, p + q) && IoRunTo(a, p + q) == IoRunTo(IoRunTo(a, p), q)
    decreases |p|
  {
    if p == [] {
      assert p + q == q;
    } else {
      assert (p + q)[1..] == p[1..] + q;
      RunJoin(IoApply(a, p[0]), p[1..], q);
    }
  }

  lemma ReachesOn(a: Io, b: Io, c: Io, quiet: bool)
    requires Reaches(a, b, quiet) && Reaches(b, c, quiet)
    ensures Reaches(a, c, quiet)
  {
    var p :| IoEnabledRun(a, p) && IoRunTo(a, p) == b && (quiet ==> NoYields(p));
    var q :| IoEnabledRun(b, q) && IoRunTo(b, q) == c && (quiet ==> NoYields(q));
    RunJoin(a, p, q);
    assert quiet ==> NoYields(p + q);
  }

  lemma ReachesNext(a: Io, b: Io, step: IoStep, quiet: bool)
    requires Reaches(a, b, quiet) && IoEnabled(b, step) && !(quiet && step.Plain? && step.step.YieldReady?)
    ensures Reaches(a, IoApply(b, step), quiet)
  {
    ReachesBy(b, step, quiet);
    ReachesOn(a, b, IoApply(b, step), quiet);
  }

  // ---------- one fiber on two workers

  /** No worker is between its read and its check. */
  function Calm(s: State, armed: multiset<Work>): Io { Io(s, armed, {}) }

  function Lone(f: nat): Entry { Entry(OfFiber(f), -1) }

  /** After `stop`, with fiber `f` alone in the queue and the workers `v` and `w` about to scan. */
  ghost predicate Alone(s: State, v: nat, w: nat, f: nat) {
    && Shape(s) && v < |s.pcs| && w < |s.pcs| && v != w && s.pcs[v].Scan? && s.pcs[w].Scan?
    && s.queue == [Lone(f)] && f in s.fibers && !Dead(s.fibers[f].state) && s.fibers[f].state != EXEC
    && s.active == 0 && s.autoStop && s.stopping
  }

  /** Worker `v` has taken the fiber and runs it. */
  function Ran(s: State, v: nat, f: nat): State
    requires v < |s.pcs|
  {
    s.(queue := [], pcs := s.pcs[v := Running(f, false)], active := 1, taken := s.taken + multiset{Lone(f)},
       fibers := s.fibers[f := Fiber(EXEC, false, Worker(v), NoTicket)])
  }

  lemma ToRan(s: State, v: nat, w: nat, f: nat, made: nat, quiet: bool)
    requires Alone(s, v, w, f) && made !in s.fibers
    ensures Reaches(Calm(s, multiset{}), Calm(Ran(s, v, f), multiset{}), quiet)
  {
    var none: multiset<Work> := multiset{};
    assert Eligible(s, v, s.queue[0]);
    assert ScanFrom(s, v, 0) == 0;
    assert s.queue[..0] + s.queue[1..] == [];
    var t := s.(queue := [], pcs := s.pcs[v := Took(Lone(f))], active := 1, taken := s.taken + multiset{Lone(f)},
                fibers := s.fibers[f := s.fibers[f].(ticket := InHand(v))]);
    assert Apply(s, DoScan(v)) == t;
    ReachesBy(Calm(s, none), Plain(DoScan(v)), quiet);
    var b := Fiber(EXEC, false, Worker(v), NoTicket);
    assert t.pcs[v := Running(f, false)] == s.pcs[v := Running(f, false)] && t.fibers[f := b] == s.fibers[f := b];
    assert Apply(t, Resume(v, made)) == Ran(s, v, f);
    ReachesNext(Calm(s, none), Calm(t, none), Plain(Resume(v, made)), quiet);
  }

  /** The fiber has left the processor in state `st`, and worker `v` has counted it out. */
  function Out(s: State, v: nat, f: nat, st: FiberState): State
    requires v < |s.pcs|
  {
    s.(queue := [], pcs := s.pcs[v := Counted(f, false)], taken := s.taken + multiset{Lone(f)},
       fibers := s.fibers[f := Fiber(st, true, Worker(v), NoTicket)])
  }

  lemma ToOut(s: State, io: Io, v: nat, f: nat, st: FiberState, quiet: bool)
    requires v < |s.pcs| && s.active == 0 && (st == EXEC || st == READY)
    requires io.s == Ran(s, v, f).(pcs := s.pcs[v := if st == READY then Leaving(f, false) else Running(f, false)],
                                   fibers := s.fibers[f := Fiber(st, false, Worker(v), NoTicket)])
    ensures Reaches(io, io.(s := Out(s, v, f, st)), quiet)
  {
    OutIs(s, io.s, v, f, st);
    ReachesBy(io, Plain(SwapOut(v)), quiet);
    ReachesNext(io, io.(s := Apply(io.s, SwapOut(v))), Plain(Decrement(v)), quiet);
  }

  lemma OutIs(s: State, t: State, v: nat, f: nat, st: FiberState)
    requires v < |s.pcs| && s.active == 0 && (st == EXEC || st == READY)
    requires t == Ran(s, v, f).(pcs := s.pcs[v := if st == READY then Leaving(f, false) else Running(f, false)],
                                fibers := s.fibers[f := Fiber(st, false, Worker(v), NoTicket)])
    ensures Apply(Apply(t, SwapOut(v)), Decrement(v)) == Out(s, v, f, st)
  {
    var b := Fiber(st, true, Worker(v), NoTicket);
    OutAndCounted(t, v, f);
    assert t.pcs[v := Counted(f, false)] == s.pcs[v := Counted(f, false)] && t.fibers[f := b] == s.fibers[f := b];
  }

  /** Worker `w` finds nothing, reads a count of zero, and the check says yes: its idle fiber ends. */
  lemma IdleEnds(s: State, w: nat)
    requires Shape(s) && w < |s.pcs| && s.pcs[w].Scan? && !s.idleDone[w] && Stopping(s)
    ensures Reaches(Calm(s, multiset{}), Calm(s.(idleDone := s.idleDone[w := true]), multiset{}), false)
  {
    var none: multiset<Work> := multiset{};
    var t := SetPc(s, w, NoTask);
    assert Apply(s, DoScan(w)) == t;
    ReachesBy(Calm(s, none), Plain(DoScan(w)), false);
    ReachesNext(Calm(s, none), Calm(t, none), Look(w), false);
    assert t.pcs[w := Scan] == s.pcs;
    assert Apply(t, IdleCheck(w, false)) == s.(idleDone := s.idleDone[w := true]);
    assert {w} - {w} == {};
    ReachesNext(Calm(s, none), Io(t, none, {} + {w}), Plain(IdleCheck(w, false)), false);
  }

  // ---------- the gap of a READY fiber

  /** The fiber yields as READY once more, and meanwhile the idle fiber of `w` has ended. */
  function Tricked(s: State, w: nat, f: nat): State
    requires w < |s.idleDone|
  {
    s.(idleDone := s.idleDone[w := true], fibers := s.fibers[f := Fiber(READY, true, Nobody, Queued)],
       scheduled := s.scheduled + multiset{Lone(f)}, taken := s.taken + multiset{Lone(f)})
  }

  lemma Requeued(s: State, v: nat, f: nat)
    requires Shape(s) && v < |s.pcs| && s.pcs[v].Scan? && s.queue == [Lone(f)]
    ensures Apply(Out(s, v, f, READY), Settle(v)) ==
            s.(fibers := s.fibers[f := Fiber(READY, true, Nobody, Queued)],
               scheduled := s.scheduled + multiset{Lone(f)}, taken := s.taken + multiset{Lone(f)})
  {
    var t := Out(s, v, f, READY);
    assert t.pcs[v := Scan] == s.pcs;
    assert [] + [Lone(f)] == s.queue;
    assert t.fibers[f := Fiber(READY, true, Nobody, NoTicket)][f := Fiber(READY, true, Nobody, Queued)] ==
           s.fibers[f := Fiber(READY, true, Nobody, Queued)];
  }

  /** The fiber runs and yields as READY; its worker has counted it out. */
  lemma ToWindow(s: State, v: nat, w: nat, f: nat, made: nat)
    requires Alone(s, v, w, f) && made !in s.fibers
    ensures Reaches(Calm(s, multiset{}), Calm(Out(s, v, f, READY), multiset{}), false)
  {
    var none: multiset<Work> := multiset{};
    ToRan(s, v, w, f, made, false);
    var r, b := Ran(s, v, f), Fiber(READY, false, Worker(v), NoTicket);
    var t := r.(pcs := s.pcs[v := Leaving(f, false)], fibers := s.fibers[f := b]);
    assert r.pcs[v := Leaving(f, false)] == t.pcs && r.fibers[f := b] == t.fibers;
    assert Apply(r, YieldReady(v)) == t;
    ReachesNext(Calm(s, none), Calm(r, none), Plain(YieldReady(v)), false);
    ToOut(s, Calm(t, none), v, f, READY, false);
    ReachesOn(Calm(s, none), Calm(t, none), Calm(Out(s, v, f, READY), none), false);
  }

  /** In that gap the idle fiber of `w` ends, and then the fiber is put back. */
  lemma InWindow(s: State, v: nat, w: nat, f: nat)
    requires Alone(s, v, w, f) && !s.idleDone[w]
    ensures Reaches(Calm(Out(s, v, f, READY), multiset{}), Calm(Tricked(s, w, f), multiset{}), false)
  {
    var none: multiset<Work> := multiset{};
    var o, s' := Out(s, v, f, READY), s.(idleDone := s.idleDone[w := true]);
    IdleEnds(o, w);
    assert o.(idleDone := s.idleDone[w := true]) == Out(s', v, f, READY);
    Requeued(s', v, f);
    ReachesNext(Calm(o, none), Calm(Out(s', v, f, READY), none), Plain(Settle(v)), false);
  }

  lemma Trick(s: State, v: nat, w: nat, f: nat, made: nat)
    requires Alone(s, v, w, f) && made !in s.fibers && !s.idleDone[w]
    ensures Reaches(Calm(s, multiset{}), Calm(Tricked(s, w, f), multiset{}), false) && Alone(Tricked(s, w, f), v, w, f)
  {
    ToWindow(s, v, w, f, made);
    InWindow(s, v, w, f);
    ReachesOn(Calm(s, multiset{}), Calm(Out(s, v, f, READY), multiset{}), Calm(Tricked(s, w, f), multiset{}), false);
  }

  /** The fiber waits for its event. */
  function Waiting(s: State, f: nat): State {
    s.(queue := [], taken := s.taken + multiset{Lone(f)}, fibers := s.fibers[f := Fiber(HOLD, true, Nobody, NoTicket)])
  }

  lemma Held(s: State, armed: multiset<Work>, v: nat, f: nat, quiet: bool)
    requires Shape(s) && v < |s.pcs| && s.pcs[v].Scan?
    ensures Reaches(Calm(Out(s, v, f, EXEC), armed), Calm(Waiting(s, f), armed), quiet)
  {
    var o, b := Out(s, v, f, EXEC), Fiber(HOLD, true, Nobody, NoTicket);
    assert o.pcs[v := Scan] == s.pcs && o.fibers[f := b] == s.fibers[f := b];
    assert Apply(o, Settle(v)) == Waiting(s, f);
    ReachesBy(Calm(o, armed), Plain(Settle(v)), quiet);
  }

  lemma ArmsAndWaits(s: State, v: nat, w: nat, f: nat, made: nat)
    requires Alone(s, v, w, f) && made !in s.fibers
    ensures Reaches(Calm(s, multiset{}), Calm(Waiting(s, f), multiset{OfFiber(f)}), false)
  {
    var none: multiset<Work> := multiset{};
    var one := multiset{OfFiber(f)};
    ToRan(s, v, w, f, made, false);
    var r, o := Ran(s, v, f), Out(s, v, f, EXEC);
    assert none + one == one;
    ReachesNext(Calm(s, none), Calm(r, none), Arm(Some(v), OfFiber(f)), false);
    ToOut(s, Calm(r, one), v, f, EXEC, false);
    ReachesOn(Calm(s, none), Calm(r, one), Calm(o, one), false);
    Held(s, one, v, f, false);
    ReachesOn(Calm(s, none), Calm(o, one), Calm(Waiting(s, f), one), false);
  }

  // ---------- the gap between the read and the check

  /** Worker `w` has found nothing while the fiber runs, and reads zero; then the fiber arms an event. */
  lemma ReadThenArmed(s: State, v: nat, w: nat, f: nat, made: nat)
    requires Alone(s, v, w, f) && made !in s.fibers && !s.idleDone[w]
    ensures var n := s.(pcs := s.pcs[w := NoTask]);
            Reaches(Calm(s, multiset{}), Io(Ran(n, v, f), multiset{OfFiber(f)}, {w}), true)
  {
    var none: multiset<Work> := multiset{};
    var one := multiset{OfFiber(f)};
    var r, n := Ran(s, v, f), s.(pcs := s.pcs[w := NoTask]);
    ToRan(s, v, w, f, made, true);
    assert r.pcs[w := NoTask] == n.pcs[v := Running(f, false)];
    assert Apply(r, DoScan(w)) == Ran(n, v, f);
    ReachesNext(Calm(s, none), Calm(r, none), Plain(DoScan(w)), true);
    assert {} + {w} == {w} && none + one == one;
    ReachesNext(Calm(s, none), Calm(Ran(n, v, f), none), Look(w), true);
    ReachesNext(Calm(s, none), Io(Ran(n, v, f), none, {w}), Arm(Some(v), OfFiber(f)), true);
  }

  /** The fiber is counted out, and the check of `w` says yes although an event is armed. */
  lemma CheckOnOldRead(s: State, v: nat, w: nat, f: nat)
    requires Alone(s, v, w, f) && !s.idleDone[w]
    ensures var n, e := s.(pcs := s.pcs[w := NoTask]), s.(idleDone := s.idleDone[w := true]);
            Reaches(Io(Ran(n, v, f), multiset{OfFiber(f)}, {w}), Calm(Waiting(e, f), multiset{OfFiber(f)}), true)
  {
    var one := multiset{OfFiber(f)};
    var n, e := s.(pcs := s.pcs[w := NoTask]), s.(idleDone := s.idleDone[w := true]);
    var start := Io(Ran(n, v, f), one, {w});
    ToOut(n, start, v, f, EXEC, true);
    var o := Out(n, v, f, EXEC);
    assert o.pcs[w := Scan] == e.pcs[v := Counted(f, false)];
    assert Apply(o, IdleCheck(w, false)) == Out(e, v, f, EXEC);
    assert {w} - {w} == {};
    ReachesNext(start, Io(o, one, {w}), Plain(IdleCheck(w, false)), true);
    Held(e, one, v, f, true);
    ReachesOn(start, Calm(Out(e, v, f, EXEC), one), Calm(Waiting(e, f), one), true);
  }

  /** The idle fiber of `w` has ended, and the fiber waits for its event. */
  lemma OldRead(s: State, v: nat, w: nat, f: nat, made: nat)
    requires Alone(s, v, w, f) && made !in s.fibers && !s.idleDone[w]
    ensures Reaches(Calm(s, multiset{}),
                    Calm(Waiting(s.(idleDone := s.idleDone[w := true]), f), multiset{OfFiber(f)}), true)
  {
    ReadThenArmed(s, v, w, f, made);
    CheckOnOldRead(s, v, w, f);
    var n, e := s.(pcs := s.pcs[w := NoTask]), s.(idleDone := s.idleDone[w := true]);
    ReachesOn(Calm(s, multiset{}), Io(Ran(n, v, f), multiset{OfFiber(f)}, {w}),
              Calm(Waiting(e, f), multiset{OfFiber(f)}), true);
  }

  /** The fiber is back in the queue. */
  function Woken(s: State, f: nat): State {
    s.(queue := [Lone(f)], fibers := s.fibers[f := Fiber(HOLD, true, Nobody, Queued)],
       scheduled := s.scheduled + multiset{Lone(f)})
  }

  /** Worker `v` finds nothing, reads a count that is not zero, and waits for events. */
  lemma Idles(s: State, armed: multiset<Work>, v: nat)
    requires Shape(s) && v < |s.pcs| && s.pcs[v].Scan? && !s.idleDone[v] && s.queue == []
    ensures Reaches(Calm(s, armed), Calm(SetPc(s, v, Idling), armed), true)
  {
    var t := SetPc(s, v, NoTask);
    assert Apply(s, DoScan(v)) == t;
    ReachesBy(Calm(s, armed), Plain(DoScan(v)), true);
    assert t.pcs[v := Idling] == SetPc(s, v, Idling).pcs;
    assert Apply(t, IdleCheck(v, true)) == SetPc(s, v, Idling);
    ReachesNext(Calm(s, armed), Calm(t, armed), Plain(IdleCheck(v, true)), true);
  }

  lemma EnqueuedLone(s: State, f: nat)
    requires s.queue == [] && f in s.fibers && s.fibers[f] == Fiber(HOLD, true, Nobody, NoTicket)
    ensures Enqueue(s, Lone(f)) == Woken(s, f) && MayEnqueue(s, Lone(f))
  {
    assert [] + [Lone(f)] == [Lone(f)];
  }

  /** Worker `v` idles, dispatches the event and goes on. */
  lemma Dispatched(s: State, v: nat, f: nat)
    requires Shape(s) && v < |s.pcs| && s.pcs[v].Scan? && !s.idleDone[v] && s.queue == []
    requires f in s.fibers && s.fibers[f] == Fiber(HOLD, true, Nobody, NoTicket)
    ensures Reaches(Calm(s, multiset{OfFiber(f)}), Calm(Woken(s, f), multiset{}), true)
  {
    var none: multiset<Work> := multiset{};
    var one := multiset{OfFiber(f)};
    var i := SetPc(s, v, Idling);
    Idles(s, one, v);
    EnqueuedLone(i, f);
    assert one - one == none;
    ReachesNext(Calm(s, one), Calm(i, one), Trigger(Some(v), OfFiber(f)), true);
    assert i.pcs[v := Scan] == s.pcs;
    assert Apply(Woken(i, f), Wake(v)) == Woken(s, f);
    ReachesNext(Calm(s, one), Calm(Woken(i, f), none), Plain(Wake(v)), true);
  }

  // ---------- both runs

  lemma Leaves(s: State, armed: multiset<Work>, w: nat, quiet: bool)
    requires Shape(s) && w < |s.pcs| && s.pcs[w].Scan? && s.idleDone[w] && s.queue == []
    ensures Reaches(Calm(s, armed), Calm(s.(pcs := s.pcs[w := Left]), armed), quiet)
  {
    var t := SetPc(s, w, NoTask);
    assert Apply(s, DoScan(w)) == t;
    ReachesBy(Calm(s, armed), Plain(DoScan(w)), quiet);
    assert t.pcs[w := Left] == s.pcs[w := Left];
    ReachesNext(Calm(s, armed), Calm(t, armed), Plain(Leave(w)), quiet);
  }

  /** Two workers whose idle fibers have ended leave. */
  lemma BothLeave(s: State, armed: multiset<Work>, quiet: bool) returns (e: Io)
    requires Shape(s) && |s.pcs| == 2 && s.pcs[0].Scan? && s.pcs[1].Scan? && s.idleDone[0] && s.idleDone[1]
    requires s.queue == []
    ensures Reaches(Calm(s, armed), e, quiet) && AllLeft(e.s) && e.armed == armed
  {
    Leaves(s, armed, 0, quiet);
    var t := s.(pcs := s.pcs[0 := Left]);
    Leaves(t, armed, 1, quiet);
    e := Calm(t.(pcs := t.pcs[1 := Left]), armed);
    ReachesOn(Calm(s, armed), Calm(t, armed), e, quiet);
  }

  function TwoWorkers(): State {
    State([], map[], [Scan, Scan], [None, None], [false, false], 0, false, false, multiset{}, multiset{})
  }

  function Start(): Io { Calm(TwoWorkers(), multiset{}) }

  /** One fiber scheduled and then `stop`. */
  function Stopped(): State {
    TwoWorkers().(queue := [Lone(1)], fibers := map[1 := Fiber(INIT, true, Nobody, Queued)],
                  autoStop := true, stopping := true, scheduled := multiset{Lone(1)})
  }

  lemma ToStopped(quiet: bool)
    ensures Reaches(Start(), Calm(Stopped(), multiset{}), quiet)
  {
    var none: multiset<Work> := multiset{};
    var b := TwoWorkers().(fibers := map[1 := Fiber(INIT, true, Nobody, NoTicket)]);
    var c := Stopped().(autoStop := false, stopping := false);
    assert Apply(TwoWorkers(), NewFiber(1)) == b;
    ReachesBy(Start(), Plain(NewFiber(1)), quiet);
    ScheduledLone(b, c);
    ReachesNext(Start(), Calm(b, none), Plain(ScheduleOutside(Lone(1))), quiet);
    ReachesNext(Start(), Calm(c, none), Plain(SetAutoStop), quiet);
    ReachesNext(Start(), Calm(c.(autoStop := true), none), Plain(SetStopping), quiet);
  }

  lemma ScheduledLone(b: State, c: State)
    requires b == TwoWorkers().(fibers := map[1 := Fiber(INIT, true, Nobody, NoTicket)])
    requires c == Stopped().(autoStop := false, stopping := false)
    ensures Enabled(b, ScheduleOutside(Lone(1))) && Apply(b, ScheduleOutside(Lone(1))) == c
  {
    assert b.fibers[1 := Fiber(INIT, true, Nobody, Queued)] == c.fibers;
    assert b.queue + [Lone(1)] == c.queue && b.scheduled + multiset{Lone(1)} == c.scheduled;
  }

  /** After two yields as READY both idle fibers have ended and the fiber is queued again. */
  function BothIdle(): State { Tricked(Tricked(Stopped(), 1, 1), 0, 1) }

  lemma ToBothIdle()
    ensures Reaches(Start(), Calm(BothIdle(), multiset{}), false)
  {
    var none: multiset<Work> := multiset{};
    var b := Tricked(Stopped(), 1, 1);
    ToStopped(false);
    Trick(Stopped(), 0, 1, 1, 9);
    ReachesOn(Start(), Calm(Stopped(), none), Calm(b, none), false);
    Trick(b, 1, 0, 1, 9);
    ReachesOn(Start(), Calm(b, none), Calm(BothIdle(), none), false);
  }

  /**
   A fiber that yields as READY twice: in the two gaps both idle fibers end. Then the
   fiber arms an event and waits, and both workers leave.
   */
  lemma ReadyFiberLeavesEvent() returns (e: Io)
    ensures IoInit(Start()) && Reaches(Start(), e, false) && AllLeft(e.s) && e.armed == multiset{OfFiber(1)}
  {
    var one, d := multiset{OfFiber(1)}, Waiting(BothIdle(), 1);
    ToBothIdle();
    ArmsAndWaits(BothIdle(), 1, 0, 1, 9);
    ReachesOn(Start(), Calm(BothIdle(), multiset{}), Calm(d, one), false);
    e := BothLeave(d, one, false);
    ReachesOn(Start(), Calm(d, one), e, false);
  }

  /** After the first old read: the idle fiber of worker 1 has ended and the fiber is queued again. */
  function Halfway(): State {
    Woken(Waiting(Stopped().(idleDone := Stopped().idleDone[1 := true]), 1), 1)
  }

  lemma ToHalfway()
    ensures Reaches(Start(), Calm(Halfway(), multiset{}), true)
  {
    var a := Waiting(Stopped().(idleDone := Stopped().idleDone[1 := true]), 1);
    ToStopped(true);
    OldRead(Stopped(), 0, 1, 1, 9);
    ReachesOn(Start(), Calm(Stopped(), multiset{}), Calm(a, multiset{OfFiber(1)}), true);
    Dispatched(a, 0, 1);
    ReachesOn(Start(), Calm(a, multiset{OfFiber(1)}), Calm(Halfway(), multiset{}), true);
  }

  /**
   Without any yield as READY: worker 1 reads zero before the fiber arms its event and
   checks after it was counted out. Worker 0 dispatches the event. Then the same happens
   to worker 0, and both leave while the second event is armed.
   */
  lemma OldReadLeavesEvent() returns (e: Io)
    ensures IoInit(Start()) && Reaches(Start(), e, true) && AllLeft(e.s) && e.armed == multiset{OfFiber(1)}
  {
    var one := multiset{OfFiber(1)};
    ToHalfway();
    OldRead(Halfway(), 1, 0, 1, 9);
    var c := Waiting(Halfway().(idleDone := Halfway().idleDone[0 := true]), 1);
    ReachesOn(Start(), Calm(Halfway(), multiset{}), Calm(c, one), true);
    e := BothLeave(c, one, true);
    ReachesOn(Start(), Calm(c, one), e, true);
  }
}
