/**
 The parts of the scheduler that loop over its queue under the lock, on the queue as a
 field, proved to take the steps of `SchedulerSpec`.
 */
module Schedulers {
  import opened Options
  import opened SchedulerSpec
  import opened SchedulerRuns

  class Scheduler {
    var queue: seq<Entry>
    var fibers: map<nat, Fiber>
    var active: int
    var autoStop: bool
    var stopping: bool
    ghost var pcs: seq<Pc>
    ghost var cbFibers: seq<Option<nat>>
    ghost var idleDone: seq<bool>
    ghost var scheduled: multiset<Entry>
    ghost var taken: multiset<Entry>

    ghost function View(): State
      reads this
    {
      State(queue, fibers, pcs, cbFibers, idleDone, active, autoStop, stopping, scheduled, taken)
    }

    /** Workers that are not started yet, and nothing to do. */
    constructor (workers: nat)
      requires workers > 0
      ensures Init(View()) && !autoStop && stopping && |pcs| == workers
    {
      queue, fibers, active, autoStop, stopping := [], map[], 0, false, true;
      pcs := seq(workers, i => NotStarted);
      cbFibers := seq(workers, i => None);
      idleDone := seq(workers, i => false);
      scheduled, taken := multiset{}, multiset{};
    }

    /** Appends an entry unless it is empty; whether the queue was empty before. */
    method ScheduleNoLock(work: Option<Work>, thread: int) returns (needTickle: bool)
      modifies this`queue, this`fibers, this`scheduled
      ensures needTickle <==> old(queue) == []
      ensures queue == old(queue) + (if work.Some? then [Entry(work.value, thread)] else [])
      ensures View() == if work.Some? then Enqueue(old(View()), Entry(work.value, thread)) else old(View())
    {
      needTickle := queue == [];
      if work.Some? {
        var e := Entry(work.value, thread);
        queue := queue + [e];
        scheduled := scheduled + multiset{e};
        if e.work.OfFiber? && e.work.id in fibers {
          fibers := fibers[e.work.id := fibers[e.work.id].(ticket := Queued)];
        }
      }
    }

    /** Moves a batch of tasks into the queue, in order, and leaves the caller's slots empty. */
    method ScheduleBatch(batch: array<Option<Work>>) returns (needTickle: bool)
      modifies this`queue, this`fibers, this`scheduled, batch
      ensures View() == EnqueueAll(old(View()), old(batch[..]))
      ensures queue == old(queue) + BatchEntries(old(batch[..]))
      ensures forall i :: 0 <= i < batch.Length ==> batch[i] == None
      ensures needTickle <==> batch.Length > 0 && old(queue) == []
    {
      BatchQueue(View(), batch[..]);
      needTickle := false;
      var i := 0;
      assert batch[0..] == batch[..];
      while i < batch.Length
        invariant 0 <= i <= batch.Length
        invariant EnqueueAll(View(), batch[i..]) == EnqueueAll(old(View()), old(batch[..]))
        invariant forall j :: 0 <= j < i ==> batch[j] == None
        invariant forall j :: i <= j < batch.Length ==> batch[j] == old(batch[j])
        invariant needTickle <==> i > 0 && old(queue) == []
        invariant old(queue) != [] ==> queue != []
        invariant i == 0 ==> queue == old(queue)
      {
        assert batch[i..][1..] == batch[i + 1..];
        var work := batch[i];
        ghost var rest := batch[i + 1..];
        batch[i] := None;
        assert batch[i + 1..] == rest;
        var tickle := ScheduleNoLock(work, -1);
        needTickle := tickle || needTickle;
        i := i + 1;
      }
    }

    /** The scan of `run`; entries bound to other threads ask for a wake-up. */
    method FindEntry(w: nat) returns (k: nat, tickleMe: bool)
      ensures k == ScanFrom(View(), w, 0)
      ensures k < |queue| ==> queue[k].thread == -1 || queue[k].thread == w
      ensures k < |queue| ==> !FiberRuns(queue[k])
      ensures forall j :: 0 <= j < k ==> (queue[j].thread != -1 && queue[j].thread != w) || FiberRuns(queue[j])
      ensures tickleMe <==> SkipsBound(queue, w, k)
    {
      tickleMe := false;
      k := 0;
      while k < |queue|
        invariant k <= |queue| && ScanFrom(View(), w, 0) == ScanFrom(View(), w, k)
        invariant forall j :: 0 <= j < k ==> (queue[j].thread != -1 && queue[j].thread != w) || FiberRuns(queue[j])
        invariant tickleMe <==> SkipsBound(queue, w, k)
      {
        var e := queue[k];
        if e.thread != -1 && e.thread != w {
          k := k + 1;
          tickleMe := true;
          continue;
        }
        if e.work.OfFiber? && e.work.id in fibers && fibers[e.work.id].state == EXEC {
          k := k + 1;
          continue;
        }
        return;
      }
    }

    /** The entry is that of a fiber in state EXEC. */
    ghost predicate FiberRuns(e: Entry)
      reads this`fibers
    {
      e.work.OfFiber? && e.work.id in fibers && fibers[e.work.id].state == EXEC
    }

    /**
     Takes the first entry that is bound to no other thread and whose fiber is not
     executing; the others keep their order.
     */
    method TakeNext(w: nat) returns (entry: Option<Entry>, tickleMe: bool, ghost k: nat)
      requires w < |pcs|
      modifies this`queue, this`fibers, this`active, this`pcs, this`taken
      ensures View() == Apply(old(View()), DoScan(w))
      ensures k <= |old(queue)| && (entry.Some? <==> k < |old(queue)|)
      ensures entry.Some? ==> entry.value == old(queue)[k] && queue == old(queue)[..k] + old(queue)[k + 1..]
      ensures entry.Some? ==> (entry.value.thread == -1 || entry.value.thread == w) && !old(FiberRuns(queue[k]))
      ensures entry == None ==> queue == old(queue)
      ensures forall j :: 0 <= j < k ==>
                (old(queue)[j].thread != -1 && old(queue)[j].thread != w) || old(FiberRuns(queue[j]))
      ensures active == old(active) + (if entry.Some? then 1 else 0)
      ensures pcs == old(pcs)[w := if entry.Some? then Took(entry.value) else NoTask]
      ensures tickleMe <==> SkipsBound(old(queue), w, k)
    {
      var i: nat;
      i, tickleMe := FindEntry(w);
      k := i;
      if i == |queue| {
        pcs := pcs[w := NoTask];
        return None, tickleMe, k;
      }
      var e := Erase(i, w);
      entry := Some(e);
    }

    /** Moves entry `k` from the queue into the hands of worker `w`. */
    method Erase(k: nat, w: nat) returns (e: Entry)
      requires k < |queue| && w < |pcs|
      modifies this`queue, this`fibers, this`active, this`pcs, this`taken
      ensures View() == Take(old(View()), w, k) && e == old(queue[k])
      ensures queue == old(queue)[..k] + old(queue)[k + 1..]
      ensures active == old(active) + 1 && pcs == old(pcs)[w := Took(e)]
    {
      e := queue[k];
      queue := queue[..k] + queue[k + 1..];
      active := active + 1;
      pcs, taken := pcs[w := Took(e)], taken + multiset{e};
      if e.work.OfFiber? && e.work.id in fibers {
        fibers := fibers[e.work.id := fibers[e.work.id].(ticket := InHand(w))];
      }
    }

    /** If it says yes in a good state, every scheduled entry was taken and no worker has one in hand. */
    method IsStopping() returns (b: bool)
      ensures b <==> Stopping(View())
      ensures b && Inv(View()) ==> scheduled == taken && forall w :: 0 <= w < |pcs| ==> !Counts(pcs[w])
    {
      if Stopping(View()) && Inv(View()) {
        StoppingIs(View());
      }
      b := autoStop && stopping && queue == [] && active == 0;
    }
  }

  /** Among the first `k` entries one is bound to a thread other than `w`. */
  ghost predicate SkipsBound(q: seq<Entry>, w: nat, k: nat)
    requires k <= |q|
  {
    exists j :: 0 <= j < k && q[j].thread != -1 && q[j].thread != w
  }

  /** The entries for what a batch holds, without its empty slots: for any thread, in order. */
  function BatchEntries(batch: seq<Option<Work>>): seq<Entry> {
    if batch == [] then []
    else (if batch[0].Some? then [Entry(batch[0].value, -1)] else []) + BatchEntries(batch[1..])
  }

  /** A batch adds its tasks one by one: an empty one nothing, the others an entry for any thread. */
  lemma {:induction false} BatchIs(a: seq<Option<Work>>, b: seq<Option<Work>>, w: Work)
    ensures BatchEntries([]) == [] && BatchEntries([None]) == [] && BatchEntries([Some(w)]) == [Entry(w, -1)]
    ensures BatchEntries(a + b) == BatchEntries(a) + BatchEntries(b)
    decreases |a|
  {
    var none: seq<Option<Work>> := [None];
    assert [Some(w)][1..] == [] && none[1..] == [];
    if a == [] {
      assert a + b == b;
    } else {
      assert (a + b)[1..] == a[1..] + b;
      BatchIs(a[1..], b, w);
    }
  }

  function EnqueueAll(s: State, batch: seq<Option<Work>>): State
    decreases |batch|
  {
    if batch == [] then s
    else EnqueueAll(if batch[0].Some? then Enqueue(s, Entry(batch[0].value, -1)) else s, batch[1..])
  }

  lemma {:induction false} BatchQueue(s: State, batch: seq<Option<Work>>)
    ensures EnqueueAll(s, batch).queue == s.queue + BatchEntries(batch)
    decreases |batch|
  {
    if batch != [] {
      BatchQueue(if batch[0].Some? then Enqueue(s, Entry(batch[0].value, -1)) else s, batch[1..]);
    }
  }
}
