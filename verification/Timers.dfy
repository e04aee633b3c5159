/**
 The timer manager with its timers on the heap, proved to take the steps of `TimerSpec`.
 One call at a time; the clock reading is a parameter of each call.
 */
module Timers {
  import opened Options
  import opened TimerSpec
  import opened Words
  import opened TimerRuns

  class Timer {
    const addr: nat
    const recurring: bool
    var ms: nat
    var next: nat
    var cb: Option<Callback>

    constructor (addr: nat, ms: nat, cb: Option<Callback>, recurring: bool, now: nat)
      ensures this.addr == addr && this.ms == ms && this.cb == cb && this.recurring == recurring
      ensures next == Sum64(now, ms)
    {
      this.addr, this.recurring := addr, recurring;
      this.ms, this.cb := ms, cb;
      next := Sum64(now, ms);
    }

    ghost function Value(): Rec
      reads this
    {
      Rec(addr, next, ms, recurring, cb)
    }

    /** The comparator of the ordered set; a null timer comes first. */
    static predicate Less(lhs: Timer?, rhs: Timer?)
      reads lhs, rhs
    {
      if lhs == null && rhs == null then false
      else if lhs == null then true
      else if rhs == null then false
      else if lhs.next < rhs.next then true
      else if rhs.next < lhs.next then false
      else lhs.addr < rhs.addr
    }
  }

  class TimerManager {
    /** The ordered set, as the sequence of its elements. */
    var timers: seq<Timer>
    var tickled: bool
    var previousTime: nat
    /** Calls of the hook for a timer inserted at the front. */
    var frontCalls: nat
    ghost var queue: seq<Rec>
    /** Every timer handed to a caller. */
    ghost var all: set<Timer>
    /** The timer at an address; no two living timers share one. */
    ghost var byAddr: map<nat, Timer>

    ghost predicate Consistent()
      reads this, all
    {
      && |timers| == |queue|
      && (forall i :: 0 <= i < |timers| ==> timers[i] in all && timers[i].Value() == queue[i])
      && (forall t :: t in all ==> t.addr in byAddr && byAddr[t.addr] == t)
      && Sorted(queue) && Distinct(queue)
    }

    /** A timer outside the set has no callback left, so it can neither fire nor be cancelled. */
    ghost predicate Valid()
      reads this, all
    {
      Consistent() && forall t :: t in all && t !in timers ==> t.cb == None
    }

    ghost function View(): State
      reads this
    {
      State(queue, tickled, previousTime, frontCalls)
    }

    /** A timer is in the set if and only if it has a callback. */
    ghost predicate Live()
      reads this, all
    {
      forall t :: t in all ==> (t in timers <==> t.cb.Some?)
    }

    lemma LiveIs()
      requires Valid()
      ensures Live() <==> AllLive(queue)
    {
      forall t | t in all && t in timers ensures t.Value() in queue {
        var i :| 0 <= i < |timers| && timers[i] == t;
        assert queue[i] == t.Value();
      }
      forall r | r in queue ensures exists t :: t in timers && t in all && t.Value() == r {
        var i :| 0 <= i < |queue| && queue[i] == r;
        assert timers[i] in timers;
      }
    }

    constructor (now: nat)
      ensures Valid() && Live() && fresh(all)
      ensures View() == State([], false, now, 0) && all == {}
    {
      timers, tickled, previousTime, frontCalls := [], false, now, 0;
      queue, all, byAddr := [], {}, map[];
    }

    /** The ordered set's search for `t`: its place, or the length. */
    method FindTimer(t: Timer) returns (i: nat)
      requires Valid() && t in all
      ensures i == Find(queue, t.addr)
      ensures i < |timers| <==> t in timers
      ensures i < |timers| ==> timers[i] == t
    {
      i := 0;
      while i < |timers| && (Timer.Less(timers[i], t) || Timer.Less(t, timers[i]))
        invariant i <= |timers|
        invariant forall j :: 0 <= j < i ==> timers[j] != t
      {
        i := i + 1;
      }
      if i < |timers| {
        assert timers[i].addr == t.addr;
        FindIs(queue, i);
      } else {
        NotQueued(t);
        AbsentIs(queue, t.addr);
      }
    }

    lemma NotQueued(t: Timer)
      requires Consistent() && t in all && t !in timers
      ensures Absent(queue, t.addr)
    {
      forall x | x in queue ensures x.addr != t.addr {
        var i :| 0 <= i < |queue| && queue[i] == x;
        assert timers[i] in timers;
      }
    }

    /** The place of `t` in the order of the set. */
    method PlaceOf(t: Timer) returns (i: nat)
      requires Consistent() && t in all
      ensures i <= |timers| && i == Rank(queue, t.Value())
    {
      i := 0;
      while i < |timers| && !Timer.Less(t, timers[i])
        invariant i <= |timers|
        invariant forall j :: 0 <= j < i ==> !Before(t.Value(), queue[j])
      {
        i := i + 1;
      }
      RankIs(queue, t.Value(), i);
    }

    /** Insertion into the ordered set; `i` is the place of the new element. */
    method InsertTimer(t: Timer) returns (i: nat)
      requires Consistent() && t in all && t !in timers
      modifies this`timers, this`queue
      ensures Consistent()
      ensures i == Rank(old(queue), t.Value()) && queue == Put(old(queue), t.Value())
      ensures forall u :: u in timers <==> u in old(timers) || u == t
      ensures timers != [] && (i == 0 <==> timers[0] == t)
    {
      i := PlaceOf(t);
      NotQueued(t);
      PutKeepsOrder(queue, t.Value());
      assert timers == timers[..i] + timers[i..];
      timers := timers[..i] + [t] + timers[i..];
      queue := queue[..i] + [t.Value()] + queue[i..];
      forall j | 0 <= j < |timers| ensures timers[j] in all && timers[j].Value() == queue[j] {
        assert j > i ==> timers[j] == old(timers)[j - 1] && queue[j] == old(queue)[j - 1];
      }
    }

    /** Erases element `i` of the ordered set. */
    method EraseTimer(i: nat)
      requires Consistent() && i < |timers|
      modifies this`timers, this`queue
      ensures Consistent()
      ensures queue == Drop(old(queue), i)
      ensures forall u :: u in timers <==> u in old(timers) && u != old(timers[i])
    {
      DropKeepsOrder(queue, i);
      assert forall j :: 0 <= j < |timers| && j != i ==> queue[j].addr != queue[i].addr;
      forall u | u in timers && u != timers[i] ensures u in timers[..i] + timers[i + 1..] {
        var j :| 0 <= j < |timers| && timers[j] == u;
        assert u == if j < i then timers[..i][j] else timers[i + 1..][j - i - 1];
      }
      timers := timers[..i] + timers[i + 1..];
      queue := Drop(queue, i);
    }

    /** The inner `addTimer`, from the insertion to the hook. */
    method AddLocked(t: Timer)
      requires Consistent() && t in all && t !in timers
      requires forall u :: u in all && u !in timers && u != t ==> u.cb == None
      modifies this`timers, this`queue, this`tickled, this`frontCalls
      ensures Valid()
      ensures View() == Insert(old(View()), t.Value())
      ensures forall u :: u in timers <==> u in old(timers) || u == t
      ensures timers != [] && tickled == (old(tickled) || timers[0] == t)
      ensures frontCalls == if timers[0] == t && !old(tickled) then old(frontCalls) + 1 else old(frontCalls)
    {
      var i := InsertTimer(t);
      var atFront := i == 0 && !tickled;
      if atFront {
        tickled := true;
      }
      if atFront {
        frontCalls := frontCalls + 1;
      }
    }

    /** `addr` is where the allocator puts the new timer: no living timer is there. */
    method AddTimer(addr: nat, ms: nat, cb: Option<Callback>, recurring: bool, now: nat) returns (t: Timer)
      requires Valid() && forall u :: u in all ==> u.addr != addr
      modifies this
      ensures Valid() && fresh(t) && all == old(all) + {t} && t.addr == addr
      ensures t.recurring == recurring && t.cb == cb && t.ms == ms && (now + ms < W64 ==> t.next == now + ms)
      ensures forall u :: u in timers <==> u in old(timers) || u == t
      ensures timers != [] && tickled == (old(tickled) || timers[0] == t)
      ensures frontCalls == if timers[0] == t && !old(tickled) then old(frontCalls) + 1 else old(frontCalls)
      ensures View() == Apply(old(View()), now, Add(Rec(addr, 0, ms, recurring, cb)))
      ensures old(Live()) && cb.Some? ==> Live()
    {
      if Live() && cb.Some? { LiveIs(); StepLive(View(), now, Add(Rec(addr, 0, ms, recurring, cb))); }
      t := new Timer(addr, ms, cb, recurring, now);
      if now + ms < W64 { NoWrap(now, ms); }
      all := all + {t};
      byAddr := byAddr[addr := t];
      AddLocked(t);
      LiveIs();
    }

    method Cancel(t: Timer) returns (ok: bool)
      requires Valid() && t in all
      modifies this`timers, this`queue, t`cb
      ensures Valid()
      ensures ok == old(t.cb).Some? && t.cb == None
      ensures if ok then forall u :: u in timers <==> u in old(timers) && u != t else timers == old(timers)
      ensures View() == Apply(old(View()), 0, TimerSpec.Cancel(t.addr))
      ensures old(Live()) ==> Live()
    {
      if Live() { LiveIs(); StepLive(View(), 0, TimerSpec.Cancel(t.addr)); }
      ok := CancelStep(t);
      LiveIs();
    }

    method CancelStep(t: Timer) returns (ok: bool)
      requires Valid() && t in all
      modifies this`timers, this`queue, t`cb
      ensures Valid()
      ensures ok == old(t.cb).Some? && t.cb == None
      ensures if ok then forall u :: u in timers <==> u in old(timers) && u != t else timers == old(timers)
      ensures View() == Apply(old(View()), 0, TimerSpec.Cancel(t.addr))
    {
      if t.cb.Some? {
        var i := FindTimer(t);
        EraseTimer(i);
        t.cb := None;
        return true;
      }
      Unaffected(t);
      return false;
    }

    /** A timer without a callback is not found with one in the queue. */
    lemma Unaffected(t: Timer)
      requires Valid() && t in all && t.cb == None
      ensures var i := Find(queue, t.addr); i < |queue| ==> queue[i].cb == None
    {
      var i := Find(queue, t.addr);
      if i < |queue| {
        assert timers[i].addr == t.addr;
      }
    }

    /** Erases `t`, which is element `i`, and gives it a new period and deadline. */
    method TakeOut(t: Timer, i: nat, ms: nat, next: nat)
      requires Valid() && i < |timers| && timers[i] == t
      modifies this`timers, this`queue, t`next, t`ms
      ensures Consistent() && queue == Drop(old(queue), i)
      ensures t in all && t !in timers && t.Value() == old(t.Value()).(ms := ms, next := next)
      ensures forall u :: u in timers <==> u in old(timers) && u != t
      ensures forall u :: u in all && u !in timers && u != t ==> u.cb == None
    {
      EraseTimer(i);
      t.ms, t.next := ms, next;
    }

    method Refresh(t: Timer, now: nat) returns (ok: bool)
      requires Valid() && t in all
      modifies this`timers, this`queue, t`next, t`ms
      ensures Valid() && ok == old(t.cb).Some? && t.ms == old(t.ms)
      ensures ok && now + t.ms < W64 ==> t.next == now + t.ms
      ensures !ok ==> t.next == old(t.next) && timers == old(timers)
      ensures forall u :: u in timers <==> u in old(timers)
      ensures View() == Apply(old(View()), now, TimerSpec.Refresh(t.addr))
      ensures old(Live()) ==> Live()
    {
      if Live() { LiveIs(); StepLive(View(), now, TimerSpec.Refresh(t.addr)); }
      ok := RefreshStep(t, now);
      if now + t.ms < W64 { NoWrap(now, t.ms); }
      LiveIs();
    }

    method RefreshStep(t: Timer, now: nat) returns (ok: bool)
      requires Valid() && t in all
      modifies this`timers, this`queue, t`next, t`ms
      ensures Valid() && ok == old(t.cb).Some? && t.ms == old(t.ms)
      ensures ok ==> t.next == Sum64(now, t.ms)
      ensures !ok ==> t.next == old(t.next) && timers == old(timers)
      ensures forall u :: u in timers <==> u in old(timers)
      ensures View() == Apply(old(View()), now, TimerSpec.Refresh(t.addr))
    {
      if t.cb == None {
        Unaffected(t);
        return false;
      }
      var i := FindTimer(t);
      if i == |timers| {
        return false;
      }
      RefreshIs(View(), now, t.Value());
      TakeOut(t, i, t.ms, Sum64(now, t.ms));
      var k := InsertTimer(t);
      return true;
    }

    method Reset(t: Timer, ms: nat, fromNow: bool, now: nat) returns (ok: bool)
      requires Valid() && t in all
      modifies this`timers, this`queue, this`tickled, this`frontCalls, t`next, t`ms
      ensures Valid() && ok == ((ms == old(t.ms) && !fromNow) || old(t.cb).Some?)
      ensures if old(t.cb).Some? && (ms != old(t.ms) || fromNow) then
                && t.ms == ms
                && (forall n :: old(t.next) < W64 && ResetTo(old(t.Value()), now, ms, fromNow, n) ==> t.next == n)
                && timers != [] && tickled == (old(tickled) || timers[0] == t)
                && frontCalls == if timers[0] == t && !old(tickled) then old(frontCalls) + 1 else old(frontCalls)
              else t.ms == old(t.ms) && t.next == old(t.next) && timers == old(timers) && View() == old(View())
      ensures forall u :: u in timers <==> u in old(timers)
      ensures View() == Apply(old(View()), now, TimerSpec.Reset(t.addr, ms, fromNow))
      ensures old(Live()) ==> Live()
    {
      if Live() { LiveIs(); StepLive(View(), now, TimerSpec.Reset(t.addr, ms, fromNow)); }
      ghost var r := t.Value();
      ok := ResetStep(t, ms, fromNow, now);
      forall n | r.next < W64 && ResetTo(r, now, ms, fromNow, n)
        ensures Sum64(if fromNow then now else Diff64(r.next, r.ms), ms) == n
      {
        ResetToIs(r, now, ms, fromNow, n);
      }
      LiveIs();
    }

    method ResetStep(t: Timer, ms: nat, fromNow: bool, now: nat) returns (ok: bool)
      requires Valid() && t in all
      modifies this`timers, this`queue, this`tickled, this`frontCalls, t`next, t`ms
      ensures Valid() && ok == ((ms == old(t.ms) && !fromNow) || old(t.cb).Some?)
      ensures if old(t.cb).Some? && (ms != old(t.ms) || fromNow) then
                && t.ms == ms && t.next == Sum64(if fromNow then now else Diff64(old(t.next), old(t.ms)), ms)
                && timers != [] && tickled == (old(tickled) || timers[0] == t)
                && frontCalls == if timers[0] == t && !old(tickled) then old(frontCalls) + 1 else old(frontCalls)
              else t.ms == old(t.ms) && t.next == old(t.next) && timers == old(timers) && View() == old(View())
      ensures forall u :: u in timers <==> u in old(timers)
      ensures View() == Apply(old(View()), now, TimerSpec.Reset(t.addr, ms, fromNow))
    {
      if ms == t.ms && !fromNow {
        SamePeriod(t);
        return true;
      }
      if t.cb == None {
        Unaffected(t);
        return false;
      }
      var i := FindTimer(t);
      if i == |timers| {
        return false;
      }
      var start := if fromNow then now else Diff64(t.next, t.ms);
      ResetIs(View(), now, t.Value(), ms, fromNow);
      Reinsert(t, i, ms, Sum64(start, ms));
      return true;
    }

    /** Moves `t`, which is element `i`, to its place under a new period and deadline. */
    method Reinsert(t: Timer, i: nat, ms: nat, next: nat)
      requires Valid() && i < |timers| && timers[i] == t
      modifies this`timers, this`queue, this`tickled, this`frontCalls, t`next, t`ms
      ensures Valid() && t.ms == ms && t.next == next
      ensures View() == Insert(old(View()).(queue := Drop(old(queue), i)), old(t.Value()).(ms := ms, next := next))
      ensures forall u :: u in timers <==> u in old(timers)
      ensures timers != [] && tickled == (old(tickled) || timers[0] == t)
      ensures frontCalls == if timers[0] == t && !old(tickled) then old(frontCalls) + 1 else old(frontCalls)
    {
      TakeOut(t, i, ms, next);
      AddLocked(t);
    }

    lemma SamePeriod(t: Timer)
      requires Valid() && t in all
      ensures var i := Find(queue, t.addr); i < |queue| ==> queue[i].ms == t.ms
    {
      var i := Find(queue, t.addr);
      if i < |queue| {
        assert timers[i].addr == t.addr;
      }
    }

    /** The wait until the earliest deadline; from now on a new front timer calls the hook again. */
    method GetNextTimer(now: nat) returns (ms: nat)
      requires Valid()
      modifies this`tickled
      ensures Valid()
      ensures ms == Timeout(old(View()), now) && !tickled
      ensures queue == [] ==> ms == W64 - 1
      ensures queue != [] ==> (ms == 0 <==> queue[0].next <= now) && (ms > 0 ==> now + ms == queue[0].next)
      ensures View() == Apply(old(View()), now, Next)
      ensures old(Live()) ==> Live()
    {
      tickled := false;
      if timers == [] {
        return W64 - 1;
      }
      assert timers[0].Value() == queue[0];
      ms := if now >= timers[0].next then 0 else timers[0].next - now;
    }

    method DetectClockRollover(now: nat) returns (rollover: bool)
      modifies this`previousTime
      ensures rollover == Rollover(old(previousTime), now) && previousTime == now
    {
      rollover := now < previousTime && now < Diff64(previousTime, HOUR);
      previousTime := now;
    }

    /** The end of the due timers: a search from a probe at any address, then on over equal deadlines. */
    method DueEnd(now: nat, probe: nat) returns (k: nat)
      requires Consistent()
      ensures k == Due(queue, now)
    {
      k := 0;
      while k < |timers| && (timers[k].next < now || (timers[k].next == now && timers[k].addr < probe))
        invariant k <= |timers|
        invariant forall j :: 0 <= j < k ==> queue[j].next <= now
      {
        k := k + 1;
      }
      while k < |timers| && timers[k].next == now
        invariant k <= |timers|
        invariant forall j :: 0 <= j < k ==> queue[j].next <= now
        invariant k < |timers| ==> timers[k].next >= now
      {
        assert k + 1 < |timers| ==> Before(queue[k], queue[k + 1]);
        k := k + 1;
      }
      DueIs(queue, now, k);
    }

    /** The timer of a record in the queue. */
    lemma QueuedTimer(t: Timer, x: Rec)
      requires Consistent() && t in all && x in queue && x.addr == t.addr
      ensures t in timers && t.Value() == x
    {
      var i :| 0 <= i < |queue| && queue[i] == x;
      assert timers[i].addr == t.addr;
    }

    /** What became of the timer `t`, at place `i` of the queue of `s`, after the expiry. */
    lemma Afterwards(s: State, now: nat, i: nat, t: Timer)
      requires Valid() && Wf(s) && View() == AfterExpire(s, now)
      requires i < |s.queue| && t in all && t.addr == s.queue[i].addr
      ensures var r, k := s.queue[i], Expiring(s, now);
              && (i >= k ==> t in timers && t.Value() == r)
              && (i < k && r.recurring ==> t in timers && t.Value() == r.(next := Sum64(now, r.ms)))
              && (i < k && !r.recurring ==> t !in timers && t.cb == None)
    {
      var q, r, k := s.queue, s.queue[i], Expiring(s, now);
      if i >= k {
        assert r == q[k..][i - k];
        RearmMembers(q[k..], q[..k], now);
        QueuedTimer(t, r);
      } else {
        assert r == q[..k][i];
        var x := if r.recurring then r.(next := Sum64(now, r.ms)) else t.Value();
        FiredThen(s, now, r, x);
        if r.recurring {
          QueuedTimer(t, x);
        }
      }
    }

    /**
     The first `n` of the timers `ts`, which had the values `q`, were handed out: the
     recurring ones are back one period from now, the others are done for; the rest is as it was.
     */
    ghost predicate HandedOut(ts: seq<Timer>, q: seq<Rec>, now: nat, n: nat)
      requires |ts| == |q|
      reads this, ts
    {
      forall i :: 0 <= i < |ts| ==>
        if i >= n then ts[i] in timers && ts[i].Value() == q[i]
        else if q[i].recurring then ts[i] in timers && ts[i].Value() == q[i].(next := (now + q[i].ms) % W64)
        else ts[i] !in timers && ts[i].cb == None
    }

    /**
     Hands out the callbacks of the due timers, which are the first `|cbs|` ones, and puts
     the recurring ones back.
     */
    method ListExpired(now: nat, probe: nat) returns (cbs: seq<Option<Callback>>)
      requires Valid()
      modifies this, all
      ensures Valid() && all == old(all)
      ensures |cbs| <= |old(timers)| && previousTime == if old(timers) == [] then old(previousTime) else now
      ensures forall i :: 0 <= i < |cbs| ==> cbs[i] == old(queue)[i].cb
      ensures old(previousTime) < W64 ==> DueFirst(old(queue), old(previousTime), now, |cbs|)
      ensures |old(queue)| == |old(timers)| && HandedOut(old(timers), old(queue), now, |cbs|)
      ensures cbs == Callbacks(Fired(old(View()), now))
      ensures View() == Apply(old(View()), now, Expire)
      ensures old(Live()) ==> Live()
    {
      ghost var s, ts := View(), timers;
      if Live() { LiveIs(); StepLive(s, now, Expire); }
      cbs := ListExpiredStep(now, probe);
      ExpiryIs(s, now);
      AllAfterwards(s, now, ts);
      LiveIs();
    }

    lemma AllAfterwards(s: State, now: nat, ts: seq<Timer>)
      requires Valid() && Wf(s) && View() == AfterExpire(s, now) && |ts| == |s.queue|
      requires forall i :: 0 <= i < |ts| ==> ts[i] in all && ts[i].addr == s.queue[i].addr
      ensures HandedOut(ts, s.queue, now, |Callbacks(Fired(s, now))|)
    {
      CallbacksAre(Fired(s, now));
      forall i | 0 <= i < |ts| {
        Afterwards(s, now, i, ts[i]);
      }
    }

    method ListExpiredStep(now: nat, probe: nat) returns (cbs: seq<Option<Callback>>)
      requires Valid()
      modifies this, all
      ensures Valid() && all == old(all)
      ensures cbs == Callbacks(Fired(old(View()), now))
      ensures View() == Apply(old(View()), now, Expire)
    {
      if timers == [] {
        return [];
      }
      var rollover := DetectClockRollover(now);
      if !rollover && timers[0].next > now {
        assert timers[0].Value() == queue[0];
        assert queue[0..] == queue;
        return [];
      }
      var k: nat;
      if rollover {
        k := |timers|;
      } else {
        k := DueEnd(now, probe);
      }
      cbs := HandOut(k, now);
    }

    /** The loop of `listExpiredCb` over the first `k` timers. */
    method HandOut(k: nat, now: nat) returns (cbs: seq<Option<Callback>>)
      requires Valid() && k <= |timers|
      modifies this`timers, this`queue, all
      ensures Valid()
      ensures cbs == Callbacks(old(queue[..k]))
      ensures queue == Rearm(old(queue[k..]), old(queue[..k]), now)
    {
      ghost var recs, goal, total := queue[..k], Rearm(queue[k..], queue[..k], now), Callbacks(queue[..k]);
      var rest := TakeFirst(k);
      cbs := [];
      while |rest| > 0
        invariant Pending(rest, recs)
        invariant Rearm(queue, recs, now) == goal
        invariant cbs + Callbacks(recs) == total
      {
        CallbacksMore(cbs, recs);
        var cb := HandOne(rest[0], rest, recs, now);
        cbs := cbs + [cb];
        rest, recs := rest[1..], recs[1..];
      }
    }

    /** Copies the first `k` timers out and erases them from the set. */
    method TakeFirst(k: nat) returns (rest: seq<Timer>)
      requires Valid() && k <= |timers|
      modifies this`timers, this`queue
      ensures Pending(rest, old(queue[..k])) && queue == old(queue[k..])
    {
      rest := timers[..k];
      CutKeepsOrder(queue, k);
      forall i, j | 0 <= i < j < |timers| ensures timers[i] != timers[j] {
        assert Differ(queue[i], queue[j]);
      }
      timers, queue := timers[k..], queue[k..];
    }

    /** The timers `rest`, with values `recs`, have been taken out and still wait for their turn. */
    ghost predicate Pending(rest: seq<Timer>, recs: seq<Rec>)
      reads this, all, rest
    {
      && Consistent()
      && |rest| == |recs| && Distinct(recs)
      && (forall i :: 0 <= i < |rest| ==> rest[i] in all && rest[i] !in timers && rest[i].Value() == recs[i])
      && (forall t :: t in all && t !in timers ==> t.cb == None || t in rest)
    }

    /** One turn of that loop. */
    method HandOne(t: Timer, ghost rest: seq<Timer>, ghost recs: seq<Rec>, now: nat) returns (cb: Option<Callback>)
      requires rest != [] && t == rest[0] && Pending(rest, recs)
      modifies this`timers, this`queue, t`next, t`cb
      ensures Pending(rest[1..], recs[1..]) && cb == recs[0].cb
      ensures queue == if recs[0].recurring then Put(old(queue), recs[0].(next := Sum64(now, recs[0].ms)))
                       else old(queue)
    {
      RestDistinct(recs);
      forall i | 0 < i < |rest| ensures rest[i] != t {
        assert Differ(recs[0], recs[i]);
      }
      cb := t.cb;
      if t.recurring {
        t.next := Sum64(now, t.ms);
        var i := InsertTimer(t);
      } else {
        t.cb := None;
      }
    }
  }

  lemma RefreshIs(s: State, now: nat, r: Rec)
    requires var i := Find(s.queue, r.addr); i < |s.queue| && s.queue[i] == r
    requires r.cb.Some?
    ensures Apply(s, now, Refresh(r.addr)) ==
            s.(queue := Put(Drop(s.queue, Find(s.queue, r.addr)), r.(next := Sum64(now, r.ms))))
  {
  }

  lemma ResetIs(s: State, now: nat, r: Rec, ms: nat, fromNow: bool)
    requires var i := Find(s.queue, r.addr); i < |s.queue| && s.queue[i] == r
    requires r.cb.Some? && !(ms == r.ms && !fromNow)
    ensures var start := if fromNow then now else Diff64(r.next, r.ms);
            Apply(s, now, Reset(r.addr, ms, fromNow)) ==
            Insert(s.(queue := Drop(s.queue, Find(s.queue, r.addr))), r.(ms := ms, next := Sum64(start, ms)))
  {
  }

  function Callbacks(rs: seq<Rec>): seq<Option<Callback>> {
    if rs == [] then [] else [rs[0].cb] + Callbacks(rs[1..])
  }

  lemma {:induction false} CallbacksAre(rs: seq<Rec>)
    ensures |Callbacks(rs)| == |rs| && forall i :: 0 <= i < |rs| ==> Callbacks(rs)[i] == rs[i].cb
  {
    if rs != [] {
      CallbacksAre(rs[1..]);
    }
  }

  /** The first `n` timers are due: those whose deadline has come, or all after a step back that is a rollover. */
  ghost predicate DueFirst(q: seq<Rec>, prev: nat, now: nat, n: nat) {
    if now < prev && (prev < HOUR || now + HOUR < prev) then n == |q|
    else forall i :: 0 <= i < |q| ==> (i < n <==> q[i].next <= now)
  }

  lemma ExpiringIs(s: State, now: nat)
    requires Wf(s)
    ensures s.prev < W64 ==> DueFirst(s.queue, s.prev, now, Expiring(s, now))
  {
    if s.prev < W64 {
      RolloverIs(s.prev, now);
    }
    var k := Due(s.queue, now);
    assert forall i :: k < i < |s.queue| ==> Before(s.queue[k], s.queue[i]);
  }

  lemma ExpiryIs(s: State, now: nat)
    requires Wf(s)
    ensures var cbs := Callbacks(Fired(s, now));
            && |cbs| <= |s.queue| && (forall i :: 0 <= i < |cbs| ==> cbs[i] == s.queue[i].cb)
            && (s.prev < W64 ==> DueFirst(s.queue, s.prev, now, |cbs|))
  {
    CallbacksAre(Fired(s, now));
    ExpiringIs(s, now);
  }

  lemma CallbacksMore(cbs: seq<Option<Callback>>, rs: seq<Rec>)
    requires rs != []
    ensures cbs + Callbacks(rs) == cbs + [rs[0].cb] + Callbacks(rs[1..])
  {
  }

  lemma DueIs(q: seq<Rec>, now: nat, k: nat)
    requires k <= |q|
    requires forall j :: 0 <= j < k ==> q[j].next <= now
    requires k < |q| ==> q[k].next > now
    ensures Due(q, now) == k
  {
    var d := Due(q, now);
  }

  lemma RankIs(q: seq<Rec>, r: Rec, i: nat)
    requires i <= |q|
    requires forall j :: 0 <= j < i ==> !Before(r, q[j])
    requires i < |q| ==> Before(r, q[i])
    ensures Rank(q, r) == i
  {
    var k := Rank(q, r);
  }
}
