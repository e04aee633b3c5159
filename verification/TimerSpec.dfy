/**
 The timer queue as a value: the timers in order of (deadline, address), the
 wake-up flag, the last clock reading, and how often the front hook was called.
 The class in `Timers` is proved to take exactly these steps. The clock is an input.
 */
module TimerSpec {
  import opened Options
  import opened Words

  type Callback = nat

  const HOUR: nat := 60 * 60 * 1000

  /** One timer. `cb` is `None` for an empty callback. */
  datatype Rec = Rec(addr: nat, next: nat, ms: nat, recurring: bool, cb: Option<Callback>)

  datatype State = State(queue: seq<Rec>, tickled: bool, prev: nat, calls: nat)

  datatype Op =
    | Add(rec: Rec)                              // `rec.next` is not used
    | Cancel(addr: nat)
    | Refresh(addr: nat)
    | Reset(addr: nat, ms: nat, fromNow: bool)
    | Next
    | Expire

  function Sum64(a: nat, b: nat): nat { (a + b) % W64 }

  function Diff64(a: nat, b: nat): nat { (a - b) % W64 }

  predicate Before(a: Rec, b: Rec) {
    a.next < b.next || (a.next == b.next && a.addr < b.addr)
  }

  predicate Differ(a: Rec, b: Rec) { a.addr != b.addr }

  ghost predicate Sorted(q: seq<Rec>) {
    forall i, j {:trigger Before(q[i], q[j])} :: 0 <= i < j < |q| ==> Before(q[i], q[j])
  }

  ghost predicate Distinct(q: seq<Rec>) {
    forall i, j {:trigger Differ(q[i], q[j])} :: 0 <= i < j < |q| ==> Differ(q[i], q[j])
  }

  ghost predicate Wf(s: State) { Sorted(s.queue) && Distinct(s.queue) }

  predicate Has(q: seq<Rec>, addr: nat) { exists i :: 0 <= i < |q| && q[i].addr == addr }

  /** The place of `addr`, or the length if it is not there. */
  function Find(q: seq<Rec>, addr: nat): (i: nat)
    ensures i <= |q|
    ensures i < |q| ==> q[i].addr == addr
    ensures i == |q| <==> !Has(q, addr)
  {
    if q == [] then 0 else if q[0].addr == addr then 0 else
      assert Has(q[1..], addr) ==> Has(q, addr) by {
        if Has(q[1..], addr) {
          var i :| 0 <= i < |q[1..]| && q[1..][i].addr == addr;
          assert q[i + 1].addr == addr;
        }
      }
      assert Has(q, addr) ==> Has(q[1..], addr) by {
        if Has(q, addr) {
          var i :| 0 <= i < |q| && q[i].addr == addr;
          assert q[1..][i - 1].addr == addr;
        }
      }
      1 + Find(q[1..], addr)
  }

  /** The number of timers that come before `r`. */
  function Rank(q: seq<Rec>, r: Rec): (i: nat)
    ensures i <= |q|
    ensures forall j :: 0 <= j < i ==> !Before(r, q[j])
    ensures i < |q| ==> Before(r, q[i])
  {
    if q == [] || Before(r, q[0]) then 0 else 1 + Rank(q[1..], r)
  }

  function Put(q: seq<Rec>, r: Rec): seq<Rec> {
    var i := Rank(q, r);
    q[..i] + [r] + q[i..]
  }

  function Drop(q: seq<Rec>, i: nat): seq<Rec>
    requires i < |q|
  {
    q[..i] + q[i + 1..]
  }

  /** `addTimer` under the lock: a new first timer calls the hook, once until the next `getNextTimer`. */
  function Insert(s: State, r: Rec): State {
    var front := Rank(s.queue, r) == 0 && !s.tickled;
    s.(queue := Put(s.queue, r), tickled := s.tickled || front, calls := if front then s.calls + 1 else s.calls)
  }

  predicate Rollover(prev: nat, now: nat) {
    now < prev && now < Diff64(prev, HOUR)
  }

  /** The number of timers at the front whose deadline has come. */
  function Due(q: seq<Rec>, now: nat): (k: nat)
    ensures k <= |q|
    ensures forall i :: 0 <= i < k ==> q[i].next <= now
    ensures k < |q| ==> q[k].next > now
  {
    if q == [] || q[0].next > now then 0 else 1 + Due(q[1..], now)
  }

  /** Puts the recurring timers of `fired` back, one period from now. */
  function Rearm(q: seq<Rec>, fired: seq<Rec>, now: nat): seq<Rec>
    decreases |fired|
  {
    if fired == [] then q
    else
      var r := fired[0];
      Rearm(if r.recurring then Put(q, r.(next := Sum64(now, r.ms))) else q, fired[1..], now)
  }

  /** How many timers at the front `listExpiredCb` hands out. */
  function Expiring(s: State, now: nat): (k: nat)
    ensures k <= |s.queue|
  {
    if Rollover(s.prev, now) then |s.queue| else Due(s.queue, now)
  }

  function Fired(s: State, now: nat): seq<Rec> { s.queue[..Expiring(s, now)] }

  function AfterExpire(s: State, now: nat): State {
    if s.queue == [] then s
    else
      var k := Expiring(s, now);
      s.(queue := Rearm(s.queue[k..], s.queue[..k], now), prev := now)
  }

  function Apply(s: State, now: nat, op: Op): State {
    match op
    case Add(r) => Insert(s, r.(next := Sum64(now, r.ms)))
    case Cancel(a) =>
      var i := Find(s.queue, a);
      if i < |s.queue| && s.queue[i].cb.Some? then s.(queue := Drop(s.queue, i)) else s
    case Refresh(a) =>
      var i := Find(s.queue, a);
      if i < |s.queue| && s.queue[i].cb.Some? then
        var r := s.queue[i];
        s.(queue := Put(Drop(s.queue, i), r.(next := Sum64(now, r.ms))))
      else s
    case Reset(a, ms, fromNow) =>
      var i := Find(s.queue, a);
      if i < |s.queue| && s.queue[i].cb.Some? && !(ms == s.queue[i].ms && !fromNow) then
        var r := s.queue[i];
        var start := if fromNow then now else Diff64(r.next, r.ms);
        Insert(s.(queue := Drop(s.queue, i)), r.(ms := ms, next := Sum64(start, ms)))
      else s
    case Next => s.(tickled := false)
    case Expire => AfterExpire(s, now)
  }

  /** The milliseconds that `getNextTimer` returns; all ones without a timer. */
  function Timeout(s: State, now: nat): nat {
    if s.queue == [] then W64 - 1
    else if now >= s.queue[0].next then 0
    else s.queue[0].next - now
  }
}
