/** What every run of the timer queue keeps. */
module TimerRuns {
  import opened Options
  import opened TimerSpec
  import opened Words

  // ---------- order and membership

  lemma PutMembers(q: seq<Rec>, r: Rec)
    ensures forall x :: x in Put(q, r) <==> x in q || x == r
  {
    var i := Rank(q, r);
    assert q == q[..i] + q[i..];
  }

  lemma DropMembers(q: seq<Rec>, i: nat)
    requires i < |q| && Distinct(q)
    ensures forall x :: x in Drop(q, i) <==> x in q && x.addr != q[i].addr
  {
    forall x | x in q && x.addr != q[i].addr ensures x in Drop(q, i) {
      var j :| 0 <= j < |q| && q[j] == x;
      assert x == if j < i then Drop(q, i)[j] else Drop(q, i)[j - 1];
    }
    forall x | x in Drop(q, i) ensures x in q && x.addr != q[i].addr {
      var k :| 0 <= k < |Drop(q, i)| && Drop(q, i)[k] == x;
      var j := if k < i then k else k + 1;
      assert x == q[j] && (Differ(q[j], q[i]) || Differ(q[i], q[j]));
    }
  }

  ghost predicate Absent(q: seq<Rec>, addr: nat) {
    forall x :: x in q ==> x.addr != addr
  }

  lemma AbsentIs(q: seq<Rec>, addr: nat)
    ensures Absent(q, addr) <==> !Has(q, addr)
  {
    if Has(q, addr) {
      var i :| 0 <= i < |q| && q[i].addr == addr;
      assert q[i] in q;
    }
  }

  lemma PutKeepsOrder(q: seq<Rec>, r: Rec)
    requires Sorted(q) && Distinct(q) && Absent(q, r.addr)
    ensures Sorted(Put(q, r)) && Distinct(Put(q, r))
  {
    var i := Rank(q, r);
    var p := Put(q, r);
    assert forall j :: 0 <= j < |q| ==> q[j] in q;
    forall j, k | 0 <= j < k < |p| ensures Before(p[j], p[k]) && Differ(p[j], p[k]) {
      var x := if j < i then q[j] else if j == i then r else q[j - 1];
      var y := if k < i then q[k] else if k == i then r else q[k - 1];
      assert x == p[j] && y == p[k];
      if j == i && i < k - 1 {
        assert Before(q[i], q[k - 1]);
      }
    }
  }

  lemma DropKeepsOrder(q: seq<Rec>, i: nat)
    requires i < |q| && Sorted(q) && Distinct(q)
    ensures Sorted(Drop(q, i)) && Distinct(Drop(q, i)) && Absent(Drop(q, i), q[i].addr)
  {
    DropMembers(q, i);
    var d := Drop(q, i);
    forall j, k | 0 <= j < k < |d| ensures Before(d[j], d[k]) && Differ(d[j], d[k]) {
      assert d[j] == q[if j < i then j else j + 1] && d[k] == q[if k < i then k else k + 1];
    }
  }

  lemma CutKeepsOrder(q: seq<Rec>, k: nat)
    requires k <= |q| && Sorted(q) && Distinct(q)
    ensures Sorted(q[k..]) && Distinct(q[k..]) && Distinct(q[..k])
    ensures forall x, y :: x in q[..k] && y in q[k..] ==> Before(x, y) && x.addr != y.addr
  {
    var l, r := q[..k], q[k..];
    forall i, j | 0 <= i < j < |r| ensures Before(r[i], r[j]) && Differ(r[i], r[j]) {
      assert r[i] == q[k + i] && r[j] == q[k + j];
    }
    forall i, j | 0 <= i < j < k ensures Differ(l[i], l[j]) {
      assert l[i] == q[i] && l[j] == q[j];
    }
    forall x, y | x in l && y in r ensures Before(x, y) && Differ(x, y) {
      var i :| 0 <= i < |l| && l[i] == x;
      var j :| 0 <= j < |r| && r[j] == y;
      assert q[i] == x && q[k + j] == y;
    }
  }

  /** One timer for one address. */
  lemma SameTimer(q: seq<Rec>, x: Rec, y: Rec)
    requires Distinct(q) && x in q && y in q && x.addr == y.addr
    ensures x == y
  {
    var i :| 0 <= i < |q| && q[i] == x;
    var j :| 0 <= j < |q| && q[j] == y;
    assert i < j ==> Differ(q[i], q[j]);
    assert j < i ==> Differ(q[j], q[i]);
  }

  lemma FindIs(q: seq<Rec>, i: nat)
    requires Distinct(q) && i < |q|
    ensures Find(q, q[i].addr) == i
  {
    var k := Find(q, q[i].addr);
    assert i < k < |q| ==> Differ(q[i], q[k]);
    assert k < i ==> Differ(q[k], q[i]);
  }

  lemma RestDistinct(q: seq<Rec>)
    requires Distinct(q) && q != []
    ensures Distinct(q[1..])
    ensures forall y :: y in q[1..] ==> y in q && y.addr != q[0].addr
  {
    var r := q[1..];
    forall i, j | 0 <= i < j < |r| ensures Differ(r[i], r[j]) {
      assert r[i] == q[i + 1] && r[j] == q[j + 1];
    }
    forall y | y in r ensures Differ(q[0], y) {
      var j :| 0 <= j < |r| && r[j] == y;
      assert q[j + 1] == y;
    }
  }

  /** What goes back into the queue. */
  ghost predicate Rearmed(fired: seq<Rec>, now: nat, x: Rec) {
    exists y :: y in fired && y.recurring && x == y.(next := Sum64(now, y.ms))
  }

  lemma {:induction false} RearmMembers(q: seq<Rec>, fired: seq<Rec>, now: nat)
    ensures forall x :: x in Rearm(q, fired, now) <==> x in q || Rearmed(fired, now, x)
    decreases |fired|
  {
    if fired != [] {
      var r, rest := fired[0], fired[1..];
      var q' := if r.recurring then Put(q, r.(next := Sum64(now, r.ms))) else q;
      RearmMembers(q', rest, now);
      if r.recurring {
        PutMembers(q, r.(next := Sum64(now, r.ms)));
      }
      forall x ensures Rearmed(fired, now, x) <==>
                         Rearmed(rest, now, x) || (r.recurring && x == r.(next := Sum64(now, r.ms))) {
        if Rearmed(fired, now, x) {
          var y :| y in fired && y.recurring && x == y.(next := Sum64(now, y.ms));
          assert y == r || y in rest;
        }
      }
    }
  }

  ghost predicate Apart(q: seq<Rec>, p: seq<Rec>) {
    forall x, y :: x in q && y in p ==> x.addr != y.addr
  }

  lemma {:induction false} RearmKeepsOrder(q: seq<Rec>, fired: seq<Rec>, now: nat)
    requires Sorted(q) && Distinct(q) && Distinct(fired) && Apart(q, fired)
    ensures Sorted(Rearm(q, fired, now)) && Distinct(Rearm(q, fired, now))
    decreases |fired|
  {
    if fired != [] {
      var r, rest := fired[0], fired[1..];
      RestDistinct(fired);
      if r.recurring {
        var x := r.(next := Sum64(now, r.ms));
        PutMembers(q, x);
        PutKeepsOrder(q, x);
        RearmKeepsOrder(Put(q, x), rest, now);
      } else {
        RearmKeepsOrder(q, rest, now);
      }
    }
  }

  // ---------- expiry is an exact split

  /** The timers handed out are exactly those whose deadline has come, and they leave in queue order. */
  lemma ExpireSplit(s: State, now: nat)
    requires Wf(s) && !Rollover(s.prev, now)
    ensures Fired(s, now) <= s.queue && Sorted(Fired(s, now))
    ensures forall r :: r in Fired(s, now) <==> r in s.queue && r.next <= now
    ensures forall x :: x in AfterExpire(s, now).queue <==>
              (x in s.queue && x.next > now) || Rearmed(Fired(s, now), now, x)
    ensures Wf(AfterExpire(s, now))
  {
    var q, k := s.queue, Expiring(s, now);
    DueIsAll(q, now);
    RearmMembers(q[k..], q[..k], now);
    CutKeepsOrder(q, k);
    RearmKeepsOrder(q[k..], q[..k], now);
  }

  lemma DueIsAll(q: seq<Rec>, now: nat)
    requires Sorted(q)
    ensures forall r :: r in q[..Due(q, now)] <==> r in q && r.next <= now
    ensures forall r :: r in q[Due(q, now)..] <==> r in q && r.next > now
  {
    var k := Due(q, now);
    assert forall i :: k < i < |q| ==> Before(q[k], q[i]);
    forall r | r in q ensures r in q[..k] <==> r.next <= now ensures r in q[k..] <==> r.next > now {
      var i :| 0 <= i < |q| && q[i] == r;
      assert r == if i < k then q[..k][i] else q[k..][i - k];
    }
  }

  /** After a clock jump back of more than an hour every timer is handed out. */
  lemma ExpireRollover(s: State, now: nat)
    requires Wf(s) && Rollover(s.prev, now)
    ensures Fired(s, now) == s.queue
    ensures forall x :: x in AfterExpire(s, now).queue <==> Rearmed(s.queue, now, x)
    ensures Wf(AfterExpire(s, now))
  {
    var q := s.queue;
    assert q[..|q|] == q && q[|q|..] == [];
    if q != [] {
      RearmMembers([], q, now);
      RearmKeepsOrder([], q, now);
    }
  }

  /**
   Rollover is a step back of more than an hour, except in the first hour of the clock:
   there the subtraction wraps, and any step back is taken for a rollover.
   */
  lemma RolloverIs(prev: nat, now: nat)
    requires prev < W64
    ensures Rollover(prev, now) <==> now < prev && (prev < HOUR || now + HOUR < prev)
  {
    if prev >= HOUR {
      NoWrap(prev - HOUR, 0);
    } else {
      assert prev - HOUR == -1 * W64 + (prev - HOUR + W64);
      NoWrap(prev + W64 - HOUR, 0);
    }
  }

  // ---------- a timer is queued exactly while it has a callback

  ghost predicate AllLive(q: seq<Rec>) { forall r :: r in q ==> r.cb.Some? }

  /** No step puts a timer without a callback into the queue, whatever the clock does. */
  lemma StepLive(s: State, now: nat, op: Op)
    requires AllLive(s.queue) && (op.Add? ==> op.rec.cb.Some?)
    ensures AllLive(Apply(s, now, op).queue)
  {
    var q := s.queue;
    match op
    case Add(r) => PutMembers(q, r.(next := Sum64(now, r.ms)));
    case Cancel(a) =>
    case Refresh(a) =>
      var i := Find(q, a);
      if i < |q| {
        assert q[i] in q;
        PutMembers(Drop(q, i), q[i].(next := Sum64(now, q[i].ms)));
      }
    case Reset(a, ms, fromNow) =>
      var i := Find(q, a);
      if i < |q| {
        assert q[i] in q;
        var start := if fromNow then now else Diff64(q[i].next, q[i].ms);
        PutMembers(Drop(q, i), q[i].(ms := ms, next := Sum64(start, ms)));
      }
    case Next =>
    case Expire => RearmMembers(q[Expiring(s, now)..], Fired(s, now), now);
  }

  // ---------- what a step does to the timers, in numbers that do not wrap

  /** The new timer, with its deadline one period from now, joins the others. */
  lemma AddPuts(s: State, now: nat, r: Rec)
    requires now + r.ms < W64
    ensures forall x :: x in Apply(s, now, Add(r)).queue <==>
              x in s.queue || x == Rec(r.addr, now + r.ms, r.ms, r.recurring, r.cb)
  {
    NoWrap(now, r.ms);
    PutMembers(s.queue, r.(next := now + r.ms));
  }

  /** A cancelled timer leaves, and nothing else changes. */
  lemma CancelTakes(s: State, now: nat, a: nat)
    requires Wf(s) && AllLive(s.queue)
    ensures var t := Apply(s, now, Cancel(a));
            && (forall x :: x in t.queue <==> x in s.queue && x.addr != a)
            && t == s.(queue := t.queue)
  {
    var i := Find(s.queue, a);
    if i < |s.queue| {
      assert s.queue[i] in s.queue;
      DropMembers(s.queue, i);
    } else {
      AbsentIs(s.queue, a);
    }
  }

  lemma FindRec(q: seq<Rec>, r: Rec)
    requires Distinct(q) && r in q
    ensures var i := Find(q, r.addr); i < |q| && q[i] == r
  {
    var i :| 0 <= i < |q| && q[i] == r;
    FindIs(q, i);
  }

  /** A refreshed timer has its deadline one period from now, and nothing else changes: the hook is not called. */
  lemma RefreshMoves(s: State, now: nat, r: Rec)
    requires Wf(s) && r in s.queue && r.cb.Some? && now + r.ms < W64
    ensures var t := Apply(s, now, Refresh(r.addr));
            && (forall x :: x in t.queue <==>
                  (x in s.queue && x.addr != r.addr) || x == Rec(r.addr, now + r.ms, r.ms, r.recurring, r.cb))
            && t == s.(queue := t.queue)
  {
    FindRec(s.queue, r);
    NoWrap(now, r.ms);
    var i := Find(s.queue, r.addr);
    DropMembers(s.queue, i);
    PutMembers(Drop(s.queue, i), r.(next := now + r.ms));
  }

  /** The new deadline of a reset: one new period from now, or from where the old period began. */
  ghost predicate ResetTo(r: Rec, now: nat, ms: nat, fromNow: bool, next: nat) {
    if fromNow then next == now + ms < W64 else r.ms <= r.next && next == r.next - r.ms + ms < W64
  }

  lemma ResetToIs(r: Rec, now: nat, ms: nat, fromNow: bool, next: nat)
    requires r.next < W64 && ResetTo(r, now, ms, fromNow, next)
    ensures Sum64(if fromNow then now else Diff64(r.next, r.ms), ms) == next
  {
    if fromNow {
      NoWrap(now, ms);
    } else {
      NoWrap(r.next - r.ms, 0);
      NoWrap(r.next - r.ms, ms);
    }
  }

  /** A reset timer has the new period and deadline; it counts as new for the hook. */
  lemma ResetMoves(s: State, now: nat, r: Rec, ms: nat, fromNow: bool, next: nat)
    requires Wf(s) && r in s.queue && r.cb.Some? && (fromNow || ms != r.ms) && r.next < W64
    requires ResetTo(r, now, ms, fromNow, next)
    ensures var t, x := Apply(s, now, Reset(r.addr, ms, fromNow)), Rec(r.addr, next, ms, r.recurring, r.cb);
            && (forall y :: y in t.queue <==> (y in s.queue && y.addr != r.addr) || y == x)
            && t.queue != [] && t.prev == s.prev && (t.tickled <==> s.tickled || t.queue[0] == x)
            && t.calls == if t.queue[0] == x && !s.tickled then s.calls + 1 else s.calls
  {
    FindRec(s.queue, r);
    ResetToIs(r, now, ms, fromNow, next);
    var i, x := Find(s.queue, r.addr), Rec(r.addr, next, ms, r.recurring, r.cb);
    assert Apply(s, now, Reset(r.addr, ms, fromNow)) == Insert(s.(queue := Drop(s.queue, i)), x);
    DropMembers(s.queue, i);
    DropKeepsOrder(s.queue, i);
    InsertWakes(s.(queue := Drop(s.queue, i)), x);
  }

  /** Nothing happens to a reset with the old period, nor without a callback in the queue. */
  lemma ResetStays(s: State, now: nat, a: nat, ms: nat, fromNow: bool)
    requires Wf(s) && forall r :: r in s.queue && r.addr == a ==> r.cb == None || (ms == r.ms && !fromNow)
    ensures Apply(s, now, Reset(a, ms, fromNow)) == s
  {
    var i := Find(s.queue, a);
    assert i < |s.queue| ==> s.queue[i] in s.queue;
  }

  /** A timer that is handed out goes back one period from now if it is recurring, and is gone if not. */
  lemma FiredGoesBack(s: State, now: nat, r: Rec, x: Rec)
    requires Wf(s) && r in Fired(s, now) && now + r.ms < W64 && x.addr == r.addr
    ensures x in AfterExpire(s, now).queue <==> r.recurring && x == Rec(r.addr, now + r.ms, r.ms, r.recurring, r.cb)
  {
    NoWrap(now, r.ms);
    FiredThen(s, now, r, x);
  }

  lemma FiredThen(s: State, now: nat, r: Rec, x: Rec)
    requires Wf(s) && r in Fired(s, now) && x.addr == r.addr
    ensures x in AfterExpire(s, now).queue <==> r.recurring && x == r.(next := Sum64(now, r.ms))
  {
    var q, k := s.queue, Expiring(s, now);
    RearmMembers(q[k..], q[..k], now);
    CutKeepsOrder(q, k);
    if Rearmed(q[..k], now, x) {
      var y :| y in q[..k] && y.recurring && x == y.(next := Sum64(now, y.ms));
      SameTimer(q[..k], r, y);
    }
  }

  // ---------- runs

  /**
   A run so far: the last clock reading, the earliest deadline and the number of hook
   calls at the last `getNextTimer`, and when each timer last fired since it was added
   or reset.
   */
  datatype Hist = Hist(s: State, clock: nat, seen: nat, base: nat, last: map<nat, nat>)

  function Earliest(q: seq<Rec>): nat { if q == [] then W64 else q[0].next }

  function FiredAt(fired: seq<Rec>, now: nat): (m: map<nat, nat>)
    ensures forall a :: a in m ==> m[a] == now && !Absent(fired, a)
    ensures forall x :: x in fired ==> x.addr in m
  {
    if fired == [] then map[]
    else
      assert forall a :: !Absent(fired[1..], a) ==> !Absent(fired, a);
      assert fired[0] in fired;
      FiredAt(fired[1..], now)[fired[0].addr := now]
  }

  function Track(h: Hist, now: nat, op: Op): Hist {
    Hist(Apply(h.s, now, op), now,
         if op.Next? then Earliest(h.s.queue) else h.seen,
         if op.Next? then h.s.calls else h.base,
         match op
         case Add(r) => h.last - {r.addr}
         case Reset(a, _, _) => h.last - {a}
         case Expire => h.last + FiredAt(Fired(h.s, now), now)
         case _ => h.last)
  }

  /** The clock does not go back, callbacks are not empty, and no deadline that is set passes 2^64. */
  ghost predicate Legal(h: Hist, now: nat, op: Op) {
    && h.clock <= now < W64
    && match op
       case Add(r) => r.cb.Some? && Absent(h.s.queue, r.addr) && now + r.ms < W64
       case Reset(_, ms, _) => now + ms < W64
       case Refresh(a) => forall r :: r in h.s.queue && r.addr == a ==> now + r.ms < W64
       case Expire => forall r :: r in h.s.queue && r.recurring && r.next <= now ==> now + r.ms < W64
       case _ => true
  }

  /** A timer in the queue: it has a callback, and was armed one period before its deadline. */
  ghost predicate Armed(h: Hist, r: Rec) {
    && r.cb.Some?
    && r.ms <= r.next < W64
    && r.next - r.ms <= h.clock
    && (r.addr in h.last ==> h.last[r.addr] + r.ms <= r.next)
  }

  ghost predicate Inv(h: Hist) {
    && Wf(h.s)
    && h.s.prev <= h.clock
    && (forall r :: r in h.s.queue ==> Armed(h, r))
    && (forall a :: a in h.last ==> h.last[a] <= h.clock)
    && h.s.calls == (if h.s.tickled then h.base + 1 else h.base)
    && h.seen <= W64
    && (Earliest(h.s.queue) < h.seen ==> h.s.tickled)
  }

  ghost predicate Init(h: Hist) {
    h.s.queue == [] && !h.s.tickled && h.s.prev <= h.clock && h.seen == W64 && h.base == h.s.calls && h.last == map[]
  }

  lemma EarliestIs(q: seq<Rec>, e: nat)
    requires Sorted(q)
    ensures forall x :: x in q ==> Earliest(q) <= x.next
    ensures (forall x :: x in q ==> e <= x.next) && e <= W64 ==> e <= Earliest(q)
  {
    assert q != [] ==> q[0] in q;
    assert forall i :: 0 < i < |q| ==> Before(q[0], q[i]);
  }

  lemma NoWrap(a: nat, b: nat)
    requires a + b < W64
    ensures Sum64(a, b) == a + b
  {
  }

  /** Inserting through `addTimer`: the hook is called for a new first timer, so whenever the minimum moves earlier. */
  lemma InsertWakes(s: State, r: Rec)
    requires Wf(s) && Absent(s.queue, r.addr)
    ensures var t := Insert(s, r);
            && Wf(t)
            && (forall x :: x in t.queue <==> x in s.queue || x == r)
            && (Earliest(t.queue) < Earliest(s.queue) ==> t.tickled)
            && t.prev == s.prev
            && t.queue != [] && (t.tickled <==> s.tickled || t.queue[0] == r)
            && t.calls == if t.queue[0] == r && !s.tickled then s.calls + 1 else s.calls
  {
    PutMembers(s.queue, r);
    PutKeepsOrder(s.queue, r);
    assert Rank(s.queue, r) > 0 ==> s.queue[0] in s.queue;
  }

  /** Taking a timer out never moves the minimum earlier. */
  lemma DropIsLater(q: seq<Rec>, i: nat)
    requires i < |q| && Sorted(q) && Distinct(q)
    ensures Earliest(Drop(q, i)) >= Earliest(q) || Earliest(Drop(q, i)) == W64
  {
    DropMembers(q, i);
    DropKeepsOrder(q, i);
    EarliestIs(q, 0);
    assert Drop(q, i) != [] ==> Drop(q, i)[0] in Drop(q, i);
  }

  lemma AddKeeps(h: Hist, now: nat, r: Rec)
    requires Inv(h) && Legal(h, now, Add(r))
    ensures Inv(Track(h, now, Add(r)))
  {
    var x := r.(next := Sum64(now, r.ms));
    NoWrap(now, r.ms);
    InsertWakes(h.s, x);
  }

  lemma CancelKeeps(h: Hist, now: nat, a: nat)
    requires Inv(h) && Legal(h, now, Cancel(a))
    ensures Inv(Track(h, now, Cancel(a)))
  {
    var i := Find(h.s.queue, a);
    if i < |h.s.queue| {
      DropMembers(h.s.queue, i);
      DropKeepsOrder(h.s.queue, i);
      DropIsLater(h.s.queue, i);
    }
  }

  /** A refresh skips the hook, and may: the deadline of an armed timer only moves later. */
  lemma RefreshKeeps(h: Hist, now: nat, a: nat)
    requires Inv(h) && Legal(h, now, Refresh(a))
    ensures Inv(Track(h, now, Refresh(a)))
    ensures Earliest(Track(h, now, Refresh(a)).s.queue) >= Earliest(h.s.queue)
  {
    var q, i := h.s.queue, Find(h.s.queue, a);
    if i < |q| {
      var r := q[i];
      assert r in q;
      var x := r.(next := Sum64(now, r.ms));
      NoWrap(now, r.ms);
      DropMembers(q, i);
      DropKeepsOrder(q, i);
      PutMembers(Drop(q, i), x);
      PutKeepsOrder(Drop(q, i), x);
      EarliestIs(q, 0);
      EarliestIs(Put(Drop(q, i), x), Earliest(q));
    }
  }

  lemma ReinsertKeeps(h: Hist, now: nat, i: nat, x: Rec)
    requires Inv(h) && h.clock <= now && i < |h.s.queue| && x.addr == h.s.queue[i].addr
    requires x.cb.Some? && x.ms <= x.next < W64 && x.next - x.ms <= now
    ensures Inv(Hist(Insert(h.s.(queue := Drop(h.s.queue, i)), x), now, h.seen, h.base, h.last - {x.addr}))
  {
    var d := h.s.(queue := Drop(h.s.queue, i));
    DropKeepsOrder(h.s.queue, i);
    DropIsLater(h.s.queue, i);
    InsertWakes(d, x);
    var r := Hist(Insert(d, x), now, h.seen, h.base, h.last - {x.addr});
    forall y | y in r.s.queue ensures Armed(r, y) {
      DropMembers(h.s.queue, i);
      assert y == x || y in h.s.queue;
    }
  }

  lemma ResetKeeps(h: Hist, now: nat, a: nat, ms: nat, fromNow: bool)
    requires Inv(h) && Legal(h, now, Reset(a, ms, fromNow))
    ensures Inv(Track(h, now, Reset(a, ms, fromNow)))
  {
    var i := Find(h.s.queue, a);
    if i < |h.s.queue| {
      var r := h.s.queue[i];
      assert r in h.s.queue;
      var start := if fromNow then now else Diff64(r.next, r.ms);
      assert start <= now;
      NoWrap(start, ms);
      ReinsertKeeps(h, now, i, r.(ms := ms, next := Sum64(start, ms)));
    }
  }

  /** Recurring timers go back without a call of the hook, and may: they are due after all that was due. */
  lemma ExpireKeeps(h: Hist, now: nat)
    requires Inv(h) && Legal(h, now, Expire)
    ensures !Rollover(h.s.prev, now)
    ensures Inv(Track(h, now, Expire))
    ensures Earliest(Track(h, now, Expire).s.queue) >= Earliest(h.s.queue)
  {
    var q, q' := h.s.queue, AfterExpire(h.s, now).queue;
    ExpireWf(h.s, now);
    EarliestIs(q, 0);
    forall x | x in q' ensures Armed(Track(h, now, Expire), x) && Earliest(q) <= x.next {
      ExpiredOrNot(h, now, x);
    }
    EarliestIs(q', Earliest(q));
  }

  lemma ExpireWf(s: State, now: nat)
    requires Wf(s)
    ensures Wf(AfterExpire(s, now))
  {
    if Rollover(s.prev, now) {
      ExpireRollover(s, now);
    } else {
      ExpireSplit(s, now);
    }
  }

  lemma ExpiredOrNot(h: Hist, now: nat, x: Rec)
    requires Inv(h) && Legal(h, now, Expire) && x in AfterExpire(h.s, now).queue
    ensures Armed(Track(h, now, Expire), x) && Earliest(h.s.queue) <= x.next
  {
    ExpireSplit(h.s, now);
    if Rearmed(Fired(h.s, now), now, x) {
      RearmedKeeps(h, now, x);
    } else {
      WaitingKeeps(h, now, x);
    }
  }

  lemma RearmedKeeps(h: Hist, now: nat, x: Rec)
    requires Inv(h) && Legal(h, now, Expire)
    requires Rearmed(Fired(h.s, now), now, x)
    ensures Armed(Track(h, now, Expire), x) && Earliest(h.s.queue) <= x.next
  {
    var fired := Fired(h.s, now);
    var y :| y in fired && y.recurring && x == y.(next := Sum64(now, y.ms));
    assert y in h.s.queue;
    EarliestIs(h.s.queue, 0);
    ExpireSplit(h.s, now);
    NoWrap(now, y.ms);
    assert x.addr in FiredAt(fired, now);
  }

  lemma WaitingKeeps(h: Hist, now: nat, x: Rec)
    requires Inv(h) && Legal(h, now, Expire)
    requires x in h.s.queue && x.next > now
    ensures Armed(Track(h, now, Expire), x) && Earliest(h.s.queue) <= x.next
  {
    var q := h.s.queue;
    EarliestIs(q, 0);
    DueIsAll(q, now);
    forall y | y in Fired(h.s, now) ensures y.addr != x.addr {
      assert y.addr == x.addr ==> y == x by {
        if y.addr == x.addr { SameTimer(q, x, y); }
      }
    }
  }

  lemma StepKeeps(h: Hist, now: nat, op: Op)
    requires Inv(h) && Legal(h, now, op)
    ensures Inv(Track(h, now, op))
  {
    match op
    case Add(r) => AddKeeps(h, now, r);
    case Cancel(a) => CancelKeeps(h, now, a);
    case Refresh(a) => RefreshKeeps(h, now, a);
    case Reset(a, ms, f) => ResetKeeps(h, now, a, ms, f);
    case Next => assert h.s.queue != [] ==> h.s.queue[0] in h.s.queue;
    case Expire => ExpireKeeps(h, now);
  }

  datatype Event = Event(now: nat, op: Op)

  function RunTo(h: Hist, evs: seq<Event>): Hist
    decreases |evs|
  {
    if evs == [] then h else RunTo(Track(h, evs[0].now, evs[0].op), evs[1..])
  }

  ghost predicate LegalRun(h: Hist, evs: seq<Event>)
    decreases |evs|
  {
    evs == [] || (Legal(h, evs[0].now, evs[0].op) && LegalRun(Track(h, evs[0].now, evs[0].op), evs[1..]))
  }

  /** Every timer handed out along a run. */
  function FiredAlong(h: Hist, evs: seq<Event>): seq<Rec>
    decreases |evs|
  {
    if evs == [] then []
    else
      (if evs[0].op.Expire? then Fired(h.s, evs[0].now) else []) +
      FiredAlong(Track(h, evs[0].now, evs[0].op), evs[1..])
  }

  lemma {:induction false} RunKeeps(h: Hist, evs: seq<Event>)
    requires Inv(h) && LegalRun(h, evs)
    ensures Inv(RunTo(h, evs))
    decreases |evs|
  {
    if evs != [] {
      StepKeeps(h, evs[0].now, evs[0].op);
      RunKeeps(Track(h, evs[0].now, evs[0].op), evs[1..]);
    }
  }

  /**
   In every run, if the earliest deadline is now before the one that the last
   `getNextTimer` saw, the hook has been called since, exactly once, and the flag says so.
   */
  lemma NoLostWakeup(h: Hist, evs: seq<Event>)
    requires Init(h) && LegalRun(h, evs)
    ensures var e := RunTo(h, evs);
            Earliest(e.s.queue) < e.seen ==> e.s.tickled && e.s.calls == e.base + 1
  {
    RunKeeps(h, evs);
  }

  ghost predicate AddsCallbacks(evs: seq<Event>) {
    forall i :: 0 <= i < |evs| && evs[i].op.Add? ==> evs[i].op.rec.cb.Some?
  }

  /** In every run, also one whose clock goes back, a timer in the queue has a callback. */
  lemma {:induction false} QueuedIsLive(h: Hist, evs: seq<Event>)
    requires AllLive(h.s.queue) && AddsCallbacks(evs)
    ensures AllLive(RunTo(h, evs).s.queue)
    decreases |evs|
  {
    if evs != [] {
      StepLive(h.s, evs[0].now, evs[0].op);
      QueuedIsLive(Track(h, evs[0].now, evs[0].op), evs[1..]);
    }
  }

  /** No timer is handed out early, and a recurring one not before a period has passed since it last fired. */
  lemma NeverEarly(h: Hist, evs: seq<Event>, now: nat, r: Rec)
    requires Init(h) && LegalRun(h, evs)
    requires Legal(RunTo(h, evs), now, Expire) && r in Fired(RunTo(h, evs).s, now)
    ensures !Rollover(RunTo(h, evs).s.prev, now)
    ensures r.next <= now && r.cb.Some?
    ensures r.addr in RunTo(h, evs).last ==> now >= RunTo(h, evs).last[r.addr] + r.ms
  {
    RunKeeps(h, evs);
    var e := RunTo(h, evs);
    ExpireSplit(e.s, now);
    assert Armed(e, r);
  }

  // ---------- the clock that a rollover is measured from

  /** Event `j` of the run is an expiry of a queue that is not empty. */
  ghost predicate Looks(h: Hist, evs: seq<Event>, j: nat)
    requires j < |evs|
  {
    evs[j].op.Expire? && RunTo(h, evs[..j]).s.queue != []
  }

  lemma {:induction false} RunLast(h: Hist, init: seq<Event>, e: Event)
    ensures RunTo(h, init + [e]) == Track(RunTo(h, init), e.now, e.op)
    decreases |init|
  {
    if init == [] {
      assert init + [e] == [e] && [e][1..] == [];
    } else {
      RunLast(Track(h, init[0].now, init[0].op), init[1..], e);
      assert (init + [e])[1..] == init[1..] + [e];
    }
  }

  lemma LookStep(h: Hist, evs: seq<Event>)
    requires evs != []
    ensures var n := |evs| - 1;
            RunTo(h, evs).s.prev == if Looks(h, evs, n) then evs[n].now else RunTo(h, evs[..n]).s.prev
  {
    var n := |evs| - 1;
    assert evs == evs[..n] + [evs[n]];
    RunLast(h, evs[..n], evs[n]);
  }

  /** In every run it is the clock of the last expiry of a queue that was not empty, whatever else was called since. */
  lemma {:induction false} LastLook(h: Hist, evs: seq<Event>, i: int)
    requires -1 <= i < |evs| && (i >= 0 ==> Looks(h, evs, i))
    requires forall j :: i < j < |evs| ==> !Looks(h, evs, j)
    ensures RunTo(h, evs).s.prev == if i >= 0 then evs[i].now else h.s.prev
    decreases |evs|
  {
    if evs != [] {
      var n := |evs| - 1;
      var init := evs[..n];
      LookStep(h, evs);
      if i < n {
        assert !Looks(h, evs, n);
        forall j | 0 <= j < n ensures Looks(h, init, j) <==> Looks(h, evs, j) {
          assert init[..j] == evs[..j];
        }
        LastLook(h, init, i);
      }
    }
  }

  // ---------- a timer that is gone stays gone

  ghost predicate NeverAdded(evs: seq<Event>, addr: nat) {
    forall i :: 0 <= i < |evs| ==> !(evs[i].op.Add? && evs[i].op.rec.addr == addr)
  }

  lemma GoneStep(h: Hist, now: nat, op: Op, addr: nat)
    requires Inv(h) && Legal(h, now, op) && Absent(h.s.queue, addr)
    requires !(op.Add? && op.rec.addr == addr)
    ensures Absent(Apply(h.s, now, op).queue, addr)
    ensures op.Expire? ==> Absent(Fired(h.s, now), addr)
  {
    var q := h.s.queue;
    match op
    case Add(r) => PutMembers(q, r.(next := Sum64(now, r.ms)));
    case Cancel(a) =>
      if Find(q, a) < |q| { DropMembers(q, Find(q, a)); }
    case Refresh(a) =>
      var i := Find(q, a);
      if i < |q| {
        assert q[i] in q;
        DropMembers(q, i);
        PutMembers(Drop(q, i), q[i].(next := Sum64(now, q[i].ms)));
      }
    case Reset(a, ms, fromNow) =>
      var i := Find(q, a);
      if i < |q| {
        assert q[i] in q;
        DropMembers(q, i);
        var start := if fromNow then now else Diff64(q[i].next, q[i].ms);
        PutMembers(Drop(q, i), q[i].(ms := ms, next := Sum64(start, ms)));
      }
    case Next =>
    case Expire => RearmMembers(q[Expiring(h.s, now)..], q[..Expiring(h.s, now)], now);
  }

  /** A timer that is not in the queue is never handed out until an address like its own is added again. */
  lemma {:induction false} GoneStaysGone(h: Hist, evs: seq<Event>, addr: nat)
    requires Inv(h) && LegalRun(h, evs) && Absent(h.s.queue, addr) && NeverAdded(evs, addr)
    ensures Absent(FiredAlong(h, evs), addr)
    decreases |evs|
  {
    if evs != [] {
      var e := evs[0];
      assert forall i :: 0 <= i < |evs[1..]| ==> evs[1..][i] == evs[i + 1];
      GoneStep(h, e.now, e.op, addr);
      StepKeeps(h, e.now, e.op);
      GoneStaysGone(Track(h, e.now, e.op), evs[1..], addr);
    }
  }

  /** A one-shot timer that was handed out is never handed out again. */
  lemma OneShotOnce(h: Hist, now: nat, r: Rec, evs: seq<Event>)
    requires Inv(h) && Legal(h, now, Expire) && r in Fired(h.s, now) && !r.recurring
    requires LegalRun(Track(h, now, Expire), evs) && NeverAdded(evs, r.addr)
    ensures Absent(FiredAlong(Track(h, now, Expire), evs), r.addr)
  {
    var h' := Track(h, now, Expire);
    ExpireSplit(h.s, now);
    assert Absent(h'.s.queue, r.addr) by {
      CutKeepsOrder(h.s.queue, Expiring(h.s, now));
      forall x | x in h'.s.queue ensures x.addr != r.addr {
        OneOfEach(h.s, now, r, x);
      }
    }
    StepKeeps(h, now, Expire);
    GoneStaysGone(h', evs, r.addr);
  }

  lemma OneOfEach(s: State, now: nat, r: Rec, x: Rec)
    requires Wf(s) && !Rollover(s.prev, now)
    requires r in Fired(s, now) && !r.recurring && x in AfterExpire(s, now).queue
    ensures x.addr != r.addr
  {
    ExpireSplit(s, now);
    var q := s.queue;
    var y :| y in q && y.addr == x.addr && (y == x || y.recurring);
    assert y.addr == r.addr ==> y == r by {
      if y.addr == r.addr { SameTimer(q, y, r); }
    }
  }

  /** A timer whose `cancel` returned true is never handed out again. */
  lemma CancelledNeverFires(h: Hist, now: nat, addr: nat, evs: seq<Event>)
    requires Inv(h) && Legal(h, now, Cancel(addr))
    requires LegalRun(Track(h, now, Cancel(addr)), evs) && NeverAdded(evs, addr)
    ensures Absent(FiredAlong(Track(h, now, Cancel(addr)), evs), addr)
  {
    var i := Find(h.s.queue, addr);
    if i < |h.s.queue| {
      assert h.s.queue[i] in h.s.queue;
      DropMembers(h.s.queue, i);
    } else {
      AbsentIs(h.s.queue, addr);
    }
    StepKeeps(h, now, Cancel(addr));
    GoneStaysGone(Track(h, now, Cancel(addr)), evs, addr);
  }

  // ---------- where the 64-bit deadline wraps

  /** A refresh moves an armed timer later, or leaves it, exactly when the new deadline does not wrap. */
  lemma RefreshIsLater(h: Hist, now: nat, r: Rec)
    requires Armed(h, r) && h.clock <= now < W64
    ensures Sum64(now, r.ms) >= r.next <==> now + r.ms < W64
  {
  }

  /** With a wrap a wake-up is lost: the minimum moves earlier and nobody is told. */
  lemma WrapLosesWakeup()
    ensures var s0 := State([], false, 0, 0);
            var s1 := Apply(s0, 5, Add(Rec(1, 0, W64 - 10, false, Some(7))));
            var s2 := Apply(s1, 5, Next);
            var s3 := Apply(s2, 20, Refresh(1));
            Earliest(s2.queue) == W64 - 5 && Earliest(s3.queue) == 10 && !s3.tickled && s3.calls == s2.calls
  {
    var r := Rec(1, W64 - 5, W64 - 10, false, Some(7));
    var s1 := Apply(State([], false, 0, 0), 5, Add(Rec(1, 0, W64 - 10, false, Some(7))));
    assert s1.queue == [r];
    assert Find([r], 1) == 0;
    assert Drop([r], 0) == [];
  }
}
