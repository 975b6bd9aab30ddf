/**
 The timer scheduler of muduo/net/TimerQueue.cc on the loop thread: timers on the heap, two indexes
 over them, one timerfd, and callbacks that may add and cancel timers while their batch runs.
 */
module TimerQueues {
  import opened Bytes

  type Addr = nat       // the address of a Timer; reused after deletion
  type Seq = nat        // its sequence number; never reused
  type Time = int       // microseconds since the epoch

  /** repeat_ is interval_ > 0, and delta the interval in whole microseconds. */
  datatype Timer = Timer(expiration: Time, repeat: bool, delta: nat, sequence: Seq)
  datatype Entry = Entry(when: Time, timer: Addr)
  datatype Alarm = Off | On(deadline: Time, setAt: Time)

  // ---- timers_: a std::set of entries, in order ----

  predicate Less(x: Entry, y: Entry) {
    x.when < y.when || (x.when == y.when && x.timer < y.timer)
  }

  predicate Sorted(ts: seq<Entry>) {
    forall i, j :: 0 <= i < j < |ts| ==> Less(ts[i], ts[j])
  }

  function Inserted(ts: seq<Entry>, e: Entry): seq<Entry> {
    if ts == [] || Less(e, ts[0]) then [e] + ts else [ts[0]] + Inserted(ts[1..], e)
  }

  function Erased(ts: seq<Entry>, e: Entry): seq<Entry> {
    if ts == [] then [] else if ts[0] == e then ts[1..] else [ts[0]] + Erased(ts[1..], e)
  }

  /** lower_bound of (now, the largest address): how many entries are due. */
  function DueCount(ts: seq<Entry>, now: Time): (k: nat)
    ensures k <= |ts|
  {
    if ts == [] || ts[0].when > now then 0 else 1 + DueCount(ts[1..], now)
  }

  lemma {:induction false} InsertedExact(ts: seq<Entry>, e: Entry)
    requires Sorted(ts) && e !in ts
    ensures Sorted(Inserted(ts, e)) && |Inserted(ts, e)| == |ts| + 1
    ensures forall x :: x in Inserted(ts, e) <==> x == e || x in ts
    ensures Inserted(ts, e)[0] == if ts == [] || Less(e, ts[0]) then e else ts[0]
  {
    if ts == [] || Less(e, ts[0]) {
    } else {
      InsertedExact(ts[1..], e);
      var rest := Inserted(ts[1..], e);
      assert Less(ts[0], e);
      forall j | 0 <= j < |rest| ensures Less(ts[0], rest[j]) {
        assert rest[j] in rest;
      }
      assert ts == [ts[0]] + ts[1..];
    }
  }

  lemma {:induction false} ErasedExact(ts: seq<Entry>, e: Entry)
    requires Sorted(ts) && e in ts
    ensures Sorted(Erased(ts, e)) && |Erased(ts, e)| == |ts| - 1
    ensures forall x :: x in Erased(ts, e) <==> x != e && x in ts
  {
    assert ts == [ts[0]] + ts[1..];
    if ts[0] != e {
      ErasedExact(ts[1..], e);
      var rest := Erased(ts[1..], e);
      forall j | 0 <= j < |rest| ensures Less(ts[0], rest[j]) {
        assert rest[j] in rest;
      }
    } else {
      assert forall j :: 0 < j < |ts| ==> ts[j] != e;
    }
  }

  /** The batch is exactly the timers due by now. */
  lemma {:induction false} DueExact(ts: seq<Entry>, now: Time)
    requires Sorted(ts)
    ensures var k := DueCount(ts, now);
            && (forall i :: 0 <= i < k ==> ts[i].when <= now)
            && (forall i :: k <= i < |ts| ==> ts[i].when > now)
  {
    if ts != [] && ts[0].when <= now {
      DueExact(ts[1..], now);
      var k := DueCount(ts[1..], now);
      assert forall i :: 0 < i < |ts| ==> ts[i] == ts[1..][i - 1];
    }
  }

  // ---- the queue ----

  datatype Queue = Queue(
    heap: map<Addr, Timer>,          // timers not yet deleted
    inbox: set<Addr>,                // created, their addTimerInLoop not yet run
    timers: seq<Entry>,              // timers_
    active: set<(Addr, Seq)>,        // activeTimers_
    calling: bool,                   // callingExpiredTimers_
    canceling: set<(Addr, Seq)>,     // cancelingTimers_
    expired: seq<Entry>,             // the batch in hand
    next: nat,                       // how many of it have run
    now: Time,                       // the time the batch was taken
    alarm: Alarm,                    // timerfd_
    lastSeq: Seq,
    batch: nat,                      // history: batches begun
    runs: seq<(Seq, nat)>,           // history: which timer ran in which batch
    begun: nat,                      // history: how many runs preceded the batch in hand
    born: map<Seq, Addr>,            // history: timers created, and where
    deleted: multiset<Seq>,          // history: timers deleted
    cancelled: map<Seq, nat>)        // history: inserted timers cancelled, and the batch begun last by then

  datatype Step =
    | New(a: Addr, when: Time, repeat: bool, delta: nat)  // addTimer: any thread
    | Add(a: Addr, clock: Time)                           // addTimerInLoop
    | Cancel(a: Addr, q: Seq)                             // cancelInLoop
    | Begin(now: Time, fired: bool)                       // handleRead up to the first callback; fired: the read succeeded
    | RunNext
    | End(clock: Time)                                    // handleRead after the last callback

  predicate Enabled(s: Queue, step: Step) {
    match step
    case New(a, _, _, _) => a !in s.heap
    case Add(a, _) => a in s.inbox && a in s.heap
    case Cancel(_, _) => true
    case Begin(_, _) => !s.calling
    case RunNext => s.calling && s.next < |s.expired|
    case End(_) => s.calling && s.next == |s.expired|
  }

  /** howMuchTimeFromNow: seconds and nanoseconds, never less than 100 microseconds. */
  function HowMuchTimeFromNow(when: Time, clock: Time): (nat, nat) {
    var microseconds := if when - clock < 100 then 100 else when - clock;
    (microseconds / 1_000_000, microseconds % 1_000_000 * 1000)
  }

  /** resetTimerfd. */
  function Armed(when: Time, clock: Time): Alarm {
    var (sec, nsec) := HowMuchTimeFromNow(when, clock);
    On(clock + sec * 1_000_000 + nsec / 1000, clock)
  }

  /** The relative time is a proper timespec, never zero (which would disarm), and ends at the later of when and clock + 100. */
  lemma ArmedExact(when: Time, clock: Time)
    ensures var (sec, nsec) := HowMuchTimeFromNow(when, clock); nsec < 1_000_000_000 && sec + nsec > 0
    ensures Armed(when, clock) == On(if when < clock + 100 then clock + 100 else when, clock)
  {
    var m := if when - clock < 100 then 100 else when - clock;
    assert m % 1_000_000 * 1000 / 1000 == m % 1_000_000;
  }

  predicate Earliest(ts: seq<Entry>, when: Time) {
    ts == [] || when < ts[0].when
  }

  /** insert() of a timer on the heap. */
  function AfterInsert(s: Queue, a: Addr): Queue
    requires a in s.heap
  {
    s.(timers := Inserted(s.timers, Entry(s.heap[a].expiration, a)), active := s.active + {(a, s.heap[a].sequence)})
  }

  function AfterDelete(s: Queue, a: Addr): Queue
    requires a in s.heap
  {
    s.(heap := s.heap - {a}, deleted := s.deleted + multiset{s.heap[a].sequence})
  }

  function AfterAdd(s: Queue, a: Addr, clock: Time): Queue
    requires a in s.heap
  {
    var s1 := AfterInsert(s.(inbox := s.inbox - {a}), a);
    if Earliest(s.timers, s.heap[a].expiration) then s1.(alarm := Armed(s.heap[a].expiration, clock)) else s1
  }

  function Addrs(ts: seq<Entry>): set<Addr> {
    set e | e in ts :: e.timer
  }

  /** Does this id name a timer of the batch in hand? */
  predicate InBatch(s: Queue, a: Addr, q: Seq) {
    a in s.heap && s.heap[a].sequence == q && a in Addrs(s.expired)
  }

  function AfterCancel(s: Queue, a: Addr, q: Seq): Queue {
    if (a, q) in s.active && a in s.heap then
      AfterDelete(s.(timers := Erased(s.timers, Entry(s.heap[a].expiration, a)), active := s.active - {(a, q)},
                cancelled := s.cancelled[q := s.batch]), a)
    else if s.calling then
      s.(canceling := s.canceling + {(a, q)}, cancelled := if InBatch(s, a, q) then s.cancelled[q := s.batch] else s.cancelled)
    else s
  }

  /** The keys in activeTimers_ of a list of entries. */
  function Keys(heap: map<Addr, Timer>, ts: seq<Entry>): set<(Addr, Seq)> {
    set i | 0 <= i < |ts| && ts[i].timer in heap :: (ts[i].timer, heap[ts[i].timer].sequence)
  }

  function AfterBegin(s: Queue, now: Time, fired: bool): Queue {
    var k := DueCount(s.timers, now);
    s.(alarm := if fired then Off else s.alarm,
       expired := s.timers[..k], timers := s.timers[k..], active := s.active - Keys(s.heap, s.timers[..k]),
       calling := true, canceling := {}, next := 0, now := now, batch := s.batch + 1, begun := |s.runs|)
  }

  /** One round of reset(): restart and insert again, or delete. */
  function ResetOne(s: Queue): Queue
    requires s.expired != []
  {
    var a, s1 := s.expired[0].timer, s.(expired := s.expired[1..]);
    if a !in s.heap then s1
    else
      var t := s.heap[a];
      if t.repeat && (a, t.sequence) !in s.canceling
      then AfterInsert(s1.(heap := s.heap[a := t.(expiration := s.now + t.delta)]), a)
      else AfterDelete(s1, a)
  }

  function ResetAll(s: Queue): Queue
    decreases |s.expired|
  {
    if s.expired == [] then s else ResetAll(ResetOne(s))
  }

  function AfterEnd(s: Queue, clock: Time): Queue {
    var s1 := ResetAll(s.(calling := false, next := 0));
    s1.(alarm := SetAfter(s1.alarm, s1.timers, clock))
  }

  /** The number of the timer found at the address of the batch's next entry; 0 if its memory has been freed. */
  function Running(s: Queue): Seq
    requires s.next < |s.expired|
  {
    var a := s.expired[s.next].timer;
    if a in s.heap then s.heap[a].sequence else 0
  }

  function After(s: Queue, step: Step): Queue
    requires Enabled(s, step)
  {
    match step
    case New(a, when, repeat, delta) =>
      s.(heap := s.heap[a := Timer(when, repeat, delta, s.lastSeq + 1)], lastSeq := s.lastSeq + 1, inbox := s.inbox + {a},
         born := s.born[s.lastSeq + 1 := a])
    case Add(a, clock) => AfterAdd(s, a, clock)
    case Cancel(a, q) => AfterCancel(s, a, q)
    case Begin(now, fired) => AfterBegin(s, now, fired)
    case RunNext => s.(runs := s.runs + [(Running(s), s.batch)], next := s.next + 1)
    case End(clock) => AfterEnd(s, clock)
  }

  const EMPTY: Queue := Queue(map[], {}, [], {}, false, {}, [], 0, 0, Off, 0, 0, [], 0, map[], multiset{}, map[])

  predicate Legal(s: Queue, run: seq<Step>)
    decreases run
  {
    run == [] || (Enabled(s, run[0]) && Legal(After(s, run[0]), run[1..]))
  }

  function Final(s: Queue, run: seq<Step>): Queue
    requires Legal(s, run)
    decreases run
  {
    if run == [] then s else Final(After(s, run[0]), run[1..])
  }

  // ---- what every step keeps ----

  /** The two indexes hold the same timers, live and under their current expiration. */
  ghost predicate Indexed(heap: map<Addr, Timer>, timers: seq<Entry>, active: set<(Addr, Seq)>) {
    && Sorted(timers)
    && |active| == |timers|
    && (forall e :: e in timers ==> e.timer in heap && heap[e.timer].expiration == e.when)
    && (forall a, q :: (a, q) in active <==> a in heap && heap[a].sequence == q && Entry(heap[a].expiration, a) in timers)
  }

  predicate Distinct(ts: seq<Entry>) {
    forall i, j :: 0 <= i < j < |ts| ==> ts[i].timer != ts[j].timer
  }

  /** Every live timer is in exactly one place. */
  predicate Partitioned(heap: map<Addr, Timer>, inbox: set<Addr>, timers: seq<Entry>, expired: seq<Entry>) {
    && heap.Keys == inbox + Addrs(timers) + Addrs(expired)
    && inbox !! Addrs(timers)
    && inbox !! Addrs(expired)
    && Addrs(timers) !! Addrs(expired)
    && Distinct(expired)
  }

  predicate Live(heap: map<Addr, Timer>, born: map<Seq, Addr>, q: Seq) {
    q in born && born[q] in heap && heap[born[q]].sequence == q
  }

  /** A live timer has the number it was created with; a created timer is live or was deleted, once. */
  ghost predicate Numbered(heap: map<Addr, Timer>, born: map<Seq, Addr>, deleted: multiset<Seq>, lastSeq: Seq) {
    && (forall a :: a in heap ==> Live(heap, born, heap[a].sequence) && born[heap[a].sequence] == a)
    && (forall q :: q in born <==> 1 <= q <= lastSeq)
    && (forall q :: deleted[q] == if q in born && !Live(heap, born, q) then 1 else 0)
  }

  /** A cancelled timer that is still live is in the batch in hand; just those of the batch are marked not to be restarted. */
  predicate Cancelled(heap: map<Addr, Timer>, expired: seq<Entry>, canceling: set<(Addr, Seq)>, cancelled: map<Seq, nat>,
                      batch: nat, lastSeq: Seq) {
    && (forall q :: q in cancelled ==> cancelled[q] <= batch && 1 <= q <= lastSeq)
    && (forall a :: a in heap && heap[a].sequence in cancelled ==>
          a in Addrs(expired) && cancelled[heap[a].sequence] == batch)
    && (forall a :: a in heap && a in Addrs(expired) ==>
          ((a, heap[a].sequence) in canceling <==> heap[a].sequence in cancelled))
  }

  /** No freed memory was run, and no timer in a batch later than the one it was cancelled by. */
  predicate Silenced(runs: seq<(Seq, nat)>, cancelled: map<Seq, nat>, batch: nat) {
    forall i :: 0 <= i < |runs| ==>
      && runs[i].0 >= 1 && runs[i].1 <= batch
      && (runs[i].0 in cancelled ==> runs[i].1 <= cancelled[runs[i].0])
  }

  /** The runs since the batch began are those of its first timers, in its order. */
  predicate RunInOrder(heap: map<Addr, Timer>, expired: seq<Entry>, next: nat, runs: seq<(Seq, nat)>, begun: nat, batch: nat) {
    && next <= |expired|
    && |runs| == begun + next
    && forall i :: 0 <= i < next ==>
         expired[i].timer in heap && runs[begun + i] == (heap[expired[i].timer].sequence, batch)
  }

  ghost predicate Core(s: Queue) {
    && Indexed(s.heap, s.timers, s.active)
    && Partitioned(s.heap, s.inbox, s.timers, s.expired)
    && Numbered(s.heap, s.born, s.deleted, s.lastSeq)
    && Cancelled(s.heap, s.expired, s.canceling, s.cancelled, s.batch, s.lastSeq)
    && Silenced(s.runs, s.cancelled, s.batch)
  }

  ghost predicate Inv(s: Queue) {
    && Core(s)
    && (!s.calling ==> s.expired == [])
    && (s.calling ==> RunInOrder(s.heap, s.expired, s.next, s.runs, s.begun, s.batch))
  }

  // ---- the indexes ----

  /** insert() of a live timer that is in neither index. */
  lemma InsertKeepsIndexed(heap: map<Addr, Timer>, timers: seq<Entry>, active: set<(Addr, Seq)>, a: Addr)
    requires Indexed(heap, timers, active) && a in heap && a !in Addrs(timers)
    ensures var e := Entry(heap[a].expiration, a);
            && Indexed(heap, Inserted(timers, e), active + {(a, heap[a].sequence)})
            && Addrs(Inserted(timers, e)) == Addrs(timers) + {a}
  {
    var e := Entry(heap[a].expiration, a);
    assert e in timers ==> e.timer in Addrs(timers);
    InsertedExact(timers, e);
    assert (a, heap[a].sequence) !in active;
  }

  /** cancelInLoop() of an active timer: the entry is found, and both indexes lose that timer alone. */
  lemma EraseKeepsIndexed(heap: map<Addr, Timer>, timers: seq<Entry>, active: set<(Addr, Seq)>, a: Addr, q: Seq)
    requires Indexed(heap, timers, active) && (a, q) in active
    ensures a in heap && heap[a].sequence == q && Entry(heap[a].expiration, a) in timers
    ensures var e := Entry(heap[a].expiration, a);
            && Indexed(heap - {a}, Erased(timers, e), active - {(a, q)})
            && Addrs(Erased(timers, e)) == Addrs(timers) - {a}
            && a in Addrs(timers)
  {
    var e := Entry(heap[a].expiration, a);
    ErasedExact(timers, e);
    forall x | x in timers && x.timer == a ensures x == e {
    }
  }

  /** getExpired(): the indexes both lose the first k entries. */
  lemma {:induction false} SplitKeepsIndexed(heap: map<Addr, Timer>, timers: seq<Entry>, active: set<(Addr, Seq)>, k: nat)
    requires Indexed(heap, timers, active) && k <= |timers|
    ensures Keys(heap, timers[..k]) <= active
    ensures Indexed(heap, timers[k..], active - Keys(heap, timers[..k]))
    decreases k
  {
    if k == 0 {
      assert timers[0..] == timers;
      assert active - Keys(heap, timers[..0]) == active;
    } else {
      SplitKeepsIndexed(heap, timers, active, k - 1);
      var rest, before := timers[k - 1..], Keys(heap, timers[..k - 1]);
      DropFirst(heap, rest, active - before);
      var key := (rest[0].timer, heap[rest[0].timer].sequence);
      TakeNext(heap, timers, k);
      DropBoth(active, before, key);
      assert rest[1..] == timers[k..];
    }
  }

  lemma DropBoth(active: set<(Addr, Seq)>, before: set<(Addr, Seq)>, key: (Addr, Seq))
    requires before <= active && key in active
    ensures before + {key} <= active && active - (before + {key}) == active - before - {key}
  {
  }

  /** One round of the loop in getExpired(): erasing the key of the first entry finds it. */
  lemma DropFirst(heap: map<Addr, Timer>, timers: seq<Entry>, active: set<(Addr, Seq)>)
    requires Indexed(heap, timers, active) && timers != []
    ensures timers[0].timer in heap && (timers[0].timer, heap[timers[0].timer].sequence) in active
    ensures Indexed(heap, timers[1..], active - {(timers[0].timer, heap[timers[0].timer].sequence)})
  {
    assert timers[0] in timers;
    assert timers == [timers[0]] + timers[1..];
    forall x | x in timers[1..] ensures x in timers && x.timer != timers[0].timer {
      var i :| 0 <= i < |timers[1..]| && timers[1..][i] == x;
      assert Less(timers[0], timers[i + 1]);
    }
  }

  lemma TakeNext(heap: map<Addr, Timer>, timers: seq<Entry>, k: nat)
    requires 0 < k <= |timers| && timers[k - 1].timer in heap
    ensures Keys(heap, timers[..k]) ==
            Keys(heap, timers[..k - 1]) + {(timers[k - 1].timer, heap[timers[k - 1].timer].sequence)}
  {
    assert timers[..k] == timers[..k - 1] + [timers[k - 1]];
    var key := (timers[k - 1].timer, heap[timers[k - 1].timer].sequence);
    assert timers[..k][k - 1].timer in heap;
    forall x | x in Keys(heap, timers[..k - 1]) ensures x in Keys(heap, timers[..k]) {
      var i :| 0 <= i < k - 1 && timers[i].timer in heap && x == (timers[i].timer, heap[timers[i].timer].sequence);
      assert timers[..k][i] == timers[i];
    }
    forall x | x in Keys(heap, timers[..k]) ensures x in Keys(heap, timers[..k - 1]) + {key} {
      var i :| 0 <= i < k && timers[..k][i].timer in heap && x == (timers[..k][i].timer, heap[timers[..k][i].timer].sequence);
      if i < k - 1 {
        assert timers[..k - 1][i] == timers[i];
      }
    }
  }

  /** Cutting a list in two cuts its addresses in two. */
  lemma SplitAddrs(heap: map<Addr, Timer>, timers: seq<Entry>, active: set<(Addr, Seq)>, k: nat)
    requires Indexed(heap, timers, active) && k <= |timers|
    ensures Addrs(timers) == Addrs(timers[..k]) + Addrs(timers[k..]) && Addrs(timers[..k]) !! Addrs(timers[k..])
    ensures Distinct(timers)
  {
    forall i, j | 0 <= i < j < |timers| ensures timers[i].timer != timers[j].timer {
      assert Less(timers[i], timers[j]) && timers[i] in timers && timers[j] in timers;
    }
    assert timers == timers[..k] + timers[k..];
    forall x, y | x in timers[..k] && y in timers[k..] ensures x.timer != y.timer {
      var i :| 0 <= i < k && timers[i] == x;
      var j :| 0 <= j < |timers[k..]| && timers[k..][j] == y;
      assert timers[k + j] == y;
    }
  }

  // ---- creating, marking and deleting a timer ----

  lemma NewKeepsNumbered(heap: map<Addr, Timer>, born: map<Seq, Addr>, deleted: multiset<Seq>, lastSeq: Seq,
                         a: Addr, t: Timer)
    requires Numbered(heap, born, deleted, lastSeq) && a !in heap && t.sequence == lastSeq + 1
    ensures Numbered(heap[a := t], born[lastSeq + 1 := a], deleted, lastSeq + 1)
  {
    var born1 := born[lastSeq + 1 := a];
    forall q ensures deleted[q] == if q in born1 && !Live(heap[a := t], born1, q) then 1 else 0 {
    }
  }

  lemma DeleteKeepsNumbered(heap: map<Addr, Timer>, born: map<Seq, Addr>, deleted: multiset<Seq>, lastSeq: Seq, a: Addr)
    requires Numbered(heap, born, deleted, lastSeq) && a in heap
    ensures Numbered(heap - {a}, born, deleted + multiset{heap[a].sequence}, lastSeq)
  {
    forall q ensures (deleted + multiset{heap[a].sequence})[q] == if q in born && !Live(heap - {a}, born, q) then 1 else 0 {
      if Live(heap, born, q) {
        assert q == heap[a].sequence <==> born[q] == a;
      }
    }
  }

  lemma RestartKeepsNumbered(heap: map<Addr, Timer>, born: map<Seq, Addr>, deleted: multiset<Seq>, lastSeq: Seq,
                             a: Addr, t: Timer)
    requires Numbered(heap, born, deleted, lastSeq) && a in heap && t.sequence == heap[a].sequence
    ensures Numbered(heap[a := t], born, deleted, lastSeq)
  {
    forall q ensures Live(heap[a := t], born, q) == Live(heap, born, q) {
    }
  }

  predicate AgreeOff(heap: map<Addr, Timer>, heap1: map<Addr, Timer>, a: Addr) {
    && heap1.Keys - {a} == heap.Keys - {a}
    && forall b :: b in heap && b != a ==> b in heap1 && heap1[b] == heap[b]
  }

  /** What happens to a timer in neither index does not touch them. */
  lemma OthersKeepIndexed(heap: map<Addr, Timer>, heap1: map<Addr, Timer>, timers: seq<Entry>, active: set<(Addr, Seq)>, a: Addr)
    requires Indexed(heap, timers, active) && AgreeOff(heap, heap1, a) && a !in Addrs(timers)
    ensures Indexed(heap1, timers, active)
  {
    forall e | e in timers ensures e.timer != a && e.timer in heap1 && heap1[e.timer].expiration == e.when {
      assert e.timer in Addrs(timers);
    }
    forall b, q ensures (b, q) in active <==> b in heap1 && heap1[b].sequence == q && Entry(heap1[b].expiration, b) in timers {
      assert b == a ==> forall w :: Entry(w, b).timer == b;
      assert b in heap1 && b != a ==> b in heap1.Keys - {a};
    }
  }

  lemma NewKeepsCancelled(s: Queue, a: Addr, t: Timer)
    requires Cancelled(s.heap, s.expired, s.canceling, s.cancelled, s.batch, s.lastSeq)
    requires a !in s.heap && a !in Addrs(s.expired) && t.sequence == s.lastSeq + 1
    ensures Cancelled(s.heap[a := t], s.expired, s.canceling, s.cancelled, s.batch, s.lastSeq + 1)
  {
  }

  lemma OthersKeepOrder(heap: map<Addr, Timer>, heap1: map<Addr, Timer>, expired: seq<Entry>, next: nat,
                        runs: seq<(Seq, nat)>, begun: nat, batch: nat, a: Addr)
    requires RunInOrder(heap, expired, next, runs, begun, batch) && AgreeOff(heap, heap1, a) && a !in Addrs(expired)
    ensures RunInOrder(heap1, expired, next, runs, begun, batch)
  {
    forall i | 0 <= i < next ensures expired[i].timer in heap1 && heap1[expired[i].timer] == heap[expired[i].timer] {
      assert expired[i] in expired;
    }
  }

  lemma NewKeepsInv(s: Queue, step: Step)
    requires Inv(s) && step.New? && Enabled(s, step)
    ensures Inv(After(s, step))
  {
    var s1, a := After(s, step), step.a;
    var t := s1.heap[a];
    OthersKeepIndexed(s.heap, s1.heap, s.timers, s.active, a);
    NewKeepsNumbered(s.heap, s.born, s.deleted, s.lastSeq, a, t);
    NewKeepsCancelled(s, a, t);
    if s.calling {
      OthersKeepOrder(s.heap, s1.heap, s.expired, s.next, s.runs, s.begun, s.batch, a);
    }
  }

  lemma AddKeepsIndexes(s: Queue, a: Addr)
    requires Indexed(s.heap, s.timers, s.active) && Partitioned(s.heap, s.inbox, s.timers, s.expired) && a in s.inbox
    ensures a in s.heap
    ensures var ts := Inserted(s.timers, Entry(s.heap[a].expiration, a));
            && Indexed(s.heap, ts, s.active + {(a, s.heap[a].sequence)})
            && Partitioned(s.heap, s.inbox - {a}, ts, s.expired)
  {
    InsertKeepsIndexed(s.heap, s.timers, s.active, a);
  }

  lemma AddKeepsInv(s: Queue, step: Step)
    requires Inv(s) && step.Add? && Enabled(s, step)
    ensures Inv(After(s, step))
  {
    var a, s1 := step.a, After(s, step);
    AddKeepsIndexes(s, a);
    assert s1 == s.(inbox := s.inbox - {a}, timers := Inserted(s.timers, Entry(s.heap[a].expiration, a)),
                    active := s.active + {(a, s.heap[a].sequence)}, alarm := s1.alarm);
  }

  /** Cancelling an active timer. */
  lemma CancelActiveKeepsInv(s: Queue, a: Addr, q: Seq)
    requires Inv(s) && (a, q) in s.active
    ensures Inv(AfterCancel(s, a, q))
  {
    var s1 := AfterCancel(s, a, q);
    EraseKeepsIndexed(s.heap, s.timers, s.active, a, q);
    DeleteKeepsNumbered(s.heap, s.born, s.deleted, s.lastSeq, a);
    EraseKeepsCancelled(s, a, q);
    if s.calling {
      OthersKeepOrder(s.heap, s1.heap, s.expired, s.next, s.runs, s.begun, s.batch, a);
    }
  }

  lemma EraseKeepsCancelled(s: Queue, a: Addr, q: Seq)
    requires Cancelled(s.heap, s.expired, s.canceling, s.cancelled, s.batch, s.lastSeq)
    requires Numbered(s.heap, s.born, s.deleted, s.lastSeq) && a in s.heap && s.heap[a].sequence == q
    ensures Cancelled(s.heap - {a}, s.expired, s.canceling, s.cancelled[q := s.batch], s.batch, s.lastSeq)
  {
    assert Live(s.heap, s.born, q);
    forall b | b in s.heap && s.heap[b].sequence == q ensures b == a {
      assert Live(s.heap, s.born, s.heap[b].sequence);
    }
  }

  /** Cancelling a timer of the batch in hand, or one that is no longer there. */
  lemma CancelInBatchKeepsInv(s: Queue, a: Addr, q: Seq)
    requires Inv(s) && (a, q) !in s.active
    ensures Inv(AfterCancel(s, a, q))
  {
    if s.calling && InBatch(s, a, q) {
      assert Live(s.heap, s.born, q);
      forall b | b in s.heap && s.heap[b].sequence == q ensures b == a {
        assert Live(s.heap, s.born, s.heap[b].sequence);
      }
    }
  }

  lemma BeginKeepsInv(s: Queue, step: Step)
    requires Inv(s) && step.Begin? && Enabled(s, step)
    ensures Inv(After(s, step))
  {
    var k, s1 := DueCount(s.timers, step.now), After(s, step);
    SplitKeepsIndexed(s.heap, s.timers, s.active, k);
    assert Indexed(s1.heap, s1.timers, s1.active);
    SplitKeepsPartitioned(s, k);
    BeginKeepsCancelled(s, s1.expired);
  }

  lemma SplitKeepsPartitioned(s: Queue, k: nat)
    requires Partitioned(s.heap, s.inbox, s.timers, []) && Indexed(s.heap, s.timers, s.active) && k <= |s.timers|
    ensures Partitioned(s.heap, s.inbox, s.timers[k..], s.timers[..k])
  {
    SplitAddrs(s.heap, s.timers, s.active, k);
    assert Addrs([]) == {};
  }

  /** Before a batch no live timer has been cancelled, so none of the batch has. */
  lemma BeginKeepsCancelled(s: Queue, expired: seq<Entry>)
    requires Cancelled(s.heap, [], s.canceling, s.cancelled, s.batch, s.lastSeq)
    ensures Cancelled(s.heap, expired, {}, s.cancelled, s.batch + 1, s.lastSeq)
  {
    assert Addrs([]) == {};
  }

  /** A timer of the batch in hand has not been deleted. */
  lemma BatchTimerIsLive(s: Queue, i: nat)
    requires Core(s) && i < |s.expired|
    ensures var a := s.expired[i].timer;
            a in s.heap && a in Addrs(s.expired) && Live(s.heap, s.born, s.heap[a].sequence) && s.deleted[s.heap[a].sequence] == 0
            && s.heap[a].sequence >= 1
  {
    assert s.expired[i] in s.expired;
  }

  lemma RunNextKeepsInv(s: Queue)
    requires Inv(s) && Enabled(s, RunNext)
    ensures Inv(After(s, RunNext))
  {
    BatchTimerIsLive(s, s.next);
  }

  // ---- reset() ----

  lemma FirstOut(expired: seq<Entry>)
    requires Distinct(expired) && expired != []
    ensures Addrs(expired) == {expired[0].timer} + Addrs(expired[1..])
    ensures expired[0].timer !in Addrs(expired[1..]) && Distinct(expired[1..])
  {
    assert expired == [expired[0]] + expired[1..];
    forall e | e in expired[1..] ensures e.timer != expired[0].timer {
      var i :| 0 <= i < |expired[1..]| && expired[1..][i] == e;
      assert expired[i + 1] == e;
    }
  }

  lemma RestartKeepsCore(s: Queue)
    requires Core(s) && s.expired != [] && s.expired[0].timer in s.heap
    requires var t := s.heap[s.expired[0].timer]; t.repeat && (s.expired[0].timer, t.sequence) !in s.canceling
    ensures Core(ResetOne(s))
  {
    var a := s.expired[0].timer;
    var t := s.heap[a].(expiration := s.now + s.heap[a].delta);
    var s1 := s.(expired := s.expired[1..], heap := s.heap[a := t], timers := Inserted(s.timers, Entry(t.expiration, a)),
                 active := s.active + {(a, t.sequence)});
    assert ResetOne(s) == s1;
    assert s.expired[0] in s.expired && a in Addrs(s.expired);
    RestartKeepsIndexed(s.heap, s.timers, s.active, a, t);
    RestartKeepsNumbered(s.heap, s.born, s.deleted, s.lastSeq, a, t);
    RestartKeepsCancelled(s, t);
    RestartKeepsPartitioned(s, t);
    assert Core(s1);
  }

  lemma RestartKeepsIndexed(heap: map<Addr, Timer>, timers: seq<Entry>, active: set<(Addr, Seq)>, a: Addr, t: Timer)
    requires Indexed(heap, timers, active) && a in heap && a !in Addrs(timers)
    ensures Indexed(heap[a := t], Inserted(timers, Entry(t.expiration, a)), active + {(a, t.sequence)})
    ensures Addrs(Inserted(timers, Entry(t.expiration, a))) == Addrs(timers) + {a}
  {
    OthersKeepIndexed(heap, heap[a := t], timers, active, a);
    InsertKeepsIndexed(heap[a := t], timers, active, a);
  }

  lemma RestartKeepsPartitioned(s: Queue, t: Timer)
    requires Partitioned(s.heap, s.inbox, s.timers, s.expired) && s.expired != []
    requires var a := s.expired[0].timer; Addrs(Inserted(s.timers, Entry(t.expiration, a))) == Addrs(s.timers) + {a}
    ensures var a := s.expired[0].timer;
            Partitioned(s.heap[a := t], s.inbox, Inserted(s.timers, Entry(t.expiration, a)), s.expired[1..])
  {
    FirstOut(s.expired);
  }

  lemma RestartKeepsCancelled(s: Queue, t: Timer)
    requires Cancelled(s.heap, s.expired, s.canceling, s.cancelled, s.batch, s.lastSeq) && s.expired != [] && Distinct(s.expired)
    requires var a := s.expired[0].timer; a in s.heap && t.sequence == s.heap[a].sequence && (a, t.sequence) !in s.canceling
    ensures Cancelled(s.heap[s.expired[0].timer := t], s.expired[1..], s.canceling, s.cancelled, s.batch, s.lastSeq)
  {
    FirstOut(s.expired);
  }

  lemma DeleteKeepsCore(s: Queue)
    requires Core(s) && s.expired != [] && s.expired[0].timer in s.heap
    requires var t := s.heap[s.expired[0].timer]; !(t.repeat && (s.expired[0].timer, t.sequence) !in s.canceling)
    ensures Core(ResetOne(s))
  {
    var a := s.expired[0].timer;
    FirstOut(s.expired);
    OthersKeepIndexed(s.heap, s.heap - {a}, s.timers, s.active, a);
    DeleteKeepsNumbered(s.heap, s.born, s.deleted, s.lastSeq, a);
  }

  lemma ResetOneKeepsCore(s: Queue)
    requires Core(s) && s.expired != []
    ensures Core(ResetOne(s)) && s.expired[0].timer in s.heap
  {
    assert s.expired[0] in s.expired;
    var t := s.heap[s.expired[0].timer];
    if t.repeat && (s.expired[0].timer, t.sequence) !in s.canceling {
      RestartKeepsCore(s);
    } else {
      DeleteKeepsCore(s);
    }
  }

  lemma {:induction false} ResetKeepsCore(s: Queue)
    requires Core(s)
    ensures Core(ResetAll(s)) && ResetAll(s).expired == []
    decreases |s.expired|
  {
    if s.expired != [] {
      ResetOneKeepsCore(s);
      ResetKeepsCore(ResetOne(s));
    }
  }

  lemma {:induction false} ResetKeepsFlag(s: Queue)
    ensures var r := ResetAll(s); r.calling == s.calling && r.alarm == s.alarm && r.now == s.now
    decreases |s.expired|
  {
    if s.expired != [] {
      ResetKeepsFlag(ResetOne(s));
    }
  }

  lemma EndKeepsInv(s: Queue, step: Step)
    requires Inv(s) && step.End? && Enabled(s, step)
    ensures Inv(After(s, step))
  {
    ResetKeepsCore(s.(calling := false, next := 0));
    ResetKeepsFlag(s.(calling := false, next := 0));
  }

  lemma StepKeepsInv(s: Queue, step: Step)
    requires Inv(s) && Enabled(s, step)
    ensures Inv(After(s, step))
  {
    match step
    case New(_, _, _, _) => NewKeepsInv(s, step);
    case Add(_, _) => AddKeepsInv(s, step);
    case Cancel(a, q) =>
      if (a, q) in s.active {
        CancelActiveKeepsInv(s, a, q);
      } else {
        CancelInBatchKeepsInv(s, a, q);
      }
    case Begin(_, _) => BeginKeepsInv(s, step);
    case RunNext => RunNextKeepsInv(s);
    case End(_) => EndKeepsInv(s, step);
  }

  lemma {:induction false} RunKeepsInv(s: Queue, run: seq<Step>)
    requires Inv(s) && Legal(s, run)
    ensures Inv(Final(s, run))
    decreases run
  {
    if run != [] {
      StepKeepsInv(s, run[0]);
      RunKeepsInv(After(s, run[0]), run[1..]);
    }
  }

  lemma EmptyInv()
    ensures Inv(EMPTY)
  {
  }

  // ---- over whole runs ----

  /** Both indexes always hold the same live timers under their current expiration, in order and equal in number. */
  lemma IndexesAgree(run: seq<Step>)
    requires Legal(EMPTY, run)
    ensures var s := Final(EMPTY, run);
            && Sorted(s.timers) && |s.timers| == |s.active|
            && (forall a, q :: (a, q) in s.active <==>
                  a in s.heap && s.heap[a].sequence == q && Entry(s.heap[a].expiration, a) in s.timers)
            && (forall e :: e in s.timers ==> e.timer in s.heap && (e.timer, s.heap[e.timer].sequence) in s.active
                                              && s.heap[e.timer].expiration == e.when)
  {
    EmptyInv();
    RunKeepsInv(EMPTY, run);
  }

  /** Every timer created is live, or was deleted exactly once; a live one awaits insertion, is indexed, or is in the batch. */
  lemma DeletedAtMostOnce(run: seq<Step>, q: Seq)
    requires Legal(EMPTY, run)
    ensures var s := Final(EMPTY, run);
            && s.deleted[q] == (if 1 <= q <= s.lastSeq && !Live(s.heap, s.born, q) then 1 else 0)
            && s.heap.Keys == s.inbox + Addrs(s.timers) + Addrs(s.expired)
  {
    EmptyInv();
    RunKeepsInv(EMPTY, run);
  }

  /**
   handleRead never runs freed memory: whenever it comes to an entry of its batch the timer there is live, and no run so
   far was of a freed one.
   */
  lemma NoFreedTimerRuns(run: seq<Step>)
    requires Legal(EMPTY, run)
    ensures var s := Final(EMPTY, run);
            && (s.calling && s.next < |s.expired| ==>
                  s.expired[s.next].timer in s.heap && Running(s) >= 1 && s.deleted[Running(s)] == 0)
            && forall i :: 0 <= i < |s.runs| ==> s.runs[i].0 >= 1
  {
    EmptyInv();
    RunKeepsInv(EMPTY, run);
    var s := Final(EMPTY, run);
    if s.calling && s.next < |s.expired| {
      BatchTimerIsLive(s, s.next);
    }
  }

  lemma {:induction false} ResetRevivesNone(s: Queue, q: Seq)
    requires Core(s) && q in s.born && !Live(s.heap, s.born, q)
    ensures var r := ResetAll(s); r.born == s.born && r.runs == s.runs && r.cancelled == s.cancelled && !Live(r.heap, r.born, q)
    decreases |s.expired|
  {
    if s.expired != [] {
      ResetOneKeepsCore(s);
      ResetRevivesNone(ResetOne(s), q);
    }
  }

  /** Timer q is not among the runs added. */
  predicate NotRunSince(before: seq<(Seq, nat)>, after: seq<(Seq, nat)>, q: Seq) {
    before <= after && forall i :: |before| <= i < |after| ==> after[i].0 != q
  }

  lemma DeletedStaysSilent(s: Queue, step: Step, q: Seq)
    requires Inv(s) && Enabled(s, step) && q in s.born && !Live(s.heap, s.born, q)
    ensures var s1 := After(s, step);
            q in s1.born && !Live(s1.heap, s1.born, q) && NotRunSince(s.runs, s1.runs, q)
  {
    match step
    case End(_) => ResetRevivesNone(s.(calling := false, next := 0), q);
    case RunNext => BatchTimerIsLive(s, s.next);
    case _ =>
  }

  /** A deleted timer never runs again, whatever happens, even if its address is given to a new timer. */
  lemma {:induction false} DeletedNeverRuns(s: Queue, rest: seq<Step>, q: Seq)
    requires Inv(s) && Legal(s, rest) && q in s.born && !Live(s.heap, s.born, q)
    ensures NotRunSince(s.runs, Final(s, rest).runs, q)
    decreases rest
  {
    if rest != [] {
      StepKeepsInv(s, rest[0]);
      DeletedStaysSilent(s, rest[0], q);
      DeletedNeverRuns(After(s, rest[0]), rest[1..], q);
    }
  }

  lemma {:induction false} ResetKeepsCancelled(s: Queue)
    ensures ResetAll(s).cancelled == s.cancelled
    decreases |s.expired|
  {
    if s.expired != [] {
      ResetKeepsCancelled(ResetOne(s));
    }
  }

  lemma CancellationStands(s: Queue, step: Step, q: Seq)
    requires Inv(s) && Enabled(s, step) && q in s.cancelled
    ensures q in After(s, step).cancelled && After(s, step).cancelled[q] == s.cancelled[q]
  {
    match step
    case End(_) => ResetKeepsCancelled(s.(calling := false, next := 0));
    case Cancel(a, q1) =>
      if (a, q1) in s.active {
        assert Entry(s.heap[a].expiration, a) in s.timers && a in Addrs(s.timers);
      }
    case _ =>
  }

  lemma {:induction false} CancellationLasts(s: Queue, rest: seq<Step>, q: Seq)
    requires Inv(s) && Legal(s, rest) && q in s.cancelled
    ensures Inv(Final(s, rest)) && q in Final(s, rest).cancelled && Final(s, rest).cancelled[q] == s.cancelled[q]
    decreases rest
  {
    if rest != [] {
      StepKeepsInv(s, rest[0]);
      CancellationStands(s, rest[0], q);
      CancellationLasts(After(s, rest[0]), rest[1..], q);
    }
  }

  /**
   A timer that was inserted and is then cancelled, between batches or by a callback of its own batch, runs in no
   later batch; one cancelled before its batch was taken does not run at all any more.
   */
  lemma CancelledRunsInNoLaterBatch(run: seq<Step>, a: Addr, q: Seq, rest: seq<Step>)
    requires Legal(EMPTY, run)
    requires var s := Final(EMPTY, run); (a, q) in s.active || (s.calling && InBatch(s, a, q))
    requires Legal(AfterCancel(Final(EMPTY, run), a, q), rest)
    ensures var s := Final(EMPTY, run); var s1 := Final(AfterCancel(s, a, q), rest);
            && (forall i :: 0 <= i < |s1.runs| && s1.runs[i].0 == q ==> s1.runs[i].1 <= s.batch)
            && ((a, q) in s.active ==> NotRunSince(s.runs, s1.runs, q))
  {
    EmptyInv();
    RunKeepsInv(EMPTY, run);
    var s := Final(EMPTY, run);
    StepKeepsInv(s, Cancel(a, q));
    CancellationLasts(AfterCancel(s, a, q), rest, q);
    if (a, q) in s.active {
      EraseKeepsIndexed(s.heap, s.timers, s.active, a, q);
      assert Live(s.heap, s.born, q);
      DeletedNeverRuns(AfterCancel(s, a, q), rest, q);
    }
  }

  /** How many batches a run begins. */
  function Begins(run: seq<Step>): nat {
    if run == [] then 0 else (if run[0].Begin? then 1 else 0) + Begins(run[1..])
  }

  /** For each callback of a run, how many batches had begun by then, n of them before the run. */
  function BatchesOfRuns(n: nat, run: seq<Step>): seq<nat>
    decreases run
  {
    if run == [] then []
    else if run[0].RunNext? then [n] + BatchesOfRuns(n, run[1..])
    else BatchesOfRuns(if run[0].Begin? then n + 1 else n, run[1..])
  }

  predicate BatchesAre(runs: seq<(Seq, nat)>, batches: seq<nat>) {
    |runs| == |batches| && forall i :: 0 <= i < |runs| ==> runs[i].1 == batches[i]
  }

  lemma StepCountsBatches(s: Queue, step: Step, batches: seq<nat>)
    requires Enabled(s, step) && BatchesAre(s.runs, batches)
    ensures After(s, step).batch == if step.Begin? then s.batch + 1 else s.batch
    ensures BatchesAre(After(s, step).runs, batches + if step.RunNext? then [s.batch] else [])
  {
    assert batches + [] == batches;
    if step.End? {
      ResetKeepsHistory(s.(calling := false, next := 0));
    }
  }

  lemma {:induction false} ResetKeepsHistory(s: Queue)
    ensures ResetAll(s).batch == s.batch && ResetAll(s).runs == s.runs
    decreases |s.expired|
  {
    if s.expired != [] {
      ResetKeepsHistory(ResetOne(s));
    }
  }

  /** The batches that the history speaks of are the Begin steps of the run. */
  lemma {:induction false} BatchesCounted(s: Queue, run: seq<Step>, batches: seq<nat>)
    requires Legal(s, run) && BatchesAre(s.runs, batches)
    ensures Final(s, run).batch == s.batch + Begins(run)
    ensures BatchesAre(Final(s, run).runs, batches + BatchesOfRuns(s.batch, run))
    decreases run
  {
    if run == [] {
      assert batches + [] == batches;
    } else {
      StepCountsBatches(s, run[0], batches);
      var first := if run[0].RunNext? then [s.batch] else [];
      BatchesCounted(After(s, run[0]), run[1..], batches + first);
      AdjoinCounts(batches, first, BatchesOfRuns(After(s, run[0]).batch, run[1..]));
    }
  }

  /** The batch of each callback, and the number of batches, are counted by the Begin steps of the run. */
  lemma BatchesAsBegun(run: seq<Step>)
    requires Legal(EMPTY, run)
    ensures Final(EMPTY, run).batch == Begins(run) && BatchesAre(Final(EMPTY, run).runs, BatchesOfRuns(0, run))
  {
    BatchesCounted(EMPTY, run, []);
    assert [] + BatchesOfRuns(0, run) == BatchesOfRuns(0, run);
  }

  lemma AdjoinCounts(a: seq<nat>, b: seq<nat>, c: seq<nat>)
    ensures a + b + c == a + (b + c) && (b == [] ==> b + c == c)
  {
  }

  /** Outside a batch a cancelled timer has been deleted. */
  lemma CancelledIsDeleted(run: seq<Step>, q: Seq)
    requires Legal(EMPTY, run) && q in Final(EMPTY, run).cancelled && !Final(EMPTY, run).calling
    ensures Final(EMPTY, run).deleted[q] == 1
  {
    EmptyInv();
    RunKeepsInv(EMPTY, run);
    var s := Final(EMPTY, run);
    assert Addrs(s.expired) == {};
  }

  /** The timer is gone, or is in the batch in hand and will not be restarted. */
  predicate Doomed(s: Queue, a: Addr, q: Seq) {
    !Live(s.heap, s.born, q) || (a in Addrs(s.expired) && (a, q) in s.canceling)
  }

  /** Cancelling a live timer takes effect if and only if its addTimerInLoop has run. */
  lemma CancelTakesEffectExactly(run: seq<Step>, a: Addr)
    requires Legal(EMPTY, run) && a in Final(EMPTY, run).heap
    ensures var s := Final(EMPTY, run); var q := s.heap[a].sequence; Doomed(AfterCancel(s, a, q), a, q) <==> a !in s.inbox
  {
    EmptyInv();
    RunKeepsInv(EMPTY, run);
    CancelEffect(Final(EMPTY, run), a);
  }

  lemma CancelEffect(s: Queue, a: Addr)
    requires Inv(s) && a in s.heap
    ensures Doomed(AfterCancel(s, a, s.heap[a].sequence), a, s.heap[a].sequence) <==> a !in s.inbox
  {
    var q := s.heap[a].sequence;
    LiveNumber(s, a);
    if a in Addrs(s.timers) {
      var e :| e in s.timers && e.timer == a;
      EraseKeepsIndexed(s.heap, s.timers, s.active, a, q);
    } else if (a, q) in s.active {
      ActiveIsPending(s, a, q);
    }
  }

  lemma ActiveIsPending(s: Queue, a: Addr, q: Seq)
    requires Indexed(s.heap, s.timers, s.active) && (a, q) in s.active
    ensures a in Addrs(s.timers)
  {
    assert Entry(s.heap[a].expiration, a) in s.timers;
  }

  /** Before that it is lost: the timer is inserted all the same, and is in the first batch taken once it is due. */
  lemma EarlyCancelIsLost(s: Queue, a: Addr, clock: Time, now: Time, fired: bool)
    requires Inv(s) && !s.calling && a in s.inbox && a in s.heap && s.heap[a].expiration <= now
    ensures AfterCancel(s, a, s.heap[a].sequence) == s
    ensures var s1 := AfterAdd(s, a, clock); !s1.calling && a in Addrs(AfterBegin(s1, now, fired).expired)
  {
    var q := s.heap[a].sequence;
    if (a, q) in s.active {
      ActiveIsPending(s, a, q);
    }
    var e, s1 := Entry(s.heap[a].expiration, a), AfterAdd(s, a, clock);
    StepKeepsInv(s, Add(a, clock));
    assert e in s.timers ==> e.timer in Addrs(s.timers);
    InsertedExact(s.timers, e);
    BatchIsExactlyTheDue(s1, now, fired);
  }

  /** A loop-thread cancel may come before another thread's queued add: timer 1 runs though it was cancelled. */
  lemma CancelledYetRun()
    ensures var run := [New(0, 5, false, 0), Cancel(0, 1), Add(0, 0), Begin(9, true), RunNext];
            Legal(EMPTY, run) && Final(EMPTY, run).runs == [(1, 1)]
  {
    var e := Entry(5, 0);
    var s1 := After(EMPTY, New(0, 5, false, 0));
    assert After(s1, Cancel(0, 1)) == s1;
    var s3 := After(s1, Add(0, 0));
    assert s3.timers == [e];
    assert [e][1..] == [] && DueCount([e], 9) == 1;
    var s4 := After(s3, Begin(9, true));
    assert s4.expired == [e] && s4.heap[0].sequence == 1;
    var s5 := After(s4, RunNext);
    assert s5.runs == [(1, 1)];
    Unfold(s4, RunNext, []);
    Unfold(s3, Begin(9, true), [RunNext]);
    Unfold(s1, Add(0, 0), [Begin(9, true), RunNext]);
    Unfold(s1, Cancel(0, 1), [Add(0, 0), Begin(9, true), RunNext]);
    Unfold(EMPTY, New(0, 5, false, 0), [Cancel(0, 1), Add(0, 0), Begin(9, true), RunNext]);
  }

  lemma Unfold(s: Queue, step: Step, rest: seq<Step>)
    requires Enabled(s, step) && Legal(After(s, step), rest)
    ensures Legal(s, [step] + rest) && Final(s, [step] + rest) == Final(After(s, step), rest)
  {
    assert ([step] + rest)[1..] == rest;
  }

  /** Every live timer has its own number. */
  lemma LiveNumber(s: Queue, b: Addr)
    requires Inv(s) && b in s.heap
    ensures Live(s.heap, s.born, s.heap[b].sequence)
  {
  }

  /** Cancelling an id whose timer is gone, even if its address was reused, touches no other timer. */
  lemma StaleCancelTouchesNone(s: Queue, a: Addr, q: Seq, b: Addr)
    requires Inv(s) && !Live(s.heap, s.born, q) && b in s.heap
    ensures var s1 := AfterCancel(s, a, q); var id := (b, s.heap[b].sequence);
            && s1.heap == s.heap && s1.timers == s.timers && s1.active == s.active && s1.cancelled == s.cancelled
            && (id in s1.canceling <==> id in s.canceling)
  {
    LiveNumber(s, b);
    if a in s.heap {
      LiveNumber(s, a);
    }
  }

  // ---- the batches ----

  /** A batch takes exactly the timers due by now, in order, and leaves the rest. */
  lemma BatchIsExactlyTheDue(s: Queue, now: Time, fired: bool)
    requires Inv(s) && !s.calling
    ensures var s1 := AfterBegin(s, now, fired);
            && s1.expired + s1.timers == s.timers && Sorted(s1.expired)
            && (forall e :: e in s1.expired <==> e in s.timers && e.when <= now)
            && (forall e :: e in s1.timers <==> e in s.timers && e.when > now)
  {
    DueExact(s.timers, now);
    var k := DueCount(s.timers, now);
    assert s.timers == s.timers[..k] + s.timers[k..];
  }

  /** The numbers of a batch's timers, paired with the batch they run in. */
  function Calls(heap: map<Addr, Timer>, batch: seq<Entry>, n: nat): seq<(Seq, nat)> {
    if batch == [] || batch[0].timer !in heap then []
    else [(heap[batch[0].timer].sequence, n)] + Calls(heap, batch[1..], n)
  }

  lemma {:induction false} CallsAt(heap: map<Addr, Timer>, batch: seq<Entry>, n: nat)
    requires forall e :: e in batch ==> e.timer in heap
    ensures var c := Calls(heap, batch, n);
            |c| == |batch| && forall i :: 0 <= i < |c| ==> batch[i].timer in heap && c[i] == (heap[batch[i].timer].sequence, n)
  {
    if batch != [] {
      assert batch[0] in batch;
      forall e | e in batch[1..] ensures e.timer in heap {
        assert e in batch;
      }
      CallsAt(heap, batch[1..], n);
    }
  }

  predicate SameNumbers(heap: map<Addr, Timer>, heap1: map<Addr, Timer>, batch: seq<Entry>) {
    forall i :: 0 <= i < |batch| ==>
      batch[i].timer in heap && batch[i].timer in heap1 && heap[batch[i].timer].sequence == heap1[batch[i].timer].sequence
  }

  /** The steps callbacks take, and the steps of other threads, leave the batch in hand as it was. */
  lemma BatchUndisturbed(s: Queue, step: Step)
    requires Inv(s) && s.calling && Enabled(s, step) && !step.End?
    ensures var s1 := After(s, step);
            && s1.calling && s1.expired == s.expired && s1.begun == s.begun && s1.batch == s.batch
            && s.runs <= s1.runs && SameNumbers(s.heap, s1.heap, s.expired)
  {
    forall i | 0 <= i < |s.expired| ensures s.expired[i].timer in s.heap && s.expired[i].timer in Addrs(s.expired) {
      assert s.expired[i] in s.expired;
    }
    if step.Cancel? && (step.a, step.q) in s.active {
      assert Entry(s.heap[step.a].expiration, step.a) in s.timers && step.a in Addrs(s.timers);
    }
  }

  lemma {:induction false} BatchUndisturbedThrough(s: Queue, body: seq<Step>)
    requires Inv(s) && s.calling && Legal(s, body) && forall i :: 0 <= i < |body| ==> !body[i].End?
    ensures var s1 := Final(s, body);
            && Inv(s1) && s1.calling && s1.expired == s.expired && s1.begun == s.begun && s1.batch == s.batch
            && s.runs <= s1.runs && SameNumbers(s.heap, s1.heap, s.expired)
    decreases body
  {
    if body != [] {
      StepKeepsInv(s, body[0]);
      BatchUndisturbed(s, body[0]);
      BatchUndisturbedThrough(After(s, body[0]), body[1..]);
    } else {
      forall i | 0 <= i < |s.expired| ensures s.expired[i].timer in s.heap {
        assert s.expired[i] in s.expired;
      }
    }
  }

  lemma BatchRuns(s: Queue, s0: Queue, s1: Queue)
    requires RunInOrder(s1.heap, s1.expired, s1.next, s1.runs, s1.begun, s1.batch) && s1.next == |s1.expired|
    requires s1.expired == s0.expired && s1.begun == |s.runs| && s.runs <= s1.runs && s1.batch == s0.batch
    requires s0.heap == s.heap && SameNumbers(s0.heap, s1.heap, s0.expired)
    ensures s1.runs == s.runs + Calls(s.heap, s0.expired, s0.batch)
  {
    forall e | e in s0.expired ensures e.timer in s.heap {
      var i :| 0 <= i < |s0.expired| && s0.expired[i] == e;
    }
    CallsAt(s.heap, s0.expired, s0.batch);
    var c := Calls(s.heap, s0.expired, s0.batch);
    forall i | 0 <= i < |c| ensures s1.runs[|s.runs| + i] == c[i] {
      assert s0.expired[i].timer in s1.heap;
    }
  }

  /**
   From taking a batch to its end, whatever its callbacks and other threads do meanwhile, the timers run are those that
   were due, each once, in order of expiration.
   */
  lemma BatchRunsTheDue(run: seq<Step>, now: Time, fired: bool, body: seq<Step>)
    requires Legal(EMPTY, run) && !Final(EMPTY, run).calling
    requires var s0 := AfterBegin(Final(EMPTY, run), now, fired);
             Legal(s0, body) && Final(s0, body).next == |Final(s0, body).expired|
    requires forall i :: 0 <= i < |body| ==> !body[i].End?
    ensures var s := Final(EMPTY, run); var s0 := AfterBegin(s, now, fired);
            Final(s0, body).runs == s.runs + Calls(s.heap, s.timers[..DueCount(s.timers, now)], s.batch + 1)
  {
    EmptyInv();
    RunKeepsInv(EMPTY, run);
    var s := Final(EMPTY, run);
    StepKeepsInv(s, Begin(now, fired));
    var s0 := AfterBegin(s, now, fired);
    BatchUndisturbedThrough(s0, body);
    BatchRuns(s, s0, Final(s0, body));
  }

  /** The timer found at an entry of the batch is the one the entry was taken for, whatever happened since. */
  lemma TimerFoundAsTaken(s: Queue, now: Time, fired: bool, body: seq<Step>)
    requires Inv(s) && !s.calling && Legal(AfterBegin(s, now, fired), body)
    requires forall i :: 0 <= i < |body| ==> !body[i].End?
    ensures var s0 := AfterBegin(s, now, fired); var s1 := Final(s0, body);
            && s1.calling && s1.expired == s0.expired
            && (s1.next < |s1.expired| ==>
                  && s0.expired[s1.next].timer in s.heap
                  && Running(s1) == s.heap[s0.expired[s1.next].timer].sequence)
  {
    StepKeepsInv(s, Begin(now, fired));
    var s0 := AfterBegin(s, now, fired);
    BatchUndisturbedThrough(s0, body);
    var s1 := Final(s0, body);
    if s1.next < |s1.expired| {
      FoundAsTaken(s0, s1);
    }
  }

  lemma FoundAsTaken(s0: Queue, s1: Queue)
    requires s1.expired == s0.expired && SameNumbers(s0.heap, s1.heap, s0.expired) && s1.next < |s1.expired|
    ensures s0.expired[s1.next].timer in s0.heap && Running(s1) == s0.heap[s0.expired[s1.next].timer].sequence
  {
  }

  /** reset() leaves a timer outside the batch as it was, and in the index if it was there. */
  lemma {:induction false} ResetLeavesOthers(s: Queue, b: Addr)
    requires Core(s) && b in s.heap && b !in Addrs(s.expired)
    ensures var r := ResetAll(s);
            && b in r.heap && r.heap[b] == s.heap[b]
            && (Entry(s.heap[b].expiration, b) in s.timers ==> Entry(s.heap[b].expiration, b) in r.timers)
    decreases |s.expired|
  {
    if s.expired != [] {
      ResetOneKeepsCore(s);
      FirstOut(s.expired);
      ResetOneLeavesOthers(s, b);
      ResetLeavesOthers(ResetOne(s), b);
    }
  }

  lemma ResetOneLeavesOthers(s: Queue, b: Addr)
    requires Indexed(s.heap, s.timers, s.active) && Partitioned(s.heap, s.inbox, s.timers, s.expired)
    requires s.expired != [] && s.expired[0].timer in s.heap && b in s.heap && b != s.expired[0].timer
    ensures var r := ResetOne(s);
            && b in r.heap && r.heap[b] == s.heap[b]
            && (forall e :: e in s.timers ==> e in r.timers)
  {
    assert s.expired[0] in s.expired;
    var a := s.expired[0].timer;
    var e := Entry(s.now + s.heap[a].delta, a);
    assert e in s.timers ==> e.timer in Addrs(s.timers);
    InsertedExact(s.timers, e);
  }

  /** What reset() makes of timer t, at address a, of the batch taken at `now`. */
  predicate Outcome(r: Queue, a: Addr, t: Timer, restarts: bool, now: Time) {
    if restarts then
      a in r.heap && r.heap[a] == t.(expiration := now + t.delta) && Entry(now + t.delta, a) in r.timers
    else t.sequence in r.born && !Live(r.heap, r.born, t.sequence)
  }

  lemma FirstRestartedOutcome(s: Queue)
    requires Core(s) && s.expired != [] && s.expired[0].timer in s.heap
    requires var t := s.heap[s.expired[0].timer]; t.repeat && (s.expired[0].timer, t.sequence) !in s.canceling
    ensures Outcome(ResetAll(s), s.expired[0].timer, s.heap[s.expired[0].timer], true, s.now)
  {
    RestartKeepsCore(s);
    FirstRestarted(s);
    RestartedOutcome(ResetOne(s), s.expired[0].timer, s.heap[s.expired[0].timer], s.now);
  }

  lemma FirstDeletedOutcome(s: Queue)
    requires Core(s) && s.expired != [] && s.expired[0].timer in s.heap
    requires var t := s.heap[s.expired[0].timer]; !(t.repeat && (s.expired[0].timer, t.sequence) !in s.canceling)
    ensures Outcome(ResetAll(s), s.expired[0].timer, s.heap[s.expired[0].timer], false, s.now)
  {
    DeleteKeepsCore(s);
    FirstDeleted(s);
    DeletedOutcome(ResetOne(s), s.expired[0].timer, s.heap[s.expired[0].timer], s.now);
  }

  lemma ResetFirstOutcome(s: Queue)
    requires Core(s) && s.expired != [] && s.expired[0].timer in s.heap
    ensures var a := s.expired[0].timer; var t := s.heap[a];
            Outcome(ResetAll(s), a, t, t.repeat && (a, t.sequence) !in s.canceling, s.now)
  {
    var a := s.expired[0].timer;
    if s.heap[a].repeat && (a, s.heap[a].sequence) !in s.canceling {
      FirstRestartedOutcome(s);
    } else {
      FirstDeletedOutcome(s);
    }
  }

  lemma RestartedOutcome(r: Queue, a: Addr, t: Timer, now: Time)
    requires Core(r) && a in r.heap && a !in Addrs(r.expired)
    requires r.heap[a] == t.(expiration := now + t.delta) && Entry(now + t.delta, a) in r.timers
    ensures Outcome(ResetAll(r), a, t, true, now)
  {
    ResetLeavesOthers(r, a);
  }

  lemma DeletedOutcome(r: Queue, a: Addr, t: Timer, now: Time)
    requires Core(r) && t.sequence in r.born && !Live(r.heap, r.born, t.sequence)
    ensures Outcome(ResetAll(r), a, t, false, now)
  {
    ResetRevivesNone(r, t.sequence);
  }

  lemma FirstRestarted(s: Queue)
    requires Core(s) && s.expired != [] && s.expired[0].timer in s.heap
    requires var t := s.heap[s.expired[0].timer]; t.repeat && (s.expired[0].timer, t.sequence) !in s.canceling
    ensures var a, r := s.expired[0].timer, ResetOne(s); var t := s.heap[a].(expiration := s.now + s.heap[a].delta);
            a in r.heap && r.heap[a] == t && Entry(t.expiration, a) in r.timers && a !in Addrs(r.expired)
  {
    FirstOut(s.expired);
    var a := s.expired[0].timer;
    var e := Entry(s.now + s.heap[a].delta, a);
    assert e in s.timers ==> e.timer in Addrs(s.timers);
    InsertedExact(s.timers, e);
  }

  lemma FirstDeleted(s: Queue)
    requires Core(s) && s.expired != [] && s.expired[0].timer in s.heap
    requires var t := s.heap[s.expired[0].timer]; !(t.repeat && (s.expired[0].timer, t.sequence) !in s.canceling)
    ensures var q, r := s.heap[s.expired[0].timer].sequence, ResetOne(s); q in r.born && !Live(r.heap, r.born, q)
  {
    assert Live(s.heap, s.born, s.heap[s.expired[0].timer].sequence);
  }

  lemma {:induction false} ResetOutcome(s: Queue, i: nat)
    requires Core(s) && i < |s.expired|
    ensures var a := s.expired[i].timer;
            a in s.heap && Outcome(ResetAll(s), a, s.heap[a], s.heap[a].repeat && (a, s.heap[a].sequence) !in s.canceling, s.now)
    decreases |s.expired|
  {
    assert s.expired[i] in s.expired && s.expired[i].timer in Addrs(s.expired);
    ResetOneKeepsCore(s);
    if i == 0 {
      ResetFirstOutcome(s);
    } else {
      ResetOneLeavesOthers(s, s.expired[i].timer);
      ResetOutcome(ResetOne(s), i - 1);
    }
  }

  // ---- what the steps of the run said ----

  /** The timers that a run creates, in order: the q-th has number q. */
  function News(run: seq<Step>): seq<Step> {
    if run == [] then [] else NewIn(run[0]) + News(run[1..])
  }

  function NewIn(step: Step): seq<Step> {
    if step.New? then [step] else []
  }

  lemma AdjoinSteps(a: seq<Step>, b: seq<Step>, c: seq<Step>)
    ensures a + b + c == a + (b + c)
  {
  }

  predicate Ran(runs: seq<(Seq, nat)>, q: Seq) {
    exists i :: 0 <= i < |runs| && runs[i].0 == q
  }

  /** This timer is as that step created it; its expiration too, until it has run. */
  predicate MadeBy(t: Timer, a: Addr, step: Step, runs: seq<(Seq, nat)>) {
    && step.New? && step.a == a && step.repeat == t.repeat && step.delta == t.delta
    && (t.expiration == step.when || Ran(runs, t.sequence))
  }

  predicate AsCreated(heap: map<Addr, Timer>, lastSeq: Seq, news: seq<Step>, runs: seq<(Seq, nat)>) {
    && lastSeq == |news|
    && forall a :: a in heap ==>
         1 <= heap[a].sequence <= |news| && MadeBy(heap[a], a, news[heap[a].sequence - 1], runs)
  }

  /** Timers of r are timers of s, with another expiration only if they were in the batch. */
  predicate SameMake(heap: map<Addr, Timer>, heap1: map<Addr, Timer>, batch: set<Addr>) {
    forall a :: a in heap1 ==>
      && a in heap && heap1[a] == heap[a].(expiration := heap1[a].expiration)
      && (heap1[a].expiration == heap[a].expiration || a in batch)
  }

  lemma ResetOneSameMake(s: Queue)
    requires s.expired != []
    ensures SameMake(s.heap, ResetOne(s).heap, {s.expired[0].timer}) && ResetOne(s).lastSeq == s.lastSeq
    ensures ResetOne(s).runs == s.runs
  {
  }

  lemma {:induction false} ResetSameMake(s: Queue)
    ensures SameMake(s.heap, ResetAll(s).heap, Addrs(s.expired)) && ResetAll(s).lastSeq == s.lastSeq
    ensures ResetAll(s).runs == s.runs
    decreases |s.expired|
  {
    if s.expired != [] {
      ResetOneSameMake(s);
      ResetSameMake(ResetOne(s));
      assert s.expired == [s.expired[0]] + s.expired[1..];
      assert ResetOne(s).expired == s.expired[1..];
    }
  }

  lemma BatchHasRun(s: Queue, a: Addr)
    requires Core(s) && RunInOrder(s.heap, s.expired, s.next, s.runs, s.begun, s.batch) && s.next == |s.expired|
    requires a in Addrs(s.expired)
    ensures a in s.heap && Ran(s.runs, s.heap[a].sequence)
  {
    var e :| e in s.expired && e.timer == a;
    var i :| 0 <= i < |s.expired| && s.expired[i] == e;
    BatchTimerIsLive(s, i);
    assert s.runs[s.begun + i].0 == s.heap[a].sequence;
  }

  lemma NewAsCreated(s: Queue, step: Step, news: seq<Step>)
    requires step.New? && Enabled(s, step) && AsCreated(s.heap, s.lastSeq, news, s.runs)
    ensures var s1 := After(s, step); AsCreated(s1.heap, s1.lastSeq, news + [step], s1.runs)
  {
  }

  lemma EndAsCreated(s: Queue, step: Step, news: seq<Step>)
    requires Inv(s) && step.End? && Enabled(s, step) && AsCreated(s.heap, s.lastSeq, news, s.runs)
    ensures var s1 := After(s, step); AsCreated(s1.heap, s1.lastSeq, news, s1.runs)
  {
    ResetSameMake(s.(calling := false, next := 0));
    forall a | a in Addrs(s.expired) ensures a in s.heap && Ran(s.runs, s.heap[a].sequence) {
      BatchHasRun(s, a);
    }
    MakeIsKept(s.heap, After(s, step).heap, Addrs(s.expired), s.lastSeq, news, s.runs);
  }

  lemma MakeIsKept(heap: map<Addr, Timer>, heap1: map<Addr, Timer>, batch: set<Addr>, lastSeq: Seq, news: seq<Step>,
                   runs: seq<(Seq, nat)>)
    requires AsCreated(heap, lastSeq, news, runs) && SameMake(heap, heap1, batch)
    requires forall a :: a in batch ==> a in heap && Ran(runs, heap[a].sequence)
    ensures AsCreated(heap1, lastSeq, news, runs)
  {
  }

  lemma StepAsCreated(s: Queue, step: Step, news: seq<Step>)
    requires Inv(s) && Enabled(s, step) && AsCreated(s.heap, s.lastSeq, news, s.runs)
    ensures var s1 := After(s, step);
            AsCreated(s1.heap, s1.lastSeq, news + NewIn(step), s1.runs)
  {
    assert news + [] == news;
    match step
    case New(_, _, _, _) => NewAsCreated(s, step, news);
    case End(_) => EndAsCreated(s, step, news);
    case RunNext => RanStays(s, news);
    case _ => OtherAsCreated(s, step, news);
  }

  lemma OtherAsCreated(s: Queue, step: Step, news: seq<Step>)
    requires Enabled(s, step) && (step.Add? || step.Cancel? || step.Begin?) && AsCreated(s.heap, s.lastSeq, news, s.runs)
    ensures var s1 := After(s, step); AsCreated(s1.heap, s1.lastSeq, news, s1.runs)
  {
    MakeIsKept(s.heap, After(s, step).heap, {}, s.lastSeq, news, s.runs);
  }

  lemma RanStays(s: Queue, news: seq<Step>)
    requires Enabled(s, RunNext) && AsCreated(s.heap, s.lastSeq, news, s.runs)
    ensures var s1 := After(s, RunNext); AsCreated(s1.heap, s1.lastSeq, news, s1.runs)
  {
    var s1 := After(s, RunNext);
    forall q | Ran(s.runs, q) ensures Ran(s1.runs, q) {
      var i :| 0 <= i < |s.runs| && s.runs[i].0 == q;
      assert s1.runs[i].0 == q;
    }
  }

  lemma {:induction false} RunAsCreated(s: Queue, run: seq<Step>, news: seq<Step>)
    requires Inv(s) && Legal(s, run) && AsCreated(s.heap, s.lastSeq, news, s.runs)
    ensures var e := Final(s, run); AsCreated(e.heap, e.lastSeq, news + News(run), e.runs)
    decreases run
  {
    if run == [] {
      assert news + [] == news;
    } else {
      StepKeepsInv(s, run[0]);
      StepAsCreated(s, run[0], news);
      RunAsCreated(After(s, run[0]), run[1..], news + NewIn(run[0]));
      AdjoinSteps(news, NewIn(run[0]), News(run[1..]));
    }
  }

  /**
   The timer with number q is the one that the q-th New step of the run asked for: its address, whether and after what
   interval it repeats, and, until its callback has run, its expiration.
   */
  lemma TimersAreAsCreated(run: seq<Step>, a: Addr)
    requires Legal(EMPTY, run) && a in Final(EMPTY, run).heap
    ensures var s := Final(EMPTY, run); var t := s.heap[a];
            s.lastSeq == |News(run)| && 1 <= t.sequence <= |News(run)| && MadeBy(t, a, News(run)[t.sequence - 1], s.runs)
  {
    EmptyInv();
    RunAsCreated(EMPTY, run, []);
    assert [] + News(run) == News(run);
  }

  /** The clock of the batch that a run leaves in hand, if it does. */
  function BatchClock(now: Option<Time>, run: seq<Step>): Option<Time>
    decreases run
  {
    if run == [] then now
    else BatchClock(if run[0].Begin? then Some(run[0].now) else if run[0].End? then None else now, run[1..])
  }

  lemma {:induction false} BatchClockExact(s: Queue, run: seq<Step>, now: Option<Time>)
    requires Legal(s, run) && (s.calling <==> now.Some?) && (s.calling ==> now == Some(s.now))
    ensures var e := Final(s, run); (e.calling <==> BatchClock(now, run).Some?) && (e.calling ==> BatchClock(now, run) == Some(e.now))
    decreases run
  {
    if run != [] {
      if run[0].End? {
        ResetKeepsFlag(s.(calling := false, next := 0));
      }
      BatchClockExact(After(s, run[0]), run[1..],
                      if run[0].Begin? then Some(run[0].now) else if run[0].End? then None else now);
    }
  }

  /** The ids that a run cancels after its last Begin. */
  function CancelsInBatch(ids: set<(Addr, Seq)>, run: seq<Step>): set<(Addr, Seq)>
    decreases run
  {
    if run == [] then ids
    else CancelsInBatch(if run[0].Begin? then {} else if run[0].Cancel? then ids + {(run[0].a, run[0].q)} else ids, run[1..])
  }

  /** A timer of the batch is marked exactly if it is among these. */
  predicate MarkedAre(s: Queue, ids: set<(Addr, Seq)>) {
    forall a :: a in Addrs(s.expired) && a in s.heap ==>
      ((a, s.heap[a].sequence) in s.canceling <==> (a, s.heap[a].sequence) in ids)
  }

  lemma StepMarks(s: Queue, step: Step, ids: set<(Addr, Seq)>)
    requires Inv(s) && Enabled(s, step) && MarkedAre(s, ids)
    ensures MarkedAre(After(s, step), if step.Begin? then {} else if step.Cancel? then ids + {(step.a, step.q)} else ids)
  {
    match step
    case Cancel(a, q) =>
      if (a, q) in s.active {
        ActiveIsPending(s, a, q);
      }
    case End(_) =>
      ResetKeepsCore(s.(calling := false, next := 0));
      assert Addrs(After(s, step).expired) == {};
    case _ =>
  }

  lemma {:induction false} RunMarks(s: Queue, run: seq<Step>, ids: set<(Addr, Seq)>)
    requires Inv(s) && Legal(s, run) && MarkedAre(s, ids)
    ensures MarkedAre(Final(s, run), CancelsInBatch(ids, run))
    decreases run
  {
    if run != [] {
      StepKeepsInv(s, run[0]);
      StepMarks(s, run[0], ids);
      RunMarks(After(s, run[0]), run[1..],
               if run[0].Begin? then {} else if run[0].Cancel? then ids + {(run[0].a, run[0].q)} else ids);
    }
  }

  /** A timer of the batch was made so: at the end of the batch this becomes of it. */
  predicate EndsAs(s: Queue, clock: Time, a: Addr, made: Step, ids: set<(Addr, Seq)>, now: Time) {
    && a in s.heap && made.New?
    && Outcome(AfterEnd(s, clock), a, Timer(made.when, made.repeat, made.delta, s.heap[a].sequence),
               made.repeat && (a, s.heap[a].sequence) !in ids, now)
  }

  lemma EndOutcome(s: Queue, clock: Time, i: nat, made: Step, ids: set<(Addr, Seq)>)
    requires Core(s) && i < |s.expired| && s.expired[i].timer in s.heap
    requires MadeBy(s.heap[s.expired[i].timer], s.expired[i].timer, made, s.runs) && MarkedAre(s, ids)
    ensures EndsAs(s, clock, s.expired[i].timer, made, ids, s.now)
  {
    var a := s.expired[i].timer;
    BatchTimerIsLive(s, i);
    ResetOutcome(s.(calling := false, next := 0), i);
    var t := s.heap[a];
    SameOutcome(AfterEnd(s, clock), a, t, Timer(made.when, made.repeat, made.delta, t.sequence),
                t.repeat && (a, t.sequence) !in s.canceling, s.now);
  }

  lemma BatchStateByRun(run: seq<Step>)
    requires Legal(EMPTY, run)
    ensures var s := Final(EMPTY, run);
            && Core(s) && MarkedAre(s, CancelsInBatch({}, run)) && (s.calling ==> BatchClock(None, run) == Some(s.now))
  {
    EmptyInv();
    RunKeepsInv(EMPTY, run);
    BatchClockExact(EMPTY, run, None);
    RunMarks(EMPTY, run, {});
  }

  /**
   At the end of a batch, a timer of it that was created to repeat, and that no step has cancelled since the batch was
   taken, is pending again, its own interval after the clock of the batch; every other timer of it is deleted.
   */
  lemma BatchEndExact(run: seq<Step>, clock: Time, i: nat)
    requires Legal(EMPTY, run) && Enabled(Final(EMPTY, run), End(clock)) && i < |Final(EMPTY, run).expired|
    ensures var s := Final(EMPTY, run); var a := s.expired[i].timer;
            && BatchClock(None, run).Some? && a in s.heap && 1 <= s.heap[a].sequence <= |News(run)|
            && EndsAs(s, clock, a, News(run)[s.heap[a].sequence - 1], CancelsInBatch({}, run), BatchClock(None, run).value)
  {
    BatchStateByRun(run);
    var s := Final(EMPTY, run);
    BatchTimerIsLive(s, i);
    TimersAreAsCreated(run, s.expired[i].timer);
    EndOutcome(s, clock, i, News(run)[s.heap[s.expired[i].timer].sequence - 1], CancelsInBatch({}, run));
  }

  lemma SameOutcome(r: Queue, a: Addr, t: Timer, t1: Timer, restarts: bool, now: Time)
    requires Outcome(r, a, t, restarts, now) && t1 == t.(expiration := t1.expiration)
    ensures Outcome(r, a, t1, restarts, now)
  {
  }

  // ---- the timerfd ----

  /** A pending timer has the timerfd set, for no later than its expiration or 100 microseconds after the setting. */
  predicate Awaited(alarm: Alarm, timers: seq<Entry>) {
    timers != [] ==>
      alarm.On? && alarm.deadline <= if timers[0].when < alarm.setAt + 100 then alarm.setAt + 100 else timers[0].when
  }

  /** Whenever a batch is taken, the clock is past the epoch or all pending expirations are. */
  predicate Timely(s: Queue, step: Step) {
    step.Begin? ==> step.now > 0 || forall e :: e in s.timers ==> e.when > 0
  }

  predicate AllTimely(s: Queue, run: seq<Step>)
    requires Legal(s, run)
    decreases run
  {
    run == [] || (Timely(s, run[0]) && AllTimely(After(s, run[0]), run[1..]))
  }

  /** While callbacks run, the timerfd answers for an earliest timer that the end of the batch would not set it for. */
  predicate AlarmInv(s: Queue) {
    && (s.calling ==> s.now > 0 || s.expired == [])
    && (!s.calling || (s.timers != [] && s.timers[0].when <= 0) ==> Awaited(s.alarm, s.timers))
  }

  lemma AddKeepsAlarm(s: Queue, a: Addr, clock: Time)
    requires Inv(s) && AlarmInv(s) && a in s.inbox && a in s.heap
    ensures AlarmInv(AfterAdd(s, a, clock))
  {
    var e := Entry(s.heap[a].expiration, a);
    assert e in s.timers ==> e.timer in Addrs(s.timers);
    InsertedExact(s.timers, e);
    ArmedExact(e.when, clock);
  }

  lemma CancelKeepsAlarm(s: Queue, a: Addr, q: Seq)
    requires Inv(s) && AlarmInv(s)
    ensures AlarmInv(AfterCancel(s, a, q))
  {
    if (a, q) in s.active {
      var e := Entry(s.heap[a].expiration, a);
      ErasedExact(s.timers, e);
      var ts := Erased(s.timers, e);
      if ts != [] {
        assert ts[0] in ts;
      }
    }
  }

  /** Timers restarted by reset() expire after the epoch, so it adds no earliest timer that goes unset. */
  lemma {:induction false} ResetKeepsEarly(s: Queue)
    requires Core(s) && (s.now > 0 || s.expired == [])
    ensures var r := ResetAll(s);
            r.timers != [] && r.timers[0].when <= 0 ==> s.timers != [] && s.timers[0] == r.timers[0]
    decreases |s.expired|
  {
    if s.expired != [] {
      ResetOneKeepsCore(s);
      ResetOneKeepsEarly(s);
      ResetKeepsEarly(ResetOne(s));
    }
  }

  lemma ResetOneKeepsEarly(s: Queue)
    requires Core(s) && s.now > 0 && s.expired != []
    ensures var r := ResetOne(s);
            && r.now == s.now
            && (r.timers != [] && r.timers[0].when <= 0 ==> s.timers != [] && s.timers[0] == r.timers[0])
  {
    var a := s.expired[0].timer;
    assert s.expired[0] in s.expired && a in Addrs(s.expired);
    var e := Entry(s.now + s.heap[a].delta, a);
    assert e in s.timers ==> e.timer in Addrs(s.timers);
    InsertedExact(s.timers, e);
  }

  lemma StepKeepsAlarm(s: Queue, step: Step)
    requires Inv(s) && AlarmInv(s) && Enabled(s, step) && Timely(s, step)
    ensures AlarmInv(After(s, step))
  {
    match step
    case Add(a, clock) => AddKeepsAlarm(s, a, clock);
    case Cancel(a, q) => CancelKeepsAlarm(s, a, q);
    case Begin(now, fired) =>
      DueExact(s.timers, now);
      if now <= 0 && s.timers != [] {
        assert s.timers[0] in s.timers;
      }
    case End(clock) =>
      var s0 := s.(calling := false, next := 0);
      ResetKeepsEarly(s0);
      ResetKeepsFlag(s0);
      var s1 := ResetAll(s0);
      if s1.timers != [] {
        ArmedExact(s1.timers[0].when, clock);
      }
    case _ =>
  }

  lemma {:induction false} RunKeepsAlarm(s: Queue, run: seq<Step>)
    requires Inv(s) && AlarmInv(s) && Legal(s, run) && AllTimely(s, run)
    ensures AlarmInv(Final(s, run))
    decreases run
  {
    if run != [] {
      StepKeepsInv(s, run[0]);
      StepKeepsAlarm(s, run[0]);
      RunKeepsAlarm(After(s, run[0]), run[1..]);
    }
  }

  /**
   Outside a batch, a pending timer implies that the timerfd is set for no later than the larger of the earliest
   expiration and 100 microseconds after the setting.
   */
  lemma PendingTimerIsAwaited(run: seq<Step>)
    requires Legal(EMPTY, run) && AllTimely(EMPTY, run) && !Final(EMPTY, run).calling
    ensures Awaited(Final(EMPTY, run).alarm, Final(EMPTY, run).timers)
    ensures Final(EMPTY, run).alarm.On? ==> SetIn(run, Final(EMPTY, run).alarm.setAt)
  {
    EmptyInv();
    RunKeepsAlarm(EMPTY, run);
    if Final(EMPTY, run).alarm.On? {
      AlarmIsSetByRun(EMPTY, run);
    }
  }

  /** No step of the run reads the timerfd as expired. */
  predicate NoneFired(run: seq<Step>)
    decreases run
  {
    run == [] || (!(run[0].Begin? && run[0].fired) && NoneFired(run[1..]))
  }

  /** An insertion or the end of a batch took place at this time, and the timerfd has not been read as expired since. */
  predicate SetIn(run: seq<Step>, clock: Time)
    decreases run
  {
    run != [] && (SetIn(run[1..], clock) || ((run[0].Add? || run[0].End?) && run[0].clock == clock && NoneFired(run[1..])))
  }

  lemma StepSets(s: Queue, step: Step)
    requires Enabled(s, step) && After(s, step).alarm.On?
    ensures var alarm := After(s, step).alarm;
            || (alarm == s.alarm && !(step.Begin? && step.fired))
            || ((step.Add? || step.End?) && step.clock == alarm.setAt && alarm.deadline >= alarm.setAt + 100)
  {
    if step.Add? {
      ArmedExact(s.heap[step.a].expiration, step.clock);
    } else if step.End? {
      ResetKeepsFlag(s.(calling := false, next := 0));
      var ts := ResetAll(s.(calling := false, next := 0)).timers;
      if ts != [] {
        ArmedExact(ts[0].when, step.clock);
      }
    }
  }

  lemma {:induction false} AlarmIsSetByRun(s: Queue, run: seq<Step>)
    requires Legal(s, run) && Final(s, run).alarm.On?
    ensures var alarm := Final(s, run).alarm; (alarm == s.alarm && NoneFired(run)) || SetIn(run, alarm.setAt)
    decreases run
  {
    if run != [] {
      AlarmIsSetByRun(After(s, run[0]), run[1..]);
      if After(s, run[0]).alarm.On? {
        StepSets(s, run[0]);
      }
    }
  }

  /** The timer at this address, if in the batch, will be restarted at its end. */
  predicate Restarts(heap: map<Addr, Timer>, canceling: set<(Addr, Seq)>, a: Addr) {
    a in heap && heap[a].repeat && (a, heap[a].sequence) !in canceling
  }

  predicate PendingFrom(timers: seq<Entry>, bound: Time) {
    forall e :: e in timers ==> e.when >= bound
  }

  predicate RestartsFrom(heap: map<Addr, Timer>, canceling: set<(Addr, Seq)>, now: Time, expired: seq<Entry>, bound: Time) {
    forall e :: e in expired && Restarts(heap, canceling, e.timer) ==> now + heap[e.timer].delta >= bound
  }

  /** All timers that are pending, and all of the batch that will be restarted, expire at `bound` or later. */
  predicate AllFrom(s: Queue, bound: Time) {
    PendingFrom(s.timers, bound) && RestartsFrom(s.heap, s.canceling, s.now, s.expired, bound)
  }

  lemma RestOfBatchFrom(s: Queue, heap1: map<Addr, Timer>, bound: Time)
    requires s.expired != [] && Distinct(s.expired) && s.expired[0].timer in s.heap && AgreeOff(s.heap, heap1, s.expired[0].timer)
    ensures var a := s.expired[0].timer;
            RestartsFrom(s.heap, s.canceling, s.now, s.expired, bound) <==>
            && (Restarts(s.heap, s.canceling, a) ==> s.now + s.heap[a].delta >= bound)
            && RestartsFrom(heap1, s.canceling, s.now, s.expired[1..], bound)
  {
    FirstOut(s.expired);
    var a := s.expired[0].timer;
    assert s.expired[0] in s.expired;
    assert s.expired == [s.expired[0]] + s.expired[1..];
    forall e | e in s.expired[1..]
      ensures e.timer != a && (Restarts(heap1, s.canceling, e.timer) <==> Restarts(s.heap, s.canceling, e.timer))
    {
      assert e.timer in Addrs(s.expired[1..]);
      assert e.timer in heap1 ==> e.timer in heap1.Keys - {a};
    }
  }

  lemma InsertedFrom(ts: seq<Entry>, e: Entry, bound: Time)
    requires Sorted(ts) && e !in ts
    ensures PendingFrom(Inserted(ts, e), bound) <==> PendingFrom(ts, bound) && e.when >= bound
  {
    InsertedExact(ts, e);
  }

  lemma BatchEntryNotPending(s: Queue, e: Entry)
    requires Core(s) && s.expired != [] && e.timer == s.expired[0].timer
    ensures Sorted(s.timers) && e !in s.timers
  {
    assert s.expired[0] in s.expired && e.timer in Addrs(s.expired);
    assert e in s.timers ==> e.timer in Addrs(s.timers);
  }

  lemma RestartAllFrom(s: Queue, bound: Time)
    requires s.expired != [] && Restarts(s.heap, s.canceling, s.expired[0].timer) && Distinct(s.expired) && Sorted(s.timers)
    requires Entry(s.now + s.heap[s.expired[0].timer].delta, s.expired[0].timer) !in s.timers
    ensures AllFrom(ResetOne(s), bound) <==> AllFrom(s, bound)
  {
    var a := s.expired[0].timer;
    var e := Entry(s.now + s.heap[a].delta, a);
    InsertedFrom(s.timers, e, bound);
    var heap1 := s.heap[a := s.heap[a].(expiration := e.when)];
    RestOfBatchFrom(s, heap1, bound);
    assert ResetOne(s) == s.(expired := s.expired[1..], heap := heap1, timers := Inserted(s.timers, e),
                             active := s.active + {(a, s.heap[a].sequence)});
  }

  lemma DeleteAllFrom(s: Queue, bound: Time)
    requires Core(s) && s.expired != [] && s.expired[0].timer in s.heap
    requires !Restarts(s.heap, s.canceling, s.expired[0].timer)
    ensures AllFrom(ResetOne(s), bound) <==> AllFrom(s, bound)
  {
    RestOfBatchFrom(s, s.heap - {s.expired[0].timer}, bound);
  }

  lemma ResetOneAllFrom(s: Queue, bound: Time)
    requires Core(s) && s.expired != [] && s.expired[0].timer in s.heap
    ensures AllFrom(ResetOne(s), bound) <==> AllFrom(s, bound)
  {
    if Restarts(s.heap, s.canceling, s.expired[0].timer) {
      BatchEntryNotPending(s, Entry(s.now + s.heap[s.expired[0].timer].delta, s.expired[0].timer));
      RestartAllFrom(s, bound);
    } else {
      DeleteAllFrom(s, bound);
    }
  }

  lemma {:induction false} ResetAllFrom(s: Queue, bound: Time)
    requires Core(s)
    ensures PendingFrom(ResetAll(s).timers, bound) <==> AllFrom(s, bound)
    decreases |s.expired|
  {
    if s.expired != [] {
      ResetOneKeepsCore(s);
      ResetOneAllFrom(s, bound);
      ResetAllFrom(ResetOne(s), bound);
    }
  }

  lemma FirstIsEarliest(ts: seq<Entry>, bound: Time)
    requires Sorted(ts) && ts != []
    ensures PendingFrom(ts, bound) <==> ts[0].when >= bound
  {
    assert ts[0] in ts;
  }

  /** An insertion sets the timerfd if and only if the timer expires before all that are pending. */
  lemma AddSetsExactly(s: Queue, a: Addr, clock: Time)
    requires Inv(s) && a in s.heap
    ensures AfterAdd(s, a, clock).alarm ==
            if PendingFrom(s.timers, s.heap[a].expiration + 1) then Armed(s.heap[a].expiration, clock) else s.alarm
  {
    if s.timers != [] {
      FirstIsEarliest(s.timers, s.heap[a].expiration + 1);
    }
  }

  /**
   After the end of a batch the pending timers are awaited if and only if all of them, and all that are restarted, expire
   after the epoch; or a callback has set the timerfd for 100 microseconds later, or for no later than any of them.
   */
  lemma EndSetsExactly(s: Queue, clock: Time)
    requires Inv(s) && s.calling && s.next == |s.expired|
    ensures Awaited(AfterEnd(s, clock).alarm, AfterEnd(s, clock).timers) <==>
            || AllFrom(s, 1)
            || (s.alarm.On? && (s.alarm.deadline <= s.alarm.setAt + 100 || AllFrom(s, s.alarm.deadline)))
  {
    var s0 := s.(calling := false, next := 0);
    ResetKeepsFlag(s0);
    ResetKeepsCore(s0);
    ResetAllFrom(s0, 1);
    if s.alarm.On? {
      ResetAllFrom(s0, s.alarm.deadline);
    }
    SettingExact(s.alarm, ResetAll(s0).timers, clock);
  }

  /** The timerfd after reset(), by the timers then pending. */
  function SetAfter(alarm: Alarm, ts: seq<Entry>, clock: Time): Alarm {
    if ts != [] && ts[0].when > 0 then Armed(ts[0].when, clock) else alarm
  }

  lemma SettingExact(alarm: Alarm, ts: seq<Entry>, clock: Time)
    requires Sorted(ts)
    ensures Awaited(SetAfter(alarm, ts, clock), ts) <==>
            || PendingFrom(ts, 1)
            || (alarm.On? && (alarm.deadline <= alarm.setAt + 100 || PendingFrom(ts, alarm.deadline)))
  {
    if ts != [] {
      ArmedExact(ts[0].when, clock);
      FirstIsEarliest(ts, 1);
      if alarm.On? {
        FirstIsEarliest(ts, alarm.deadline);
      }
    }
  }

  /** Two timers pending that expire before the epoch. */
  const TWO_EARLY: Queue :=
    Queue(map[0 := Timer(-2, false, 0, 1), 1 := Timer(-1, false, 0, 2)], {}, [Entry(-2, 0), Entry(-1, 1)], {(0, 1), (1, 2)},
          false, {}, [], 0, 0, On(91, -9), 2, 0, [], 0, map[1 := 0, 2 := 1], multiset{}, map[])

  lemma TwoEarlyAdded()
    ensures var run := [New(0, -2, false, 0), Add(0, -9), New(1, -1, false, 0), Add(1, -9)];
            Legal(EMPTY, run) && Final(EMPTY, run) == TWO_EARLY
  {
    var e0, e1 := Entry(-2, 0), Entry(-1, 1);
    var s1 := After(EMPTY, New(0, -2, false, 0));
    var s2 := After(s1, Add(0, -9));
    assert s2.timers == [e0];
    var s3 := After(s2, New(1, -1, false, 0));
    var s4 := After(s3, Add(1, -9));
    assert [e0][1..] == [] && Inserted([e0], e1) == [e0, e1];
    assert s4 == TWO_EARLY;
    Unfold(s3, Add(1, -9), []);
    Unfold(s2, New(1, -1, false, 0), [Add(1, -9)]);
    Unfold(s1, Add(0, -9), [New(1, -1, false, 0), Add(1, -9)]);
    Unfold(EMPTY, New(0, -2, false, 0), [Add(0, -9), New(1, -1, false, 0), Add(1, -9)]);
  }

  lemma OneEarlyLeft()
    ensures var run := [Begin(-2, true), RunNext, End(-2)];
            Legal(TWO_EARLY, run) && Final(TWO_EARLY, run).timers == [Entry(-1, 1)] && Final(TWO_EARLY, run).alarm == Off
  {
    var e0, e1 := Entry(-2, 0), Entry(-1, 1);
    assert DueCount([e0, e1], -2) == 1;
    var s5 := After(TWO_EARLY, Begin(-2, true));
    assert s5.expired == [e0] && s5.timers == [e1] && s5.heap[0] == Timer(-2, false, 0, 1);
    var s6 := After(s5, RunNext);
    var s0 := s6.(calling := false, next := 0);
    assert ResetOne(s0).expired == [] && ResetOne(s0).timers == [e1];
    assert ResetAll(s0) == ResetAll(ResetOne(s0)) == ResetOne(s0);
    assert After(s6, End(-2)).timers == [e1] && After(s6, End(-2)).alarm == Off;
    Unfold(s6, End(-2), []);
    Unfold(s5, RunNext, [End(-2)]);
    Unfold(TWO_EARLY, Begin(-2, true), [RunNext, End(-2)]);
  }

  /** Without that the property fails: of two timers before the epoch, the one left behind is not awaited. */
  lemma UnawaitedBeforeEpoch()
    ensures var run := [New(0, -2, false, 0), Add(0, -9), New(1, -1, false, 0), Add(1, -9)]
                       + [Begin(-2, true), RunNext, End(-2)];
            Legal(EMPTY, run) && !Awaited(Final(EMPTY, run).alarm, Final(EMPTY, run).timers)
  {
    TwoEarlyAdded();
    OneEarlyLeft();
    RunsCompose(EMPTY, [New(0, -2, false, 0), Add(0, -9), New(1, -1, false, 0), Add(1, -9)],
                [Begin(-2, true), RunNext, End(-2)]);
  }

  lemma {:induction false} RunsCompose(s: Queue, first: seq<Step>, second: seq<Step>)
    requires Legal(s, first) && Legal(Final(s, first), second)
    ensures Legal(s, first + second) && Final(s, first + second) == Final(Final(s, first), second)
    decreases first
  {
    if first == [] {
      assert first + second == second;
    } else {
      assert (first + second)[0] == first[0] && (first + second)[1..] == first[1..] + second;
      RunsCompose(After(s, first[0]), first[1..], second);
    }
  }

  // ---- the class ----

  /** In round i of getExpired the key to erase is there, and is what the first i + 1 entries have beyond the first i. */
  lemma ErasedKeyFound(heap: map<Addr, Timer>, ts: seq<Entry>, keys: set<(Addr, Seq)>, i: nat)
    requires Indexed(heap, ts, keys) && i < |ts|
    ensures ts[i].timer in heap
    ensures var key := (ts[i].timer, heap[ts[i].timer].sequence);
            && key in keys - Keys(heap, ts[..i])
            && keys - Keys(heap, ts[..i + 1]) == keys - Keys(heap, ts[..i]) - {key}
  {
    SplitKeepsIndexed(heap, ts, keys, i);
    DropFirst(heap, ts[i..], keys - Keys(heap, ts[..i]));
    TakeNext(heap, ts, i + 1);
    DropBoth(keys, Keys(heap, ts[..i]), (ts[i].timer, heap[ts[i].timer].sequence));
  }

  /**
   The methods of the source on its own fields: what the loop calls keeps Valid(), and the parts it is made of
   state the whole new state. Timers live in `heap`, as new and delete leave it; the batch that
   handleRead holds in a local variable is a field, because callbacks run between BeginBatch and EndBatch.
   */
  class TimerQueue {
    var heap: map<Addr, Timer>
    var timers: seq<Entry>
    var active: set<(Addr, Seq)>
    var calling: bool
    var canceling: set<(Addr, Seq)>
    var expired: seq<Entry>
    var next: nat
    var now: Time
    var alarm: Alarm
    var lastSeq: Seq
    ghost var past: Queue      // the history fields

    ghost function View(): Queue
      reads this
    {
      past.(heap := heap, timers := timers, active := active, calling := calling, canceling := canceling,
            expired := expired, next := next, now := now, alarm := alarm, lastSeq := lastSeq)
    }

    ghost predicate Valid()
      reads this
    {
      Inv(View())
    }

    constructor ()
      ensures Valid() && View() == EMPTY
    {
      heap, timers, active, calling, canceling := map[], [], {}, false, {};
      expired, next, now, alarm, lastSeq := [], 0, 0, Off, 0;
      past := EMPTY;
      new;
      EmptyInv();
    }

    /** addTimer; the address is the one the allocator returns. */
    method AddTimer(a: Addr, when: Time, repeat: bool, delta: nat) returns (q: Seq)
      requires Valid() && a !in heap
      modifies this
      ensures Valid() && View() == After(old(View()), New(a, when, repeat, delta)) && q == lastSeq
    {
      ghost var s := View();
      lastSeq := lastSeq + 1;
      heap := heap[a := Timer(when, repeat, delta, lastSeq)];
      past := past.(inbox := past.inbox + {a}, born := past.born[lastSeq := a]);
      q := lastSeq;
      assert View() == After(s, New(a, when, repeat, delta));
      StepKeepsInv(s, New(a, when, repeat, delta));
    }

    /** Both set insertions take place. */
    method Insert(a: Addr) returns (earliestChanged: bool)
      requires a in heap && a !in Addrs(timers) && Indexed(heap, timers, active)
      modifies this`timers, this`active
      ensures View() == AfterInsert(old(View()), a) && earliestChanged == Earliest(old(timers), heap[a].expiration)
    {
      earliestChanged := false;
      var when := heap[a].expiration;
      if timers == [] || when < timers[0].when {
        earliestChanged := true;
      }
      assert Entry(when, a) in timers ==> Entry(when, a).timer in Addrs(timers);
      assert Entry(when, a) !in timers && (a, heap[a].sequence) !in active;
      timers := Inserted(timers, Entry(when, a));
      active := active + {(a, heap[a].sequence)};
    }

    method AddTimerInLoop(a: Addr, clock: Time)
      requires Valid() && a in past.inbox
      modifies this
      ensures Valid() && Enabled(old(View()), Add(a, clock)) && View() == After(old(View()), Add(a, clock))
    {
      ghost var s := View();
      past := past.(inbox := past.inbox - {a});
      InsertAndSet(a, clock);
      assert View() == AfterAdd(s, a, clock);
      StepKeepsInv(s, Add(a, clock));
    }

    /** Insert, and set the timerfd when the earliest expiration changed. */
    method InsertAndSet(a: Addr, clock: Time)
      requires a in heap && a !in Addrs(timers) && Indexed(heap, timers, active)
      modifies this`timers, this`active, this`alarm
      ensures View() == AfterInsert(old(View()), a).(
                alarm := if Earliest(old(timers), heap[a].expiration) then Armed(heap[a].expiration, clock) else old(alarm))
    {
      var earliestChanged := Insert(a);
      if earliestChanged {
        alarm := Armed(heap[a].expiration, clock);
      }
    }

    method CancelInLoop(a: Addr, q: Seq)
      requires Valid()
      modifies this
      ensures Valid() && View() == After(old(View()), Cancel(a, q))
    {
      ghost var s := View();
      if (a, q) in active {
        EraseTimer(a, q);
      } else if calling {
        MarkTimer(a, q);
      }
      assert View() == AfterCancel(s, a, q);
      StepKeepsInv(s, Cancel(a, q));
    }

    /** The entry of an active timer is found. */
    method EraseTimer(a: Addr, q: Seq)
      requires Indexed(heap, timers, active) && (a, q) in active
      modifies this
      ensures View() == AfterCancel(old(View()), a, q)
    {
      var e := Entry(heap[a].expiration, a);
      assert e in timers;
      timers := Erased(timers, e);
      past := past.(deleted := past.deleted + multiset{heap[a].sequence}, cancelled := past.cancelled[q := past.batch]);
      heap := heap - {a};
      active := active - {(a, q)};
    }

    method MarkTimer(a: Addr, q: Seq)
      requires calling && (a, q) !in active
      modifies this`past, this`canceling
      ensures View() == AfterCancel(old(View()), a, q)
    {
      past := past.(cancelled := if InBatch(View(), a, q) then past.cancelled[q := past.batch] else past.cancelled);
      canceling := canceling + {(a, q)};
    }

    /** getExpired: every key erased is found. */
    method GetExpired(now: Time) returns (due: seq<Entry>)
      requires Indexed(heap, timers, active)
      modifies this`timers, this`active
      ensures due == old(timers)[..DueCount(old(timers), now)] && timers == old(timers)[DueCount(old(timers), now)..]
      ensures active == old(active) - Keys(heap, due)
    {
      var end := DueCount(timers, now);
      ghost var ts, keys := timers, active;
      due := timers[..end];
      timers := timers[end..];
      for i := 0 to |due|
        invariant timers == ts[end..]
        invariant active == keys - Keys(heap, due[..i])
      {
        ErasedKeyFound(heap, ts, keys, i);
        assert due[..i] == ts[..i] && due[..i + 1] == ts[..i + 1] && due[i] == ts[i];
        var key := (due[i].timer, heap[due[i].timer].sequence);
        assert key in active;
        active := active - {key};
      }
      assert due[..|due|] == due;
    }

    /** handleRead up to its first callback. */
    method BeginBatch(now: Time, fired: bool)
      requires Valid() && !calling
      modifies this
      ensures Valid() && View() == AfterBegin(old(View()), now, fired)
    {
      StepKeepsInv(View(), Begin(now, fired));
      TakeBatch(now, fired);
    }

    method TakeBatch(now: Time, fired: bool)
      requires Indexed(heap, timers, active)
      modifies this
      ensures View() == AfterBegin(old(View()), now, fired)
    {
      ghost var s, k := View(), DueCount(timers, now);
      if fired {
        alarm := Off;
      }
      var due := GetExpired(now);
      assert View() == s.(alarm := if fired then Off else s.alarm, timers := s.timers[k..],
                          active := s.active - Keys(s.heap, s.timers[..k]));
      StartCalling(due, now);
    }

    method StartCalling(due: seq<Entry>, now: Time)
      modifies this
      ensures View() == old(View()).(calling := true, canceling := {}, expired := due, next := 0, now := now,
                                     batch := old(past.batch) + 1, begun := |old(past.runs)|)
    {
      calling, canceling := true, {};
      expired, next, this.now := due, 0, now;
      past := past.(batch := past.batch + 1, begun := |past.runs|);
    }

    /** The timer whose callback runs next is live. */
    method RunCallback() returns (q: Seq)
      requires Valid() && calling && next < |expired|
      modifies this`next, this`past
      ensures Valid() && View() == After(old(View()), RunNext) && q == Running(old(View())) && past.deleted[q] == 0
    {
      ghost var s := View();
      BatchTimerIsLive(s, next);
      q := heap[expired[next].timer].sequence;
      next := next + 1;
      past := past.(runs := past.runs + [(q, past.batch)]);
      assert View() == After(s, RunNext);
      StepKeepsInv(s, RunNext);
    }

    /** One round of the loop in reset. */
    method ResetFirst()
      requires expired != [] && expired[0].timer in heap && expired[0].timer !in Addrs(timers)
      requires Indexed(heap, timers, active)
      modifies this
      ensures View() == ResetOne(old(View())) && |expired| == |old(expired)| - 1
    {
      var a := expired[0].timer;
      expired := expired[1..];
      if heap[a].repeat && (a, heap[a].sequence) !in canceling {
        OthersKeepIndexed(heap, heap[a := heap[a].(expiration := now + heap[a].delta)], timers, active, a);
        heap := heap[a := heap[a].(expiration := now + heap[a].delta)];
        var _ := Insert(a);
      } else {
        past := past.(deleted := past.deleted + multiset{heap[a].sequence});
        heap := heap - {a};
      }
    }

    /** handleRead after its last callback. */
    method EndBatch(clock: Time)
      requires Valid() && calling && next == |expired|
      modifies this
      ensures Valid() && View() == AfterEnd(old(View()), clock)
    {
      StepKeepsInv(View(), End(clock));
      FinishBatch(clock);
    }

    method FinishBatch(clock: Time)
      requires Core(View())
      modifies this
      ensures View() == AfterEnd(old(View()), clock)
    {
      calling, next := false, 0;
      var nextExpire := ResetExpired();
      ghost var s1 := View();
      assert s1 == ResetAll(old(View()).(calling := false, next := 0));
      if nextExpire > 0 {
        alarm := Armed(nextExpire, clock);
      }
      assert View() == s1.(alarm := SetAfter(s1.alarm, s1.timers, clock));
    }

    /** The loop of reset: each expired timer is inserted again or deleted; 0 is the invalid time. */
    method ResetExpired() returns (nextExpire: Time)
      requires Core(View())
      modifies this
      ensures View() == ResetAll(old(View())) && nextExpire == if timers == [] then 0 else timers[0].when
    {
      ghost var to := ResetAll(View());
      while expired != []
        invariant Core(View()) && ResetAll(View()) == to
        decreases |expired|
      {
        ResetOneKeepsCore(View());
        assert expired[0].timer in Addrs(expired);
        ResetFirst();
      }
      nextExpire := 0;
      if timers != [] {
        assert timers[0] in timers;
        nextExpire := heap[timers[0].timer].expiration;
      }
    }
  }
}
