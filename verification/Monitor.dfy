/**
 The monitor under muduo/base/BoundedBlockingQueue.h and muduo/base/ThreadPool.cc: producers and
 consumers share a queue under one mutex and two conditions. A bounded queue has a limit and is
 never stopped; a thread pool has a limit when maxQueueSize_ is positive, and may be stopped.
 Each step is one stay in the critical section, from taking the mutex to releasing it or waiting.
 */
module Monitors {
  import opened Bytes

  datatype Limit = Unbounded | AtMost(capacity: nat)

  type Item = nat
  type Tid = nat

  datatype State = State(
    limit: Limit,
    running: bool,
    queue: seq<Item>,
    sleepingTakers: set<Tid>,   // waiting on notEmpty_
    wokenTakers: set<Tid>,      // out of the wait, not yet back in the mutex
    sleepingPutters: set<Tid>,  // waiting on notFull_
    wokenPutters: set<Tid>,
    offers: map<Tid, Item>,     // what each waiting producer wants to put
    accepted: seq<Item>,        // history: items put
    taken: seq<Item>)           // history: items taken

  /** wake: the threads that the notify() of the step takes off its condition; a signal wakes at least one sleeper. */
  datatype Step =
    | Put(t: Tid, x: Item, wake: set<Tid>)
    | PutAgain(t: Tid, wake: set<Tid>)
    | Take(t: Tid, wake: set<Tid>)
    | TakeAgain(t: Tid, wake: set<Tid>)
    | Spurious(t: Tid)
    | Stop

  predicate Full(s: State) {
    s.limit.AtMost? && |s.queue| >= s.limit.capacity
  }

  predicate Outside(s: State, t: Tid) {
    t !in s.sleepingTakers + s.wokenTakers + s.sleepingPutters + s.wokenPutters
  }

  predicate Signal(wake: set<Tid>, sleepers: set<Tid>) {
    wake <= sleepers && (sleepers != {} ==> wake != {})
  }

  /** Does a producer in the mutex get to push, and a consumer to pop? */
  predicate Pushes(s: State) {
    s.running && !Full(s)
  }

  predicate Pops(s: State) {
    s.queue != []
  }

  predicate WakesTakers(s: State, wake: set<Tid>) {
    if Pushes(s) then Signal(wake, s.sleepingTakers) else wake == {}
  }

  predicate WakesPutters(s: State, wake: set<Tid>) {
    if Pops(s) && s.limit.AtMost? then Signal(wake, s.sleepingPutters) else wake == {}
  }

  predicate Enabled(s: State, step: Step) {
    match step
    case Put(t, _, wake) => Outside(s, t) && WakesTakers(s, wake)
    case PutAgain(t, wake) => t in s.wokenPutters && t in s.offers && WakesTakers(s, wake)
    case Take(t, wake) => Outside(s, t) && WakesPutters(s, wake)
    case TakeAgain(t, wake) => t in s.wokenTakers && WakesPutters(s, wake)
    case Spurious(t) => t in s.sleepingTakers + s.sleepingPutters
    case Stop => true
  }

  /** The body of put or run, for a producer that holds the mutex and no other place in the monitor. */
  function PutBody(s: State, t: Tid, x: Item, wake: set<Tid>): State {
    if Full(s) && s.running then s.(sleepingPutters := s.sleepingPutters + {t}, offers := s.offers[t := x])
    else if !s.running then s
    else s.(queue := s.queue + [x], accepted := s.accepted + [x],
            sleepingTakers := s.sleepingTakers - wake, wokenTakers := s.wokenTakers + wake)
  }

  /** The body of take, likewise. */
  function TakeBody(s: State, t: Tid, wake: set<Tid>): State {
    if s.queue == [] && s.running then s.(sleepingTakers := s.sleepingTakers + {t})
    else if s.queue == [] then s
    else s.(queue := s.queue[1..], taken := s.taken + [s.queue[0]],
            sleepingPutters := s.sleepingPutters - wake, wokenPutters := s.wokenPutters + wake)
  }

  function After(s: State, step: Step): State
    requires Enabled(s, step)
  {
    match step
    case Put(t, x, wake) => PutBody(s, t, x, wake)
    case PutAgain(t, wake) =>
      PutBody(s.(wokenPutters := s.wokenPutters - {t}, offers := s.offers - {t}), t, s.offers[t], wake)
    case Take(t, wake) => TakeBody(s, t, wake)
    case TakeAgain(t, wake) => TakeBody(s.(wokenTakers := s.wokenTakers - {t}), t, wake)
    case Spurious(t) =>
      if t in s.sleepingTakers then s.(sleepingTakers := s.sleepingTakers - {t}, wokenTakers := s.wokenTakers + {t})
      else s.(sleepingPutters := s.sleepingPutters - {t}, wokenPutters := s.wokenPutters + {t})
    case Stop =>
      s.(running := false,
         sleepingTakers := {}, wokenTakers := s.wokenTakers + s.sleepingTakers,
         sleepingPutters := {}, wokenPutters := s.wokenPutters + s.sleepingPutters)
  }

  function Initial(limit: Limit): State {
    State(limit, true, [], {}, {}, {}, {}, map[], [], [])
  }

  predicate Legal(s: State, run: seq<Step>)
    decreases run
  {
    run == [] || (Enabled(s, run[0]) && Legal(After(s, run[0]), run[1..]))
  }

  function Final(s: State, run: seq<Step>): State
    requires Legal(s, run)
    decreases run
  {
    if run == [] then s else Final(After(s, run[0]), run[1..])
  }

  // ---- what every interleaving keeps ----

  predicate Apart(s: State) {
    && s.sleepingTakers !! s.wokenTakers && s.sleepingPutters !! s.wokenPutters
    && s.sleepingTakers + s.wokenTakers !! s.sleepingPutters + s.wokenPutters
    && s.sleepingPutters + s.wokenPutters <= s.offers.Keys
  }

  /** A consumer sleeps only while running, and then the items are no more than the consumers on their way to them. */
  predicate TakersServed(s: State, slack: nat) {
    s.sleepingTakers != {} ==> s.running && |s.queue| <= |s.wokenTakers| + slack
  }

  /** Dually for producers and free slots. */
  predicate PuttersServed(s: State, slack: nat) {
    s.sleepingPutters != {} ==> s.running && s.limit.AtMost? && s.limit.capacity - |s.queue| <= |s.wokenPutters| + slack
  }

  predicate Conserved(s: State) {
    && s.accepted == s.taken + s.queue
    && (s.limit.AtMost? ==> |s.queue| <= s.limit.capacity)
  }

  predicate Inv(s: State) {
    Apart(s) && Conserved(s) && TakersServed(s, 0) && PuttersServed(s, 0)
  }

  lemma Woken(woken: set<Tid>, wake: set<Tid>, sleepers: set<Tid>)
    requires Signal(wake, sleepers) && sleepers !! woken
    ensures sleepers - wake != {} ==> |woken + wake| > |woken|
  {
    if wake != {} {
      var w :| w in wake;
      assert woken < woken + wake;
      assert |woken + wake| == |woken| + |wake|;
    }
  }

  /** The body of put keeps the invariant, even when its thread was counted as a woken one a moment ago. */
  lemma PutBodyKeepsInv(s: State, t: Tid, x: Item, wake: set<Tid>)
    requires Apart(s) && Conserved(s) && TakersServed(s, 0) && PuttersServed(s, 1)
    requires Outside(s, t) && WakesTakers(s, wake)
    ensures Inv(PutBody(s, t, x, wake))
  {
    if Pushes(s) {
      Woken(s.wokenTakers, wake, s.sleepingTakers);
      assert s.accepted + [x] == s.taken + (s.queue + [x]);
      var s1 := s.(queue := s.queue + [x], accepted := s.accepted + [x],
                   sleepingTakers := s.sleepingTakers - wake, wokenTakers := s.wokenTakers + wake);
      assert PutBody(s, t, x, wake) == s1;
      assert Apart(s1) && Conserved(s1);
    }
  }

  lemma FirstMoves(taken: seq<Item>, queue: seq<Item>)
    requires queue != []
    ensures taken + queue == taken + [queue[0]] + queue[1..]
  {
    assert queue == [queue[0]] + queue[1..];
  }

  lemma TakeBodyKeepsInv(s: State, t: Tid, wake: set<Tid>)
    requires Apart(s) && Conserved(s) && TakersServed(s, 1) && PuttersServed(s, 0)
    requires Outside(s, t) && WakesPutters(s, wake)
    ensures Inv(TakeBody(s, t, wake))
  {
    if Pops(s) {
      if s.limit.AtMost? {
        Woken(s.wokenPutters, wake, s.sleepingPutters);
      }
      FirstMoves(s.taken, s.queue);
      var s1 := s.(queue := s.queue[1..], taken := s.taken + [s.queue[0]],
                   sleepingPutters := s.sleepingPutters - wake, wokenPutters := s.wokenPutters + wake);
      assert TakeBody(s, t, wake) == s1;
      assert Apart(s1) && Conserved(s1);
    }
  }

  lemma PutAgainKeepsInv(s: State, t: Tid, wake: set<Tid>)
    requires Inv(s) && Enabled(s, PutAgain(t, wake))
    ensures Inv(After(s, PutAgain(t, wake)))
  {
    var back := s.(wokenPutters := s.wokenPutters - {t}, offers := s.offers - {t});
    assert |s.wokenPutters| == |back.wokenPutters| + 1;
    PutBodyKeepsInv(back, t, s.offers[t], wake);
  }

  lemma TakeAgainKeepsInv(s: State, t: Tid, wake: set<Tid>)
    requires Inv(s) && Enabled(s, TakeAgain(t, wake))
    ensures Inv(After(s, TakeAgain(t, wake)))
  {
    var back := s.(wokenTakers := s.wokenTakers - {t});
    assert |s.wokenTakers| == |back.wokenTakers| + 1;
    TakeBodyKeepsInv(back, t, wake);
  }

  lemma OneMore(woken: set<Tid>, t: Tid)
    requires t !in woken
    ensures |woken + {t}| == |woken| + 1
  {
  }

  lemma SpuriousTaker(s: State, t: Tid)
    requires Inv(s) && t in s.sleepingTakers
    ensures Inv(After(s, Spurious(t)))
  {
    OneMore(s.wokenTakers, t);
    var s1 := s.(sleepingTakers := s.sleepingTakers - {t}, wokenTakers := s.wokenTakers + {t});
    assert After(s, Spurious(t)) == s1;
    assert Apart(s1);
  }

  lemma SpuriousPutter(s: State, t: Tid)
    requires Inv(s) && t !in s.sleepingTakers && t in s.sleepingPutters
    ensures Inv(After(s, Spurious(t)))
  {
    OneMore(s.wokenPutters, t);
    var s1 := s.(sleepingPutters := s.sleepingPutters - {t}, wokenPutters := s.wokenPutters + {t});
    assert After(s, Spurious(t)) == s1;
    assert Apart(s1);
  }

  lemma SpuriousKeepsInv(s: State, t: Tid)
    requires Inv(s) && Enabled(s, Spurious(t))
    ensures Inv(After(s, Spurious(t)))
  {
    if t in s.sleepingTakers {
      SpuriousTaker(s, t);
    } else {
      SpuriousPutter(s, t);
    }
  }

  lemma StepKeepsInv(s: State, step: Step)
    requires Inv(s) && Enabled(s, step)
    ensures Inv(After(s, step))
  {
    match step
    case Put(t, x, wake) => PutBodyKeepsInv(s, t, x, wake);
    case PutAgain(t, wake) => PutAgainKeepsInv(s, t, wake);
    case Take(t, wake) => TakeBodyKeepsInv(s, t, wake);
    case TakeAgain(t, wake) => TakeAgainKeepsInv(s, t, wake);
    case Spurious(t) => SpuriousKeepsInv(s, t);
    case Stop => StopKeepsInv(s);
  }

  lemma StopKeepsInv(s: State)
    requires Inv(s)
    ensures Inv(After(s, Stop))
  {
  }

  lemma {:induction false} RunKeepsInv(s: State, run: seq<Step>)
    requires Inv(s) && Legal(s, run)
    ensures Inv(Final(s, run))
    decreases run
  {
    if run != [] {
      StepKeepsInv(s, run[0]);
      RunKeepsInv(After(s, run[0]), run[1..]);
    }
  }

  /** What each producer last asked to put. */
  function NextWants(wants: map<Tid, Item>, step: Step): map<Tid, Item> {
    if step.Put? then wants[step.t := step.x] else wants
  }

  /** The item that a step puts: that of the producer whose turn it is, if the queue takes it. */
  function PutBy(s: State, wants: map<Tid, Item>, step: Step): seq<Item> {
    if !Pushes(s) then []
    else if step.Put? then [step.x]
    else if step.PutAgain? && step.t in wants then [wants[step.t]]
    else []
  }

  /** The items that the steps of a run put. */
  function ItemsPut(s: State, wants: map<Tid, Item>, run: seq<Step>): seq<Item>
    requires Legal(s, run)
    decreases run
  {
    if run == [] then []
    else PutBy(s, wants, run[0]) + ItemsPut(After(s, run[0]), NextWants(wants, run[0]), run[1..])
  }

  /** Waiting producers still offer what they asked to put. */
  predicate Offered(s: State, wants: map<Tid, Item>) {
    forall t :: t in s.sleepingPutters + s.wokenPutters ==> t in s.offers && t in wants && s.offers[t] == wants[t]
  }

  lemma StepOffers(s: State, wants: map<Tid, Item>, step: Step)
    requires Apart(s) && Enabled(s, step) && Offered(s, wants)
    ensures Offered(After(s, step), NextWants(wants, step))
    ensures After(s, step).accepted == s.accepted + PutBy(s, wants, step)
  {
    assert s.accepted + [] == s.accepted;
  }

  lemma {:induction false} AcceptedArePut(s: State, wants: map<Tid, Item>, run: seq<Step>)
    requires Inv(s) && Legal(s, run) && Offered(s, wants)
    ensures Final(s, run).accepted == s.accepted + ItemsPut(s, wants, run)
    decreases run
  {
    if run == [] {
      assert s.accepted + [] == s.accepted;
    } else {
      StepKeepsInv(s, run[0]);
      StepOffers(s, wants, run[0]);
      var later := ItemsPut(After(s, run[0]), NextWants(wants, run[0]), run[1..]);
      AcceptedArePut(After(s, run[0]), NextWants(wants, run[0]), run[1..]);
      Adjoin(s.accepted, PutBy(s, wants, run[0]), later);
    }
  }

  lemma Adjoin(a: seq<Item>, b: seq<Item>, c: seq<Item>)
    ensures a + b + c == a + (b + c)
  {
  }

  /** Items leave in the order they were put by the steps of the run, and never exceed the capacity. */
  lemma ItemsLeaveInOrder(limit: Limit, run: seq<Step>)
    requires Legal(Initial(limit), run)
    ensures var e := Final(Initial(limit), run);
            e.taken + e.queue == ItemsPut(Initial(limit), map[], run) && (limit.AtMost? ==> |e.queue| <= limit.capacity)
  {
    RunKeepsInv(Initial(limit), run);
    LimitIsFixed(Initial(limit), run);
    AcceptedArePut(Initial(limit), map[], run);
    assert [] + ItemsPut(Initial(limit), map[], run) == ItemsPut(Initial(limit), map[], run);
  }

  lemma {:induction false} LimitIsFixed(s: State, run: seq<Step>)
    requires Legal(s, run)
    ensures Final(s, run).limit == s.limit
    decreases run
  {
    if run != [] {
      LimitIsFixed(After(s, run[0]), run[1..]);
    }
  }

  /** In every interleaving, spurious wakeups included: nobody sleeps beside work that nobody else is about to do. */
  lemma NoStrandedSleeper(limit: Limit, run: seq<Step>)
    requires Legal(Initial(limit), run)
    ensures var e := Final(Initial(limit), run);
            && (e.sleepingTakers != {} ==> |e.queue| <= |e.wokenTakers|)
            && (e.sleepingPutters != {} ==> limit.AtMost? && limit.capacity - |e.queue| <= |e.wokenPutters|)
  {
    RunKeepsInv(Initial(limit), run);
    LimitIsFixed(Initial(limit), run);
  }

  /** Producers and consumers are never all asleep together. */
  lemma NoDeadlock(limit: Limit, run: seq<Step>)
    requires Legal(Initial(limit), run) && limit != AtMost(0)
    ensures var e := Final(Initial(limit), run);
            e.sleepingTakers != {} && e.sleepingPutters != {} ==> e.wokenTakers != {} || e.wokenPutters != {}
  {
    NoStrandedSleeper(limit, run);
  }

  lemma StoppedStep(e: State, step: Step)
    requires e.sleepingTakers == {} && e.sleepingPutters == {} && !e.running && Enabled(e, step)
    ensures After(e, step).wokenTakers == (if step.TakeAgain? then e.wokenTakers - {step.t} else e.wokenTakers)
    ensures After(e, step).wokenPutters == (if step.PutAgain? then e.wokenPutters - {step.t} else e.wokenPutters)
    ensures After(e, step).sleepingTakers == {} && After(e, step).sleepingPutters == {}
  {
  }

  /** The monitor runs exactly until stop(). */
  lemma {:induction false} RunningUntilStop(s: State, run: seq<Step>)
    requires Legal(s, run)
    ensures Final(s, run).running <==> s.running && Stop !in run
    decreases run
  {
    if run != [] {
      assert run == [run[0]] + run[1..];
      RunningUntilStop(After(s, run[0]), run[1..]);
    }
  }

  /** After stop() nobody is asleep, and every thread still inside leaves at its next turn in the mutex. */
  lemma StopReleasesAll(limit: Limit, run: seq<Step>, step: Step)
    requires Legal(Initial(limit), run) && Stop in run && Enabled(Final(Initial(limit), run), step)
    ensures var e := Final(Initial(limit), run);
            && e.sleepingTakers == {} && e.sleepingPutters == {}
            && After(e, step).sleepingTakers == {} && After(e, step).sleepingPutters == {}
            && After(e, step).wokenTakers == (if step.TakeAgain? then e.wokenTakers - {step.t} else e.wokenTakers)
            && After(e, step).wokenPutters == (if step.PutAgain? then e.wokenPutters - {step.t} else e.wokenPutters)
  {
    RunKeepsInv(Initial(limit), run);
    RunningUntilStop(Initial(limit), run);
    StoppedStep(Final(Initial(limit), run), step);
  }

  // ---- the class ----

  /**
   One stay in the mutex per method: a thread that must wait goes to sleep, and its next turn calls the method again.
   The sleepers that notify() wakes are the environment's choice, any that a signal may wake.
   */
  class Monitor {
    const limit: Limit
    var running: bool
    var queue: seq<Item>
    ghost var past: State      // the threads and the history

    ghost function View(): State
      reads this
    {
      past.(limit := limit, running := running, queue := queue)
    }

    constructor (limit: Limit)
      ensures this.limit == limit && View() == Initial(limit)
    {
      this.limit := limit;
      running, queue, past := true, [], Initial(limit);
    }

    method IsFull() returns (full: bool)
      ensures full == Full(View())
    {
      full := limit.AtMost? && |queue| >= limit.capacity;
    }

    /** put, or run: returns whether the call is over. */
    method Put(t: Tid, x: Item, ghost wake: set<Tid>) returns (over: bool)
      requires Enabled(View(), Step.Put(t, x, wake))
      modifies this
      ensures View() == After(old(View()), Step.Put(t, x, wake)) && (over <==> t !in past.sleepingPutters)
    {
      var full := IsFull();
      if full && running {
        past := past.(sleepingPutters := past.sleepingPutters + {t}, offers := past.offers[t := x]);
        return false;
      }
      over := true;
      if running {
        queue := queue + [x];
        past := past.(accepted := past.accepted + [x],
                      sleepingTakers := past.sleepingTakers - wake, wokenTakers := past.wokenTakers + wake);
      }
    }

    /** The next turn of a producer that was woken in its wait loop. */
    method PutAgain(t: Tid, x: Item, ghost wake: set<Tid>) returns (over: bool)
      requires Apart(View()) && Enabled(View(), Step.PutAgain(t, wake)) && past.offers[t] == x
      modifies this
      ensures View() == After(old(View()), Step.PutAgain(t, wake)) && (over <==> t !in past.sleepingPutters)
    {
      past := past.(wokenPutters := past.wokenPutters - {t}, offers := past.offers - {t});
      over := Put(t, x, wake);
    }

    /** take: returns whether the call is over, and the item if there was one. */
    method Take(t: Tid, ghost wake: set<Tid>) returns (over: bool, item: Option<Item>)
      requires Enabled(View(), Step.Take(t, wake))
      modifies this
      ensures View() == After(old(View()), Step.Take(t, wake)) && (over <==> t !in past.sleepingTakers)
      ensures item == if old(queue) == [] then None else Some(old(queue)[0])
    {
      if queue == [] && running {
        past := past.(sleepingTakers := past.sleepingTakers + {t});
        return false, None;
      }
      over, item := true, None;
      if queue != [] {
        item := Some(queue[0]);
        queue := queue[1..];
        past := past.(taken := past.taken + [item.value],
                      sleepingPutters := past.sleepingPutters - wake, wokenPutters := past.wokenPutters + wake);
      }
    }

    /** The next turn of a consumer that was woken in its wait loop. */
    method TakeAgain(t: Tid, ghost wake: set<Tid>) returns (over: bool, item: Option<Item>)
      requires Apart(View()) && Enabled(View(), Step.TakeAgain(t, wake))
      modifies this
      ensures View() == After(old(View()), Step.TakeAgain(t, wake)) && (over <==> t !in past.sleepingTakers)
      ensures item == if old(queue) == [] then None else Some(old(queue)[0])
    {
      past := past.(wokenTakers := past.wokenTakers - {t});
      over, item := Take(t, wake);
    }
  }
}
