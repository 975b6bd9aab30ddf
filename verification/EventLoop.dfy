/**
 The cross-thread functor queue of muduo/net/EventLoop.cc: one loop thread and any number of
 producer threads, interleaved at every point where a lock or the eventfd separates them.
 */
module EventLoops {

  /** A functor handed to queueInLoop, by identity. */
  type Functor = nat
  type Tid = nat

  /** The largest value an eventfd counter holds; a further write fails and leaves it. */
  const EVENTFD_MAX: nat := 0xffff_ffff_ffff_fffe

  /** Where the loop thread is: in poll, in event handlers, in doPendingFunctors after the swap, or out of the loop. */
  datatype Pc = Polling | Handling | Calling | Stopped

  datatype State = State(
    pc: Pc,
    pending: seq<Functor>,   // pendingFunctors_
    batch: seq<Functor>,     // the rest of the swapped-out vector
    wakeups: nat,            // the eventfd counter
    quit: bool,
    owing: set<Tid>,         // other threads between their push (or quit) and their wakeup() write
    selfOwes: bool,          // the loop thread, inside a functor, between push and write
    polls: nat,              // polls entered by this run of loop()
    early: nat,              // how many functors were waiting when loop() began
    queued: seq<Functor>,    // history: every functor pushed
    executed: seq<Functor>,  // history: every functor run by doPendingFunctors
    mark: nat)               // history: how many had been pushed when the last poll returned

  datatype Step =
    | PollReturns                        // an event or the timeout
    | HandleRead                         // the wakeup channel's handler reads the eventfd
    | HandlerQueues(f: Functor)          // a handler calls queueInLoop on the loop thread
    | SwapPending
    | RunNext
    | FunctorQueues(f: Functor)          // a functor calls queueInLoop: push
    | FunctorWakes                       // ... and wakeup()
    | EndBatch
    | ProducerPushes(t: Tid, f: Functor) // another thread in queueInLoop: push
    | ProducerQuits(t: Tid)              // another thread in quit(): set the flag
    | ProducerWakes(t: Tid)              // either of them: wakeup()
    | LoopQuits                          // quit() on the loop thread

  predicate Enabled(s: State, step: Step) {
    match step
    case PollReturns => s.pc == Polling
    case HandleRead => s.pc == Handling
    case HandlerQueues(_) => s.pc == Handling
    case SwapPending => s.pc == Handling
    case RunNext => s.pc == Calling && s.batch != [] && !s.selfOwes
    case FunctorQueues(_) => s.pc == Calling && !s.selfOwes
    case FunctorWakes => s.pc == Calling && s.selfOwes
    case EndBatch => s.pc == Calling && s.batch == [] && !s.selfOwes
    case ProducerPushes(t, _) => t !in s.owing
    case ProducerQuits(t) => t !in s.owing
    case ProducerWakes(t) => t in s.owing
    case LoopQuits => s.pc == Handling || (s.pc == Calling && !s.selfOwes)
  }

  function Written(wakeups: nat): nat {
    if wakeups < EVENTFD_MAX then wakeups + 1 else wakeups
  }

  function After(s: State, step: Step): State
    requires Enabled(s, step)
  {
    match step
    case PollReturns => s.(pc := Handling, mark := |s.queued|)
    case HandleRead => s.(wakeups := 0)
    case HandlerQueues(f) => s.(pending := s.pending + [f], queued := s.queued + [f])
    case SwapPending => s.(pc := Calling, batch := s.pending, pending := [])
    case RunNext => s.(executed := s.executed + [s.batch[0]], batch := s.batch[1..])
    case FunctorQueues(f) => s.(pending := s.pending + [f], queued := s.queued + [f], selfOwes := true)
    case FunctorWakes => s.(wakeups := Written(s.wakeups), selfOwes := false)
    case EndBatch => if s.quit then s.(pc := Stopped) else s.(pc := Polling, polls := s.polls + 1)
    case ProducerPushes(t, f) => s.(pending := s.pending + [f], queued := s.queued + [f], owing := s.owing + {t})
    case ProducerQuits(t) => s.(quit := true, owing := s.owing + {t})
    case ProducerWakes(t) => s.(wakeups := Written(s.wakeups), owing := s.owing - {t})
    case LoopQuits => s.(quit := true)
  }

  /** loop() has just begun; functors may already be waiting. */
  predicate Init(s: State) {
    && s.pc == Polling && s.polls == 1 && s.batch == [] && s.executed == [] && s.queued == s.pending
    && s.early == |s.pending| && s.owing == {} && !s.selfOwes && !s.quit && s.mark == 0
  }

  predicate Legal(s: State, run: seq<Step>)
    decreases run
  {
    run == [] || (Enabled(s, run[0]) && Legal(After(s, run[0]), run[1..]))
  }

  function Final(s: State, run: seq<Step>): State
    requires Legal(s, run)
    decreases run
  {
    if run == [] then s else Final(After(s, run[0]), run[1..])
  }

  // ---- what every interleaving keeps ----

  /** Something will still make the next poll return at once. */
  predicate WakeupDue(s: State) {
    s.wakeups > 0 || s.owing != {} || s.selfOwes
  }

  /** Not only functors that were queued before loop() began. */
  predicate Covered(s: State) {
    s.polls > 1 || |s.queued| > s.early
  }

  predicate Inv(s: State) {
    && s.executed + s.batch + s.pending == s.queued
    && (s.batch != [] ==> s.pc == Calling)
    && (s.selfOwes ==> s.pc == Calling)
    && (s.pc == Calling && s.pending != [] ==> WakeupDue(s))
    && (s.pc == Polling && s.pending != [] && Covered(s) ==> WakeupDue(s))
    && (s.pc == Polling && s.quit ==> WakeupDue(s))
    && s.polls > 0
    && match s.pc
       case Polling => s.mark <= |s.executed|
       case Handling => s.mark <= |s.queued|
       case Calling => s.mark <= |s.executed| + |s.batch|
       case Stopped => s.mark <= |s.executed|
  }

  lemma StepKeepsInv(s: State, step: Step)
    requires Inv(s) && Enabled(s, step)
    ensures Inv(After(s, step))
  {
    if step == RunNext {
      assert s.executed + [s.batch[0]] + s.batch[1..] == s.executed + s.batch;
    }
  }

  lemma {:induction false} RunKeepsInv(s: State, run: seq<Step>)
    requires Inv(s) && Legal(s, run)
    ensures Inv(Final(s, run))
    decreases run
  {
    if run != [] {
      StepKeepsInv(s, run[0]);
      RunKeepsInv(After(s, run[0]), run[1..]);
    }
  }

  function PushedBy(step: Step): seq<Functor> {
    if step.HandlerQueues? || step.FunctorQueues? || step.ProducerPushes? then [step.f] else []
  }

  /** The functors that the steps of a run push. */
  function Pushed(run: seq<Step>): seq<Functor> {
    if run == [] then [] else PushedBy(run[0]) + Pushed(run[1..])
  }

  lemma StepQueues(s: State, step: Step)
    requires Enabled(s, step)
    ensures After(s, step).queued == s.queued + PushedBy(step)
  {
    assert s.queued + [] == s.queued;
  }

  lemma {:induction false} QueuedIsPushed(s: State, run: seq<Step>)
    requires Legal(s, run)
    ensures Final(s, run).queued == s.queued + Pushed(run) && Final(s, run).early == s.early
    decreases run
  {
    if run == [] {
      assert s.queued + [] == s.queued;
    } else {
      StepQueues(s, run[0]);
      QueuedIsPushed(After(s, run[0]), run[1..]);
      Adjoin(s.queued, PushedBy(run[0]), Pushed(run[1..]));
    }
  }

  lemma Adjoin(a: seq<Functor>, b: seq<Functor>, c: seq<Functor>)
    ensures a + b + c == a + (b + c)
  {
  }

  /**
   No functor is lost, duplicated or reordered, whatever the interleaving: those executed, the rest of the batch and
   those pending are the ones waiting at first and then the ones pushed by the run.
   */
  lemma FunctorsRunInOrder(s: State, run: seq<Step>)
    requires Init(s) && Legal(s, run)
    ensures var e := Final(s, run); e.executed + e.batch + e.pending == s.pending + Pushed(run)
  {
    RunKeepsInv(s, run);
    QueuedIsPushed(s, run);
  }

  // ---- when the loop ends ----

  predicate Quits(step: Step) {
    step.ProducerQuits? || step.LoopQuits?
  }

  predicate NoQuit(run: seq<Step>) {
    forall i :: 0 <= i < |run| ==> !Quits(run[i])
  }

  function Rounds(run: seq<Step>): nat {
    if run == [] then 0 else (if run[0].EndBatch? then 1 else 0) + Rounds(run[1..])
  }

  /** The loop goes on for as long as nobody has quit: each round ends in another poll. */
  lemma {:induction false} LoopsUntilQuit(s: State, run: seq<Step>)
    requires Legal(s, run) && !s.quit && s.pc != Stopped && NoQuit(run)
    ensures var e := Final(s, run); !e.quit && e.pc != Stopped && e.polls == s.polls + Rounds(run)
    decreases run
  {
    if run != [] {
      assert !Quits(run[0]);
      LoopsUntilQuit(After(s, run[0]), run[1..]);
    }
  }

  /** Once someone has quit, the flag stays; the round that sees it is the last. */
  lemma {:induction false} QuitIsKept(s: State, run: seq<Step>)
    requires Legal(s, run) && s.quit
    ensures var e := Final(s, run); e.quit && e.polls == s.polls
    ensures EndBatch in run ==> Final(s, run).pc == Stopped
    ensures s.pc == Stopped ==> Final(s, run).pc == Stopped
    decreases run
  {
    if run != [] {
      assert run == [run[0]] + run[1..];
      QuitIsKept(After(s, run[0]), run[1..]);
    }
  }

  /**
   loop() ends if and only if a round ends after a quit: a run with no quit polls once more for each round, and the
   first round to end after a quit is the last.
   */
  lemma LoopEndsExactly(s: State, run: seq<Step>, quit: Step, rest: seq<Step>)
    requires Init(s) && Legal(s, run) && NoQuit(run) && Quits(quit)
    requires Enabled(Final(s, run), quit) && Legal(After(Final(s, run), quit), rest)
    ensures Final(s, run).pc != Stopped && Final(s, run).polls == 1 + Rounds(run)
    ensures var e := Final(After(Final(s, run), quit), rest);
            e.polls == 1 + Rounds(run) && (e.pc == Stopped <==> EndBatch in rest)
  {
    LoopsUntilQuit(s, run);
    QuitIsKept(After(Final(s, run), quit), rest);
    NotStoppedWithoutRound(After(Final(s, run), quit), rest);
  }

  lemma {:induction false} NotStoppedWithoutRound(s: State, run: seq<Step>)
    requires Legal(s, run) && s.pc != Stopped
    ensures EndBatch !in run ==> Final(s, run).pc != Stopped
    decreases run
  {
    if run != [] && !run[0].EndBatch? {
      assert run == [run[0]] + run[1..];
      NotStoppedWithoutRound(After(s, run[0]), run[1..]);
    }
  }

  /** A loop that has ended was told to quit. */
  lemma StoppedOnlyByQuit(s: State, run: seq<Step>)
    requires Init(s) && Legal(s, run) && Final(s, run).pc == Stopped
    ensures exists i :: 0 <= i < |run| && Quits(run[i])
  {
    if NoQuit(run) {
      LoopsUntilQuit(s, run);
    }
  }

  // ---- wakeups ----

  /** The eventfd counter after a run: the writes since it was last read. */
  function Counter(n: nat, run: seq<Step>): nat
    decreases run
  {
    if run == [] then n
    else Counter(match run[0]
                 case HandleRead => 0
                 case FunctorWakes => Written(n)
                 case ProducerWakes(_) => Written(n)
                 case _ => n, run[1..])
  }

  /** The threads that have pushed or quit in a run and not yet written to the eventfd. */
  function Owing(threads: set<Tid>, run: seq<Step>): set<Tid>
    decreases run
  {
    if run == [] then threads
    else Owing(match run[0]
               case ProducerPushes(t, _) => threads + {t}
               case ProducerQuits(t) => threads + {t}
               case ProducerWakes(t) => threads - {t}
               case _ => threads, run[1..])
  }

  lemma {:induction false} EventfdExact(s: State, run: seq<Step>)
    requires Legal(s, run)
    ensures Final(s, run).wakeups == Counter(s.wakeups, run) && Final(s, run).owing == Owing(s.owing, run)
    decreases run
  {
    if run != [] {
      EventfdExact(After(s, run[0]), run[1..]);
    }
  }

  /**
   No lost wakeup: waiting functors, or a quit, mean that the eventfd is readable or that some other
   thread is about to make it so, at every poll; at the first one, given a functor queued since loop() began.
   */
  lemma NoLostWakeup(s: State, run: seq<Step>)
    requires Init(s) && Legal(s, run)
    ensures var e := Final(s, run);
            e.pc == Polling && ((e.pending != [] && (e.polls > 1 || Pushed(run) != [])) || !NoQuit(run)) ==>
              Counter(s.wakeups, run) > 0 || Owing({}, run) != {}
  {
    RunKeepsInv(s, run);
    EventfdExact(s, run);
    QueuedIsPushed(s, run);
    QuitExact(s, run);
  }

  lemma {:induction false} QuitExact(s: State, run: seq<Step>)
    requires Legal(s, run)
    ensures Final(s, run).quit <==> s.quit || !NoQuit(run)
    decreases run
  {
    if run != [] {
      QuitExact(After(s, run[0]), run[1..]);
      assert NoQuit(run) <==> !Quits(run[0]) && NoQuit(run[1..]) by {
        assert forall i :: 0 < i < |run| ==> run[i] == run[1..][i - 1];
      }
    }
  }

  lemma {:induction false} MarkIsKept(s: State, run: seq<Step>)
    requires Legal(s, run) && PollReturns !in run
    ensures Final(s, run).mark == s.mark && s.queued <= Final(s, run).queued
    decreases run
  {
    if run != [] {
      assert run == [run[0]] + run[1..];
      StepQueues(s, run[0]);
      MarkIsKept(After(s, run[0]), run[1..]);
    }
  }

  /**
   Everything that was waiting at first or pushed by the time a poll returns has been run, in order, when the next
   poll begins or the loop ends.
   */
  lemma EachRoundDrains(s: State, run: seq<Step>, rest: seq<Step>)
    requires Init(s) && Legal(s, run) && Enabled(Final(s, run), PollReturns)
    requires Legal(After(Final(s, run), PollReturns), rest) && PollReturns !in rest
    ensures var e := Final(After(Final(s, run), PollReturns), rest);
            e.pc == Polling || e.pc == Stopped ==> s.pending + Pushed(run) <= e.executed
  {
    RunKeepsInv(s, run);
    QueuedIsPushed(s, run);
    var s1 := After(Final(s, run), PollReturns);
    StepKeepsInv(Final(s, run), PollReturns);
    RunKeepsInv(s1, rest);
    MarkIsKept(s1, rest);
    var e := Final(s1, rest);
    if e.pc == Polling || e.pc == Stopped {
      assert e.batch == [];
      assert e.executed <= e.queued && s1.queued <= e.queued && |s1.queued| <= |e.executed|;
      PrefixOfPrefix(s1.queued, e.executed, e.queued);
    }
  }

  lemma PrefixOfPrefix(a: seq<Functor>, b: seq<Functor>, c: seq<Functor>)
    requires a <= c && b <= c && |a| <= |b|
    ensures a <= b
  {
    assert a == c[..|a|] && b == c[..|b|];
  }

  // ---- the class ----

  lemma {:induction false} RunsCompose(s: State, first: seq<Step>, second: seq<Step>)
    requires Legal(s, first) && Legal(Final(s, first), second)
    ensures Legal(s, first + second) && Final(s, first + second) == Final(Final(s, first), second)
    decreases first
  {
    if first == [] {
      assert first + second == second;
    } else {
      assert (first + second)[0] == first[0] && (first + second)[1..] == first[1..] + second;
      RunsCompose(After(s, first[0]), first[1..], second);
    }
  }

  lemma OneStep(s: State, step: Step)
    requires Enabled(s, step)
    ensures Legal(s, [step]) && Final(s, [step]) == After(s, step)
  {
    assert Legal(After(s, step), []);
  }

  lemma TwoSteps(s: State, first: Step, second: Step)
    requires Enabled(s, first) && Enabled(After(s, first), second)
    ensures Legal(s, [first, second]) && Final(s, [first, second]) == After(After(s, first), second)
  {
    assert [first, second][1..] == [second];
    OneStep(After(s, first), second);
  }

  function Joined(calls: seq<seq<Functor>>): seq<Functor> {
    if calls == [] then [] else Joined(calls[..|calls| - 1]) + calls[|calls| - 1]
  }

  /** The methods on the source's fields, each tied to the run of the machine that it performs when nobody interrupts it. */
  class EventLoop {
    var pending: seq<Functor>
    var calling: bool
    var wakeups: nat
    ghost var past: State      // the other fields of the state

    ghost function View(): State
      reads this
    {
      past.(pending := pending, wakeups := wakeups)
    }

    ghost predicate Valid()
      reads this
    {
      Inv(View()) && (calling <==> past.pc == Calling) && (past.pc == Calling ==> !past.selfOwes)
    }

    constructor ()
      ensures Valid() && Init(View()) && pending == [] && !calling
    {
      pending, calling, wakeups := [], false, 0;
      past := State(Polling, [], [], 0, false, {}, false, 1, 0, [], [], 0);
    }

    method Wakeup()
      modifies this`wakeups
      ensures wakeups == Written(old(wakeups))
    {
      if wakeups < EVENTFD_MAX {
        wakeups := wakeups + 1;
      }
    }

    /** queueInLoop, from a handler or functor on the loop thread, or from another thread. */
    method QueueInLoop(f: Functor, inLoopThread: bool, t: Tid) returns (ghost run: seq<Step>)
      requires Valid()
      requires if inLoopThread then past.pc == Handling || past.pc == Calling else t !in past.owing
      modifies this
      ensures Valid() && past.pc == old(past.pc) && past.batch == old(past.batch) && past.executed == old(past.executed)
      ensures pending == old(pending) + [f] && calling == old(calling)
      ensures Legal(old(View()), run) && Final(old(View()), run) == View()
    {
      ghost var s := View();
      run := if !inLoopThread then [ProducerPushes(t, f), ProducerWakes(t)]
             else if calling then [FunctorQueues(f), FunctorWakes]
             else [HandlerQueues(f)];
      if |run| == 2 {
        TwoSteps(s, run[0], run[1]);
      } else {
        OneStep(s, run[0]);
      }
      RunKeepsInv(s, run);
      pending := pending + [f];
      if !inLoopThread || calling {
        Wakeup();
      }
      past := Final(s, run);
      assert past.owing == s.owing;
    }

    method CallNext()
      requires Valid() && calling && past.batch != []
      modifies this`past
      ensures Valid() && View() == After(old(View()), RunNext)
      ensures past.batch == old(past.batch)[1..] && past.executed == old(past.executed) + [old(past.batch)[0]]
    {
      StepKeepsInv(View(), RunNext);
      past := After(View(), RunNext);
    }

    /** One functor of the batch runs, and queues others; the run so far is continued. */
    method RunFunctor(queues: seq<Functor>, ghost from: State, ghost sofar: seq<Step>) returns (ghost run: seq<Step>)
      requires Valid() && calling && past.batch != [] && Legal(from, sofar) && Final(from, sofar) == View()
      modifies this
      ensures Valid() && calling && past.batch == old(past.batch)[1..]
      ensures past.executed == old(past.executed) + [old(past.batch)[0]]
      ensures pending == old(pending) + queues
      ensures Legal(from, run) && Final(from, run) == View()
    {
      OneStep(View(), RunNext);
      RunsCompose(from, sofar, [RunNext]);
      run := sofar + [RunNext];
      CallNext();
      for j := 0 to |queues|
        invariant Valid() && calling && past.batch == old(past.batch)[1..] && pending == old(pending) + queues[..j]
        invariant past.executed == old(past.executed) + [old(past.batch)[0]]
        invariant Legal(from, run) && Final(from, run) == View()
      {
        ghost var more := QueueInLoop(queues[j], true, 0);
        RunsCompose(from, run, more);
        run := run + more;
      }
    }

    method SwapPendingFunctors() returns (functors: seq<Functor>)
      requires Valid() && past.pc == Handling
      modifies this
      ensures Valid() && calling && View() == After(old(View()), SwapPending)
      ensures functors == old(pending) == past.batch && pending == [] && past.executed == old(past.executed)
    {
      StepKeepsInv(View(), SwapPending);
      past := After(View(), SwapPending);
      calling := true;
      functors := pending;
      pending := [];
    }

    method FinishCalling()
      requires Valid() && past.pc == Calling && past.batch == []
      modifies this
      ensures Valid() && !calling && View() == After(old(View()), EndBatch)
      ensures pending == old(pending) && past.executed == old(past.executed)
    {
      StepKeepsInv(View(), EndBatch);
      past := After(View(), EndBatch);
      calling := false;
    }

    /** doPendingFunctors; calls[i] is what the i-th functor queues in its turn. */
    method DoPendingFunctors(calls: seq<seq<Functor>>) returns (ghost run: seq<Step>)
      requires Valid() && past.pc == Handling && |calls| == |pending|
      modifies this
      ensures Valid() && !calling
      ensures past.executed == old(past.executed) + old(pending) && pending == Joined(calls)
      ensures Legal(old(View()), run) && Final(old(View()), run) == View()
    {
      ghost var s := View();
      run := [SwapPending];
      OneStep(s, SwapPending);
      var functors := SwapPendingFunctors();
      for i := 0 to |functors|
        invariant Valid() && calling && past.pc == Calling && past.batch == functors[i..]
        invariant past.executed == old(past.executed) + functors[..i] && pending == Joined(calls[..i])
        invariant Legal(s, run) && Final(s, run) == View()
      {
        run := RunFunctor(calls[i], s, run);
        assert calls[..i + 1][..i] == calls[..i];
      }
      OneStep(View(), EndBatch);
      RunsCompose(s, run, [EndBatch]);
      run := run + [EndBatch];
      FinishCalling();
      assert calls[..|calls|] == calls && functors[..|functors|] == functors;
    }
  }
}
