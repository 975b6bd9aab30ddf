/**
 The output path of muduo/net/TcpConnection.cc on the loop thread: a connection over a socket that
 may take any prefix of a write.
 */
module TcpConnections {
  import opened Bytes
  import opened GapBuffer

  datatype Phase = Connecting | Connected | Disconnecting | Disconnected

  /** What write(2) answers: a count, EWOULDBLOCK, EPIPE or ECONNRESET, or another error. */
  datatype WriteResult = Wrote(n: nat) | WouldBlock | Fault | OtherError

  /** A user callback put on the loop's queue. */
  datatype Notice = WriteComplete | HighWater(backlog: nat)

  datatype Conn = Conn(
    phase: Phase,
    writing: bool,           // the channel's interest in POLLOUT
    output: bytes,           // outputBuffer_
    mark: nat,               // highWaterMark_
    onHighWater: bool,       // highWaterMarkCallback_ is set
    onComplete: bool,        // writeCompleteCallback_ is set
    forceCloses: nat,        // forceCloseInLoop functors on the loop's queue
    notices: seq<Notice>,    // history: callbacks queued
    wire: bytes,             // history: bytes the socket took
    accepted: bytes,         // history: messages sent while connected and not lost to a fault
    asked: bool,             // history: shutdown() took effect
    shuts: nat)              // history: shutdownWrite calls

  datatype Event =
    | Establish
    | Send(message: bytes, result: WriteResult)
    | Writable(result: WriteResult)
    | Shutdown
    | ForceClose
    | RunForceClose
    | Close                  // read of zero bytes, or a hang-up
    | Destroy

  function TakenOf(result: WriteResult): nat {
    if result.Wrote? then result.n else 0
  }

  predicate Open(c: Conn) {
    c.phase == Connected || c.phase == Disconnecting
  }

  predicate Enabled(c: Conn, ev: Event) {
    match ev
    case Establish => c.phase == Connecting
    case Send(message, result) => TakenOf(result) <= |message|
    case Writable(result) => TakenOf(result) <= |c.output|
    case Shutdown => true
    case ForceClose => true
    case RunForceClose => c.forceCloses > 0
    case Close => Open(c)
    case Destroy => true
  }

  /** Nothing queued: a message goes to the socket directly. */
  predicate Direct(c: Conn) {
    !c.writing && c.output == []
  }

  /** A message is offered to the socket, unless others wait already. */
  function Offered(c: Conn, message: bytes, result: WriteResult): Conn
    requires TakenOf(result) <= |message|
  {
    var nwrote := if Direct(c) then TakenOf(result) else 0;
    c.(wire := c.wire + message[..nwrote],
       accepted := if Direct(c) && result.Fault? then c.accepted else c.accepted + message,
       notices := if Direct(c) && result.Wrote? && nwrote == |message| && c.onComplete
                  then c.notices + [WriteComplete] else c.notices)
  }

  function SentInLoop(c: Conn, message: bytes, result: WriteResult): Conn
    requires TakenOf(result) <= |message|
  {
    var nwrote := if Direct(c) then TakenOf(result) else 0;
    var c1 := Offered(c, message, result);
    if (Direct(c) && result.Fault?) || nwrote == |message| then c1 else Backlogged(c1, message[nwrote..])
  }

  /** The rest of a message joins the output buffer. */
  function Backlogged(c: Conn, rest: bytes): Conn {
    var oldLen := |c.output|;
    c.(output := c.output + rest, writing := true,
       notices := if oldLen + |rest| >= c.mark && oldLen < c.mark && c.onHighWater
                  then c.notices + [HighWater(oldLen + |rest|)] else c.notices)
  }

  function ShutInLoop(c: Conn): Conn {
    if c.writing then c else c.(shuts := c.shuts + 1)
  }

  function WroteOut(c: Conn, result: WriteResult): Conn
    requires TakenOf(result) <= |c.output|
  {
    var n := TakenOf(result);
    if !c.writing || n == 0 then c
    else
      var c1 := c.(wire := c.wire + c.output[..n], output := c.output[n..]);
      if c1.output != [] then c1
      else
        var c2 := c1.(writing := false, notices := if c.onComplete then c.notices + [WriteComplete] else c.notices);
        if c.phase == Disconnecting then ShutInLoop(c2) else c2
  }

  function Closed(c: Conn): Conn {
    c.(phase := Disconnected, writing := false)
  }

  function After(c: Conn, ev: Event): Conn
    requires Enabled(c, ev)
  {
    match ev
    case Establish => c.(phase := Connected)
    case Send(message, result) => if c.phase == Connected then SentInLoop(c, message, result) else c
    case Writable(result) => WroteOut(c, result)
    case Shutdown => if c.phase == Connected then ShutInLoop(c.(phase := Disconnecting, asked := true)) else c
    case ForceClose => if Open(c) then c.(phase := Disconnecting, forceCloses := c.forceCloses + 1) else c
    case RunForceClose =>
      var c1 := c.(forceCloses := c.forceCloses - 1);
      if Open(c) then Closed(c1) else c1
    case Close => Closed(c)
    case Destroy => if c.phase == Connected then Closed(c) else c
  }

  function Fresh(mark: nat, onHighWater: bool, onComplete: bool): Conn {
    Conn(Connecting, false, [], mark, onHighWater, onComplete, 0, [], [], [], false, 0)
  }

  predicate Legal(c: Conn, run: seq<Event>)
    decreases run
  {
    run == [] || (Enabled(c, run[0]) && Legal(After(c, run[0]), run[1..]))
  }

  function Final(c: Conn, run: seq<Event>): Conn
    requires Legal(c, run)
    decreases run
  {
    if run == [] then c else Final(After(c, run[0]), run[1..])
  }

  // ---- what every run keeps ----

  predicate Inv(c: Conn) {
    && c.wire + c.output == c.accepted
    && (c.phase != Disconnected ==> (c.writing <==> c.output != []))
    && (c.phase == Disconnected ==> !c.writing)
    && (c.phase == Connecting ==> c.output == [])
    && c.shuts <= 1
    && (c.shuts == 1 ==> (c.phase == Disconnecting || c.phase == Disconnected) && c.output == [])
    && (c.phase == Disconnecting && c.asked && c.output == [] ==> c.shuts == 1)
    && (c.asked ==> c.phase == Disconnecting || c.phase == Disconnected)
  }

  lemma SendKeepsInv(c: Conn, message: bytes, result: WriteResult)
    requires Inv(c) && c.phase == Connected && TakenOf(result) <= |message|
    ensures Inv(SentInLoop(c, message, result))
  {
    if Direct(c) {
      Cut(c.wire, message, TakenOf(result));
    } else {
      assert message[..0] == [] && message[0..] == message && c.wire + [] == c.wire;
      assert c.wire + (c.output + message) == c.accepted + message;
    }
  }

  lemma Cut(before: bytes, message: bytes, n: nat)
    requires n <= |message|
    ensures before + message[..n] + message[n..] == before + message
  {
    assert message == message[..n] + message[n..];
  }

  lemma WriteKeepsInv(c: Conn, result: WriteResult)
    requires Inv(c) && TakenOf(result) <= |c.output|
    ensures Inv(WroteOut(c, result))
  {
    var n := TakenOf(result);
    assert c.wire + c.output == c.wire + c.output[..n] + c.output[n..];
  }

  lemma StepKeepsInv(c: Conn, ev: Event)
    requires Inv(c) && Enabled(c, ev)
    ensures Inv(After(c, ev))
  {
    match ev
    case Send(message, result) =>
      if c.phase == Connected {
        SendKeepsInv(c, message, result);
      }
    case Writable(result) => WriteKeepsInv(c, result);
    case _ =>
  }

  lemma {:induction false} RunKeepsInv(c: Conn, run: seq<Event>)
    requires Inv(c) && Legal(c, run)
    ensures Inv(Final(c, run))
    decreases run
  {
    if run != [] {
      StepKeepsInv(c, run[0]);
      RunKeepsInv(After(c, run[0]), run[1..]);
    }
  }

  /** The connection takes this message on: it is connected, and no fault meets a write past an empty buffer. */
  predicate TakesOn(c: Conn, ev: Event) {
    ev.Send? && c.phase == Connected && !(c.output == [] && ev.result.Fault?)
  }

  /** The messages of a run that were taken on. */
  function Messages(c: Conn, run: seq<Event>): seq<bytes>
    requires Legal(c, run)
    decreases run
  {
    if run == [] then []
    else (if TakesOn(c, run[0]) then [run[0].message] else []) + Messages(After(c, run[0]), run[1..])
  }

  /** A send on a connected connection adds its message, all of it or nothing, to what is on the wire or waiting. */
  lemma SendAddsWholeMessage(c: Conn, message: bytes, result: WriteResult)
    requires Inv(c) && c.phase == Connected && TakenOf(result) <= |message|
    ensures var c' := After(c, Send(message, result)); var lost := c.output == [] && result.Fault?;
            && c'.wire + c'.output == c.wire + c.output + (if lost then [] else message)
            && (c'.wire + c'.output == c.wire + c.output <==> lost || message == [])
  {
    SendKeepsInv(c, message, result);
    var c' := After(c, Send(message, result));
    assert c'.accepted == c.accepted + if c.output == [] && result.Fault? then [] else message;
  }

  lemma StepAddsMessage(c: Conn, ev: Event)
    requires Inv(c) && Enabled(c, ev)
    ensures var c' := After(c, ev); c'.wire + c'.output == c.wire + c.output + if TakesOn(c, ev) then ev.message else []
  {
    var bytes := c.wire + c.output;
    assert bytes + [] == bytes;
    match ev
    case Send(message, result) =>
      if c.phase == Connected {
        SendAddsWholeMessage(c, message, result);
      }
    case Writable(result) =>
      Cut(c.wire, c.output, TakenOf(result));
    case _ =>
  }

  lemma {:induction false} RunAddsMessages(c: Conn, run: seq<Event>)
    requires Inv(c) && Legal(c, run)
    ensures var e := Final(c, run); e.wire + e.output == c.wire + c.output + Flatten(Messages(c, run))
    decreases run
  {
    if run == [] {
      assert c.wire + c.output + [] == c.wire + c.output;
    } else {
      var c1, ev := After(c, run[0]), run[0];
      StepKeepsInv(c, ev);
      StepAddsMessage(c, ev);
      RunAddsMessages(c1, run[1..]);
      var m := if TakesOn(c, ev) then ev.message else [];
      FirstMessage(c.wire + c.output, m, TakesOn(c, ev), Messages(c1, run[1..]));
    }
  }

  lemma FirstMessage(before: bytes, m: bytes, taken: bool, others: seq<bytes>)
    requires !taken ==> m == []
    ensures before + m + Flatten(others) == before + Flatten((if taken then [m] else []) + others)
  {
    if taken {
      assert ([m] + others)[1..] == others;
      assert before + m + Flatten(others) == before + (m + Flatten(others));
    } else {
      assert [] + others == others && before + [] == before;
    }
  }

  /**
   Whatever the socket takes of each write: its bytes, then the buffer, are the messages taken on, one after the other;
   and write interest is on exactly while bytes wait.
   */
  lemma BytesInOrder(mark: nat, onHighWater: bool, onComplete: bool, run: seq<Event>)
    requires Legal(Fresh(mark, onHighWater, onComplete), run)
    ensures var c := Final(Fresh(mark, onHighWater, onComplete), run);
            && c.wire + c.output == Flatten(Messages(Fresh(mark, onHighWater, onComplete), run))
            && (c.phase != Disconnected ==> (c.writing <==> c.output != []))
  {
    var c := Fresh(mark, onHighWater, onComplete);
    RunKeepsInv(c, run);
    RunAddsMessages(c, run);
    assert [] + Flatten(Messages(c, run)) == Flatten(Messages(c, run));
  }

  // ---- the phases ----

  /** Some shutdown() of the run finds the connection connected. */
  predicate ShutsDown(c: Conn, run: seq<Event>)
    requires Legal(c, run)
    decreases run
  {
    run != [] && ((run[0].Shutdown? && c.phase == Connected) || ShutsDown(After(c, run[0]), run[1..]))
  }

  /** Some forceClose() of the run finds it open. */
  predicate Forces(c: Conn, run: seq<Event>)
    requires Legal(c, run)
    decreases run
  {
    run != [] && ((run[0].ForceClose? && Open(c)) || Forces(After(c, run[0]), run[1..]))
  }

  /** The peer closes, or the functor of a forceClose() finds it open, or it is destroyed while connected. */
  predicate Closes(c: Conn, run: seq<Event>)
    requires Legal(c, run)
    decreases run
  {
    run != [] && (run[0].Close? || (run[0].RunForceClose? && Open(c)) || (run[0].Destroy? && c.phase == Connected)
                  || Closes(After(c, run[0]), run[1..]))
  }

  /** The phase after a run, from what happened in it. */
  lemma {:induction false} PhaseExact(c: Conn, run: seq<Event>)
    requires Legal(c, run)
    ensures Final(c, run).phase ==
            if c.phase == Disconnected || Closes(c, run) then Disconnected
            else if c.phase == Disconnecting || ShutsDown(c, run) || Forces(c, run) then Disconnecting
            else if c.phase == Connected || Establish in run then Connected
            else Connecting
    decreases run
  {
    if run != [] {
      assert run == [run[0]] + run[1..];
      StepPhase(c, run[0]);
      PhaseExact(After(c, run[0]), run[1..]);
    }
  }

  lemma StepPhase(c: Conn, ev: Event)
    requires Enabled(c, ev)
    ensures After(c, ev).phase ==
            if ev.Close? || (ev.RunForceClose? && Open(c)) || (ev.Destroy? && c.phase == Connected) then Disconnected
            else if (ev.Shutdown? && c.phase == Connected) || (ev.ForceClose? && Open(c)) then Disconnecting
            else if ev.Establish? then Connected
            else c.phase
  {
  }

  lemma {:induction false} AskedExact(c: Conn, run: seq<Event>)
    requires Legal(c, run)
    ensures Final(c, run).asked <==> c.asked || ShutsDown(c, run)
    decreases run
  {
    if run != [] {
      AskedExact(After(c, run[0]), run[1..]);
    }
  }

  /** forceClose() closes through the loop's queue: what is queued there is what was asked for and not yet run. */
  function ForceCloses(c: Conn, run: seq<Event>): int
    requires Legal(c, run)
    decreases run
  {
    if run == [] then 0
    else (if run[0].ForceClose? && Open(c) then 1 else if run[0].RunForceClose? then -1 else 0)
         + ForceCloses(After(c, run[0]), run[1..])
  }

  lemma {:induction false} ForceClosesQueued(c: Conn, run: seq<Event>)
    requires Legal(c, run)
    ensures Final(c, run).forceCloses == c.forceCloses + ForceCloses(c, run)
    decreases run
  {
    if run != [] {
      ForceClosesQueued(After(c, run[0]), run[1..]);
    }
  }

  lemma {:induction false} NothingTakenOn(c: Conn, run: seq<Event>)
    requires Legal(c, run) && (c.phase == Disconnecting || c.phase == Disconnected)
    ensures Messages(c, run) == []
    decreases run
  {
    if run != [] {
      StepPhase(c, run[0]);
      NothingTakenOn(After(c, run[0]), run[1..]);
    }
  }

  lemma StepShuts(c: Conn, ev: Event)
    requires Enabled(c, ev)
    ensures After(c, ev).shuts > c.shuts ==> (ev.Shutdown? && c.phase == Connected) || c.phase == Disconnecting
  {
  }

  lemma {:induction false} ShutNeedsAsking(c: Conn, run: seq<Event>)
    requires Legal(c, run)
    ensures Final(c, run).shuts > c.shuts ==> c.phase == Disconnecting || ShutsDown(c, run) || Forces(c, run)
    decreases run
  {
    if run != [] {
      StepPhase(c, run[0]);
      StepShuts(c, run[0]);
      ShutNeedsAsking(After(c, run[0]), run[1..]);
    }
  }

  /**
   The write side is shut at most once, with every message taken on all on the wire; and it is shut, once shutdown()
   found the connection connected and no output is left. No message is taken on after that.
   */
  lemma ShutOnceAndDrained(mark: nat, onHighWater: bool, onComplete: bool, run: seq<Event>, rest: seq<Event>)
    requires Legal(Fresh(mark, onHighWater, onComplete), run)
    requires Legal(Final(Fresh(mark, onHighWater, onComplete), run), rest)
    ensures var c0 := Fresh(mark, onHighWater, onComplete); var c := Final(c0, run);
            && c.shuts <= 1
            && (c.shuts == 1 ==> c.wire == Flatten(Messages(c0, run)) && (ShutsDown(c0, run) || Forces(c0, run)))
            && (ShutsDown(c0, run) ==> c.phase == Disconnecting || c.phase == Disconnected)
            && (ShutsDown(c0, run) && c.phase != Disconnected && c.output == [] ==> c.shuts == 1)
            && (ShutsDown(c0, run) ==> Messages(c, rest) == [])
  {
    var c0 := Fresh(mark, onHighWater, onComplete);
    RunKeepsInv(c0, run);
    BytesInOrder(mark, onHighWater, onComplete, run);
    AskedExact(c0, run);
    PhaseExact(c0, run);
    var c := Final(c0, run);
    assert c.shuts == 1 ==> c.wire + c.output == c.wire;
    if ShutsDown(c0, run) {
      NothingTakenOn(c, rest);
    }
    ShutNeedsAsking(c0, run);
  }

  // ---- notices ----

  predicate Crosses(c: Conn, c': Conn) {
    |c.output| < c.mark <= |c'.output|
  }

  /** The socket has just taken the last accepted byte, or an empty message. */
  predicate Drains(c: Conn, ev: Event, c': Conn) {
    && c'.output == []
    && ((ev.Writable? && c.output != []) || (ev.Send? && c.phase == Connected && Direct(c) && ev.result.Wrote?))
  }

  /** The notices due for a step from c to c'. */
  function Due(c: Conn, ev: Event, c': Conn): seq<Notice> {
    (if Drains(c, ev, c') && c.onComplete then [WriteComplete] else [])
    + (if Crosses(c, c') && c.onHighWater then [HighWater(|c'.output|)] else [])
  }

  lemma SendNotices(c: Conn, message: bytes, result: WriteResult)
    requires Inv(c) && c.phase == Connected && TakenOf(result) <= |message|
    ensures var c' := SentInLoop(c, message, result); c'.notices == c.notices + Due(c, Send(message, result), c')
  {
    var nwrote := if Direct(c) then TakenOf(result) else 0;
    if Direct(c) && result.Fault? {
    } else if nwrote == |message| {
      assert message[nwrote..] == [];
    } else {
      assert message[nwrote..] != [];
      assert |SentInLoop(c, message, result).output| == |c.output| + |message| - nwrote;
    }
  }

  lemma WriteNotices(c: Conn, result: WriteResult)
    requires Inv(c) && TakenOf(result) <= |c.output|
    ensures var c' := WroteOut(c, result); c'.notices == c.notices + Due(c, Writable(result), c')
  {
  }

  /** Exactly the backlog's upward crossings of the mark and the drainings are announced, with the new backlog. */
  lemma NoticesExact(c: Conn, ev: Event)
    requires Inv(c) && Enabled(c, ev)
    ensures After(c, ev).notices == c.notices + Due(c, ev, After(c, ev))
  {
    match ev
    case Send(message, result) =>
      if c.phase == Connected {
        SendNotices(c, message, result);
      }
    case Writable(result) => WriteNotices(c, result);
    case _ =>
  }

  /** The state before step i of a run. */
  function Before(c: Conn, run: seq<Event>, i: nat): Conn
    requires Legal(c, run) && i <= |run|
    decreases run
  {
    if i == 0 then c else Before(After(c, run[0]), run[1..], i - 1)
  }

  lemma {:induction false} BeforeNext(c: Conn, run: seq<Event>, i: nat)
    requires Inv(c) && Legal(c, run) && i < |run|
    ensures Inv(Before(c, run, i)) && Before(c, run, i).mark == c.mark
    ensures Enabled(Before(c, run, i), run[i]) && Before(c, run, i + 1) == After(Before(c, run, i), run[i])
    decreases run
  {
    if i > 0 {
      StepKeepsInv(c, run[0]);
      SettingsFixed(c, run[0]);
      BeforeNext(After(c, run[0]), run[1..], i - 1);
    }
  }

  function HighWaters(ns: seq<Notice>): nat {
    if ns == [] then 0 else HighWaters(ns[..|ns| - 1]) + if ns[|ns| - 1].HighWater? then 1 else 0
  }

  lemma HighWatersAdded(ns: seq<Notice>, n: Notice)
    ensures HighWaters(ns + [n]) == HighWaters(ns) + if n.HighWater? then 1 else 0
  {
    assert (ns + [n])[..|ns|] == ns;
  }

  /** Step i of the run queues the high-water callback. */
  predicate Announces(c: Conn, run: seq<Event>, i: nat)
    requires Legal(c, run) && i < |run|
  {
    HighWaters(Before(c, run, i + 1).notices) > HighWaters(Before(c, run, i).notices)
  }

  lemma AnnouncesCrossing(c: Conn, run: seq<Event>, i: nat)
    requires Inv(c) && Legal(c, run) && i < |run|
    ensures Announces(c, run, i) <==> c.onHighWater && Crosses(Before(c, run, i), Before(c, run, i + 1))
    ensures Before(c, run, i).mark == c.mark
  {
    BeforeNext(c, run, i);
    CallbacksFixed(c, run, i);
    StepAnnounces(Before(c, run, i), run[i]);
  }

  lemma StepAnnounces(c: Conn, ev: Event)
    requires Inv(c) && Enabled(c, ev)
    ensures HighWaters(After(c, ev).notices) > HighWaters(c.notices) <==> c.onHighWater && Crosses(c, After(c, ev))
  {
    NoticesExact(c, ev);
    var c' := After(c, ev);
    OneAnnounced(c.notices, c'.notices, Drains(c, ev, c') && c.onComplete, Crosses(c, c') && c.onHighWater, |c'.output|);
  }

  lemma OneAnnounced(ns: seq<Notice>, ns': seq<Notice>, complete: bool, high: bool, backlog: nat)
    requires ns' == ns + ((if complete then [WriteComplete] else []) + (if high then [HighWater(backlog)] else []))
    ensures HighWaters(ns') > HighWaters(ns) <==> high
  {
    HighWatersAdded(ns, WriteComplete);
    HighWatersAdded(ns, HighWater(backlog));
    HighWatersAdded(ns + [WriteComplete], HighWater(backlog));
    assert ns + ([WriteComplete] + [HighWater(backlog)]) == ns + [WriteComplete] + [HighWater(backlog)];
  }

  lemma SettingsFixed(c: Conn, ev: Event)
    requires Enabled(c, ev)
    ensures After(c, ev).mark == c.mark && After(c, ev).onHighWater == c.onHighWater
  {
  }

  lemma {:induction false} CallbacksFixed(c: Conn, run: seq<Event>, i: nat)
    requires Legal(c, run) && i <= |run|
    ensures Before(c, run, i).onHighWater == c.onHighWater
    decreases run
  {
    if i > 0 {
      SettingsFixed(c, run[0]);
      CallbacksFixed(After(c, run[0]), run[1..], i - 1);
    }
  }

  /** Between two high-water announcements the backlog was at the mark or above, and then fell below it. */
  lemma HighWaterSeparated(c: Conn, run: seq<Event>, i: nat, j: nat)
    requires Inv(c) && Legal(c, run) && i < j < |run| && Announces(c, run, i) && Announces(c, run, j)
    ensures i + 1 < j && |Before(c, run, i + 1).output| >= c.mark > |Before(c, run, j).output|
  {
    AnnouncesCrossing(c, run, i);
    AnnouncesCrossing(c, run, j);
  }

  // ---- the connection object ----

  class TcpConnection {
    var state: Phase
    var writing: bool
    const outputBuffer: Buffer
    const highWaterMark: nat
    const highWaterMarkCallback: bool
    const writeCompleteCallback: bool
    var forceCloses: nat
    var notices: seq<Notice>
    ghost var wire: bytes
    ghost var accepted: bytes
    ghost var asked: bool
    var shuts: nat

    ghost predicate Valid()
      reads this, outputBuffer
    {
      outputBuffer.Valid()
    }

    /** The connection as a value. */
    ghost function View(): Conn
      requires Valid()
      reads this, outputBuffer, outputBuffer.data
    {
      Conn(state, writing, outputBuffer.Contents(), highWaterMark, highWaterMarkCallback, writeCompleteCallback,
           forceCloses, notices, wire, accepted, asked, shuts)
    }

    constructor (mark: nat, onHighWater: bool, onComplete: bool)
      ensures Valid() && fresh(outputBuffer) && fresh(outputBuffer.data)
      ensures View() == Fresh(mark, onHighWater, onComplete)
    {
      state, writing := Connecting, false;
      outputBuffer := new Buffer(INITIAL_SIZE);
      highWaterMark, highWaterMarkCallback, writeCompleteCallback := mark, onHighWater, onComplete;
      forceCloses, notices, shuts := 0, [], 0;
      wire, accepted, asked := [], [], false;
    }

    method ConnectEstablished()
      requires Valid() && Enabled(View(), Establish)
      modifies this
      ensures Valid() && View() == After(old(View()), Establish)
    {
      state := Connected;
    }

    method SendMessage(message: bytes, result: WriteResult)
      requires Valid() && Enabled(View(), Send(message, result))
      modifies this, outputBuffer, outputBuffer.data
      ensures Valid() && (outputBuffer.data == old(outputBuffer.data) || fresh(outputBuffer.data))
      ensures View() == After(old(View()), Send(message, result))
    {
      if state == Connected {
        SendInLoop(message, result);
      }
    }

    method SendInLoop(data: bytes, result: WriteResult)
      requires Valid() && TakenOf(result) <= |data| && state != Disconnected
      modifies this, outputBuffer, outputBuffer.data
      ensures Valid() && (outputBuffer.data == old(outputBuffer.data) || fresh(outputBuffer.data))
      ensures View() == SentInLoop(old(View()), data, result)
    {
      ghost var c := View();
      var nwrote, faultError := WriteDirectly(data, result);
      assert View() == Offered(c, data, result);
      if !faultError && nwrote < |data| {
        AppendRest(data[nwrote..]);
      }
    }

    /** The attempt to write past an empty output buffer. */
    method WriteDirectly(data: bytes, result: WriteResult) returns (nwrote: nat, faultError: bool)
      requires Valid() && TakenOf(result) <= |data|
      modifies this`wire, this`notices, this`accepted
      ensures nwrote == (if Direct(View()) then TakenOf(result) else 0) && (faultError <==> Direct(View()) && result.Fault?)
      ensures View() == Offered(old(View()), data, result)
    {
      nwrote, faultError := 0, false;
      if !writing && outputBuffer.ReadableBytes() == 0 {
        if result.Wrote? {
          nwrote := result.n;
          wire := wire + data[..nwrote];
          if nwrote == |data| && writeCompleteCallback {
            notices := notices + [WriteComplete];
          }
        } else if result.Fault? {
          faultError := true;
        }
      }
      if !faultError {
        accepted := accepted + data;
      }
      assert data[..0] == [] && old(wire) + [] == old(wire);
    }

    method AppendRest(rest: bytes)
      requires Valid()
      modifies this, outputBuffer, outputBuffer.data
      ensures Valid() && (outputBuffer.data == old(outputBuffer.data) || fresh(outputBuffer.data))
      ensures View() == Backlogged(old(View()), rest)
    {
      var oldLen := outputBuffer.ReadableBytes();
      if oldLen + |rest| >= highWaterMark && oldLen < highWaterMark && highWaterMarkCallback {
        notices := notices + [HighWater(oldLen + |rest|)];
      }
      outputBuffer.Append(rest);
      if !writing {
        writing := true;
      }
    }

    method HandleWrite(result: WriteResult)
      requires Valid() && Enabled(View(), Writable(result))
      modifies this, outputBuffer
      ensures Valid() && outputBuffer.data == old(outputBuffer.data)
      ensures View() == After(old(View()), Writable(result))
    {
      if writing {
        var n := TakenOf(result);
        if n > 0 {
          wire := wire + outputBuffer.Contents()[..n];
          outputBuffer.Retrieve(n);
          if outputBuffer.ReadableBytes() == 0 {
            writing := false;
            if writeCompleteCallback {
              notices := notices + [WriteComplete];
            }
            if state == Disconnecting {
              ShutdownInLoop();
            }
          }
        }
      }
    }

    method ShutdownInLoop()
      requires Valid()
      modifies this
      ensures Valid() && View() == ShutInLoop(old(View()))
    {
      if !writing {
        shuts := shuts + 1;
      }
    }

    method RequestShutdown()
      requires Valid()
      modifies this
      ensures Valid() && View() == After(old(View()), Shutdown)
    {
      if state == Connected {
        state := Disconnecting;
        asked := true;
        ShutdownInLoop();
      }
    }

    method RequestForceClose()
      requires Valid()
      modifies this
      ensures Valid() && View() == After(old(View()), ForceClose)
    {
      if state == Connected || state == Disconnecting {
        state := Disconnecting;
        forceCloses := forceCloses + 1;
      }
    }

    method ForceCloseInLoop()
      requires Valid() && Enabled(View(), RunForceClose)
      modifies this
      ensures Valid() && View() == After(old(View()), RunForceClose)
    {
      forceCloses := forceCloses - 1;
      if state == Connected || state == Disconnecting {
        HandleClose();
      }
    }

    method HandleClose()
      requires Valid() && Enabled(View(), Close)
      modifies this
      ensures Valid() && View() == After(old(View()), Close)
    {
      state := Disconnected;
      writing := false;
    }

    method ConnectDestroyed()
      requires Valid()
      modifies this
      ensures Valid() && View() == After(old(View()), Destroy)
    {
      if state == Connected {
        state := Disconnected;
        writing := false;
      }
    }
  }
}
