/**
 The double-buffered logger of muduo/base/AsyncLogging.cc: front-end threads append lines under a
 lock, the writer thread swaps buffers out under the same lock and writes them without it.
 */
module AsyncLogging {
  import opened Bytes

  /** kLargeBuffer. */
  const BUFFER_SIZE: nat := 4000 * 1000
  const MAX_BATCH: nat := 25

  /** Where the writer is: about to test running_, to take the lock, to check the batch size, writing, or out of its loop. */
  datatype Pc = Top | Ready | Taken | Writing | Exited

  /** Where a piece of the log went. */
  datatype Piece = Kept(content: bytes) | Dropped(content: bytes) | Notice(content: bytes)

  datatype State = State(
    current: bytes,            // currentBuffer_
    next: Option<bytes>,       // nextBuffer_
    buffers: seq<bytes>,       // buffers_
    new1: Option<bytes>,       // newBuffer1
    new2: Option<bytes>,       // newBuffer2
    batch: seq<bytes>,         // buffersToWrite
    done: nat,                 // how many of the batch are written
    doomed: seq<bytes>,        // buffers erased from the batch because it was too long
    pc: Pc,
    running: bool,
    asserts: bool,             // no assert of threadFunc has failed
    appended: bytes,           // history: every line shorter than a buffer
    taken: nat,                // history: how much had been appended at the writer's last exchange
    pieces: seq<Piece>,        // history: what became of it
    file: bytes)               // history: everything given to the log file

  datatype Step =
    | Append(line: bytes)
    | Test                     // the writer's loop condition
    | Exchange                 // the writer's critical section
    | CheckBatch(notice: bytes)
    | WriteOne
    | Recycle
    | Stop

  /** FixedBuffer::append: a line that does not fit is ignored. */
  function Appended(buffer: bytes, line: bytes): bytes {
    if BUFFER_SIZE - |buffer| > |line| then buffer + line else buffer
  }

  predicate Enabled(s: State, step: Step) {
    match step
    case Append(_) => true
    case Test => s.pc == Top
    case Exchange => s.pc == Ready
    case CheckBatch(_) => s.pc == Taken
    case WriteOne => s.pc == Writing && s.done < |s.batch|
    case Recycle => s.pc == Writing && s.done >= |s.batch|
    case Stop => true
  }

  function AppendLine(s: State, line: bytes): State {
    var s' := s.(appended := if |line| < BUFFER_SIZE then s.appended + line else s.appended);
    if BUFFER_SIZE - |s.current| > |line| then s'.(current := Appended(s.current, line))
    else
      var spare := if s.next.Some? then s.next.value else [];
      s'.(buffers := s.buffers + [s.current], current := Appended(spare, line), next := None)
  }

  /** An assertion that a spare buffer is there and empty. */
  predicate Spare(b: Option<bytes>) {
    b.Some? && b.value == []
  }

  function ExchangeBuffers(s: State): State {
    s.(asserts := s.asserts && Spare(s.new1) && Spare(s.new2) && s.batch == [],
       batch := s.buffers + [s.current],
       buffers := [],
       current := if s.new1.Some? then s.new1.value else [],
       new1 := None,
       next := if s.next.None? then s.new2 else s.next,
       new2 := if s.next.None? then None else s.new2,
       taken := |s.appended|,
       pc := Taken)
  }

  function CheckBatchSize(s: State, notice: bytes): State {
    var s' := s.(asserts := s.asserts && s.batch != [], done := 0, pc := Writing);
    if |s.batch| > MAX_BATCH then
      s'.(file := s.file + notice, pieces := s.pieces + [Notice(notice)], batch := s.batch[..2], doomed := s.batch[2..])
    else s'
  }

  function WriteBuffer(s: State): State
    requires s.done < |s.batch|
  {
    s.(file := s.file + s.batch[s.done], pieces := s.pieces + [Kept(s.batch[s.done])], done := s.done + 1)
  }

  /** Refill one spare from the back of the batch; the flag says whether its assert held. */
  function Refill(slot: Option<bytes>, batch: seq<bytes>): (Option<bytes>, seq<bytes>, bool) {
    if slot.Some? then (slot, batch, true)
    else if batch == [] then (None, [], false)
    else (Some([]), batch[..|batch| - 1], true)
  }

  function RecycleBuffers(s: State): State {
    var batch := if |s.batch| > 2 then s.batch[..2] else s.batch;
    var (new1, batch1, ok1) := Refill(s.new1, batch);
    var (new2, batch2, ok2) := Refill(s.new2, batch1);
    s.(new1 := new1, new2 := new2, batch := [], done := 0, asserts := s.asserts && ok1 && ok2,
       doomed := [], pieces := if s.doomed == [] then s.pieces else s.pieces + [Dropped(Flatten(s.doomed))],
       pc := Top)
  }

  function After(s: State, step: Step): State
    requires Enabled(s, step)
  {
    match step
    case Append(line) => AppendLine(s, line)
    case Test => s.(pc := if s.running then Ready else Exited)
    case Exchange => ExchangeBuffers(s)
    case CheckBatch(notice) => CheckBatchSize(s, notice)
    case WriteOne => WriteBuffer(s)
    case Recycle => RecycleBuffers(s)
    case Stop => s.(running := false)
  }

  const INITIAL: State :=
    State([], Some([]), [], Some([]), Some([]), [], 0, [], Top, true, true, [], 0, [], [])

  predicate Legal(s: State, run: seq<Step>)
    decreases run
  {
    run == [] || (Enabled(s, run[0]) && Legal(After(s, run[0]), run[1..]))
  }

  function Final(s: State, run: seq<Step>): State
    requires Legal(s, run)
    decreases run
  {
    if run == [] then s else Final(After(s, run[0]), run[1..])
  }

  // ---- accounting ----

  /** Log text among the pieces, written or dropped. */
  function Accounted(ps: seq<Piece>): bytes {
    if ps == [] then []
    else Accounted(ps[..|ps| - 1]) + if ps[|ps| - 1].Notice? then [] else ps[|ps| - 1].content
  }

  /** What those pieces put into the file. */
  function OnDisk(ps: seq<Piece>): bytes {
    if ps == [] then []
    else OnDisk(ps[..|ps| - 1]) + if ps[|ps| - 1].Dropped? then [] else ps[|ps| - 1].content
  }

  lemma PieceAdded(ps: seq<Piece>, p: Piece)
    ensures Accounted(ps + [p]) == Accounted(ps) + if p.Notice? then [] else p.content
    ensures OnDisk(ps + [p]) == OnDisk(ps) + if p.Dropped? then [] else p.content
  {
    assert (ps + [p])[..|ps|] == ps;
  }

  /** Text the writer holds, then text still behind the lock: both in the order it was appended. */
  function Held(s: State): bytes
    requires s.done <= |s.batch|
  {
    Flatten(s.batch[s.done..]) + Flatten(s.doomed)
  }

  function Behind(s: State): bytes {
    Flatten(s.buffers) + s.current
  }

  /** Which buffers are where. */
  predicate Shape(s: State) {
    && s.asserts
    && s.done <= |s.batch|
    && |s.current| < BUFFER_SIZE
    && (s.next.Some? ==> s.next.value == [])
    && (s.next.None? ==> s.buffers != [])
    && (s.pc == Top || s.pc == Ready || s.pc == Exited ==> Spare(s.new1) && Spare(s.new2) && s.batch == [] && s.doomed == [])
    && (s.pc == Taken || s.pc == Writing ==>
          && s.new1.None? && s.batch != [] && (s.new2.Some? ==> s.new2.value == [])
          && (s.new2.None? ==> |s.batch| >= 2))
    && (s.pc == Taken ==> s.doomed == [] && s.done == 0)
  }

  predicate Accounts(s: State)
    requires s.done <= |s.batch|
  {
    && s.file == OnDisk(s.pieces)
    && s.appended == Accounted(s.pieces) + Held(s) + Behind(s)
    && s.taken == |Accounted(s.pieces)| + |Held(s)|
  }

  predicate Inv(s: State) {
    Shape(s) && Accounts(s)
  }

  lemma BufferQueued(buffers: seq<bytes>, last: bytes)
    ensures Flatten(buffers + [last]) == Flatten(buffers) + last
  {
    FlattenAppend(buffers, [last]);
    FlattenSingleton(last);
  }

  lemma AppendBehind(s: State, line: bytes)
    requires Shape(s)
    ensures Behind(AppendLine(s, line)) == Behind(s) + if |line| < BUFFER_SIZE then line else []
  {
    BufferQueued(s.buffers, s.current);
  }

  lemma AppendKeepsInv(s: State, line: bytes)
    requires Inv(s)
    ensures Inv(AppendLine(s, line))
  {
    AppendBehind(s, line);
    AppendShape(s, line);
    Adjoin(Accounted(s.pieces) + Held(s), Behind(s), if |line| < BUFFER_SIZE then line else []);
  }

  lemma Adjoin(a: bytes, b: bytes, added: bytes)
    ensures a + (b + added) == a + b + added
  {
  }

  lemma AppendShape(s: State, line: bytes)
    requires Shape(s)
    ensures Shape(AppendLine(s, line))
  {
  }

  lemma ExchangeKeepsInv(s: State)
    requires Inv(s) && s.pc == Ready
    ensures Inv(ExchangeBuffers(s))
  {
    BufferQueued(s.buffers, s.current);
    var e := ExchangeBuffers(s);
    assert e.batch[0..] == e.batch && s.batch[s.done..] == [];
    assert Held(s) == [] && Held(e) == Behind(s) && Behind(e) == [];
  }

  lemma CheckShape(s: State, notice: bytes)
    requires Shape(s) && s.pc == Taken
    ensures Shape(CheckBatchSize(s, notice))
  {
  }

  lemma CheckHeld(s: State, notice: bytes)
    requires Shape(s) && s.pc == Taken
    ensures CheckBatchSize(s, notice).done == 0 && Held(CheckBatchSize(s, notice)) == Held(s)
  {
    assert s.batch[0..] == s.batch;
    if |s.batch| > MAX_BATCH {
      assert s.batch == s.batch[..2] + s.batch[2..];
      FlattenAppend(s.batch[..2], s.batch[2..]);
      assert s.batch[..2][0..] == s.batch[..2];
    }
  }

  lemma CheckKeepsInv(s: State, notice: bytes)
    requires Inv(s) && s.pc == Taken
    ensures Inv(CheckBatchSize(s, notice))
  {
    CheckShape(s, notice);
    CheckHeld(s, notice);
    PieceAdded(s.pieces, Notice(notice));
    assert Accounted(s.pieces) + [] == Accounted(s.pieces);
  }

  lemma WriteKeepsInv(s: State)
    requires Inv(s) && s.pc == Writing && s.done < |s.batch|
    ensures Inv(WriteBuffer(s))
  {
    PieceAdded(s.pieces, Kept(s.batch[s.done]));
    assert s.batch[s.done..][1..] == s.batch[s.done + 1..];
    var e := WriteBuffer(s);
    assert Held(s) == s.batch[s.done] + Held(e);
    assert Behind(e) == Behind(s);
    MoveAcross(Accounted(s.pieces), s.batch[s.done], Held(e), Behind(s));
  }

  lemma MoveAcross(a: bytes, x: bytes, b: bytes, c: bytes)
    ensures a + (x + b) + c == a + x + b + c
  {
  }

  lemma RecycleKeepsInv(s: State)
    requires Inv(s) && s.pc == Writing && s.done >= |s.batch|
    ensures Inv(RecycleBuffers(s))
  {
    RecycleShape(s);
    PieceAdded(s.pieces, Dropped(Flatten(s.doomed)));
    assert s.batch[s.done..] == [];
    var e := RecycleBuffers(s);
    assert Held(e) == [] && Held(s) == Flatten(s.doomed) && Behind(e) == Behind(s);
    assert Accounted(e.pieces) == Accounted(s.pieces) + Flatten(s.doomed);
    assert Accounted(e.pieces) + [] == Accounted(e.pieces);
  }

  lemma RecycleShape(s: State)
    requires Shape(s) && s.pc == Writing && s.done >= |s.batch|
    ensures Shape(RecycleBuffers(s))
  {
  }

  lemma StepKeepsInv(s: State, step: Step)
    requires Inv(s) && Enabled(s, step)
    ensures Inv(After(s, step))
  {
    match step
    case Append(line) => AppendKeepsInv(s, line);
    case Test =>
    case Exchange => ExchangeKeepsInv(s);
    case CheckBatch(notice) => CheckKeepsInv(s, notice);
    case WriteOne => WriteKeepsInv(s);
    case Recycle => RecycleKeepsInv(s);
    case Stop =>
  }

  lemma {:induction false} RunKeepsInv(s: State, run: seq<Step>)
    requires Inv(s) && Legal(s, run)
    ensures Inv(Final(s, run))
    decreases run
  {
    if run != [] {
      StepKeepsInv(s, run[0]);
      RunKeepsInv(After(s, run[0]), run[1..]);
    }
  }

  /** Every assert of the writer holds in every interleaving: the spares are there when it needs them. */
  lemma RefillsNeverFail(run: seq<Step>)
    requires Legal(INITIAL, run)
    ensures var e := Final(INITIAL, run);
            e.asserts && (e.next.None? ==> e.buffers != []) && (e.pc == Top || e.pc == Ready ==> Spare(e.new1) && Spare(e.new2))
  {
    InitialInv();
    RunKeepsInv(INITIAL, run);
  }

  lemma InitialInv()
    ensures Inv(INITIAL)
  {
    assert Held(INITIAL) == [] && Behind(INITIAL) == [];
  }

  /**
   In every interleaving all text appended is, in order, either accounted for, in the writer's
   hands or behind the lock; and the file is exactly the pieces kept, with the notices.
   */
  lemma TextIsConserved(run: seq<Step>)
    requires Legal(INITIAL, run)
    ensures var e := Final(INITIAL, run);
            && e.done <= |e.batch|
            && e.appended == Lines(run) == Accounted(e.pieces) + Held(e) + Behind(e)
            && e.file == OnDisk(e.pieces)
  {
    AllLines(run);
    InitialInv();
    RunKeepsInv(INITIAL, run);
  }

  /** No batch so far was too long. */
  predicate NothingDropped(s: State) {
    s.doomed == [] && forall i :: 0 <= i < |s.pieces| ==> s.pieces[i].Kept?
  }

  lemma {:induction false} KeptIsOnDisk(ps: seq<Piece>)
    requires forall i :: 0 <= i < |ps| ==> ps[i].Kept?
    ensures Accounted(ps) == OnDisk(ps)
  {
    if ps != [] {
      KeptIsOnDisk(ps[..|ps| - 1]);
    }
  }

  /** A piece is dropped, or a notice written, only by a step that found more than 25 buffers in its batch. */
  lemma DropsNeedLongBatch(s: State, step: Step)
    requires Inv(s) && Enabled(s, step) && NothingDropped(s) && !NothingDropped(After(s, step))
    ensures step.CheckBatch? && |s.batch| > MAX_BATCH
  {
  }

  /** Whenever the writer checks its batch, it finds at most 25 buffers. */
  predicate ShortBatches(s: State, run: seq<Step>)
    requires Legal(s, run)
    decreases run
  {
    run == [] || ((run[0].CheckBatch? ==> |s.batch| <= MAX_BATCH) && ShortBatches(After(s, run[0]), run[1..]))
  }

  lemma {:induction false} ShortBatchesDropNothing(s: State, run: seq<Step>)
    requires Inv(s) && NothingDropped(s) && Legal(s, run) && ShortBatches(s, run)
    ensures NothingDropped(Final(s, run))
    decreases run
  {
    if run != [] {
      StepKeepsInv(s, run[0]);
      if !NothingDropped(After(s, run[0])) {
        DropsNeedLongBatch(s, run[0]);
      }
      ShortBatchesDropNothing(After(s, run[0]), run[1..]);
    }
  }

  /** The text that the steps of a run append, without lines that no buffer holds. */
  function AppendedBy(step: Step): bytes {
    if step.Append? && |step.line| < BUFFER_SIZE then step.line else []
  }

  function Lines(run: seq<Step>): bytes {
    if run == [] then [] else AppendedBy(run[0]) + Lines(run[1..])
  }

  lemma StepAppends(s: State, step: Step)
    requires Enabled(s, step)
    ensures After(s, step).appended == s.appended + AppendedBy(step)
  {
    assert s.appended + [] == s.appended;
  }

  lemma {:induction false} AppendedAreLines(s: State, run: seq<Step>)
    requires Legal(s, run)
    ensures Final(s, run).appended == s.appended + Lines(run)
    decreases run
  {
    if run == [] {
      assert s.appended + [] == s.appended;
    } else {
      StepAppends(s, run[0]);
      AppendedAreLines(After(s, run[0]), run[1..]);
      Adjoin(s.appended, AppendedBy(run[0]), Lines(run[1..]));
    }
  }

  lemma AllLines(run: seq<Step>)
    requires Legal(INITIAL, run)
    ensures Final(INITIAL, run).appended == Lines(run)
  {
    AppendedAreLines(INITIAL, run);
    assert [] + Lines(run) == Lines(run);
  }

  /** While no batch exceeds 25 buffers: file, unwritten batch, queued buffers and current buffer are all the lines. */
  lemma FileHoldsEveryLine(run: seq<Step>)
    requires Legal(INITIAL, run) && ShortBatches(INITIAL, run)
    ensures var e := Final(INITIAL, run);
            && e.done <= |e.batch|
            && Lines(run) == e.file + Flatten(e.batch[e.done..]) + (Flatten(e.buffers) + e.current)
  {
    AllLines(run);
    InitialInv();
    ShortBatchesDropNothing(INITIAL, run);
    TextIsConserved(run);
    var e := Final(INITIAL, run);
    KeptIsOnDisk(e.pieces);
    assert Held(e) == Flatten(e.batch[e.done..]);
  }

  /** One round of the writer: up to 25 buffers are written all, and of more exactly the first two, after the notice. */
  lemma RoundExact(s: State, notice: bytes)
    requires Inv(s) && s.pc == Ready
    ensures WroteRest(CheckBatchSize(ExchangeBuffers(s), notice)).file ==
            s.file + if |s.buffers| + 1 > 25 then notice + s.buffers[0] + s.buffers[1] else Flatten(s.buffers + [s.current])
  {
    ExchangeKeepsInv(s);
    var s1 := ExchangeBuffers(s);
    CheckKeepsInv(s1, notice);
    var s2 := CheckBatchSize(s1, notice);
    WroteRestKeepsInv(s2);
    assert s2.batch[0..] == s2.batch;
    if |s.buffers| + 1 > 25 {
      assert s2.batch == [s.buffers[0], s.buffers[1]];
      TwoFlattened(s.file, notice, s.buffers[0], s.buffers[1]);
    }
  }

  lemma TwoFlattened(file: bytes, notice: bytes, a: bytes, b: bytes)
    ensures file + notice + Flatten([a, b]) == file + (notice + a + b)
  {
    assert [a, b][1..] == [b];
    FlattenSingleton(b);
  }

  // ---- what is lost at the end ----

  /** What a run leaves behind the lock: the text appended since its last exchange, after `late` before the run. */
  function LateText(late: bytes, run: seq<Step>): bytes
    decreases run
  {
    if run == [] then late
    else if run[0].Exchange? then LateText([], run[1..])
    else if run[0].Append? && |run[0].line| < BUFFER_SIZE then LateText(late + run[0].line, run[1..])
    else LateText(late, run[1..])
  }

  /** A line that is not empty and fits a buffer is appended with no exchange after it. */
  predicate AppendsLate(run: seq<Step>)
    decreases run
  {
    run != [] && (AppendsLate(run[1..]) || (run[0].Append? && 0 < |run[0].line| < BUFFER_SIZE && Exchange !in run[1..]))
  }

  lemma {:induction false} LateTextExact(late: bytes, run: seq<Step>)
    ensures LateText(late, run) != [] <==> (late != [] && Exchange !in run) || AppendsLate(run)
    decreases run
  {
    if run != [] {
      assert run == [run[0]] + run[1..];
      if run[0].Exchange? {
        LateTextExact([], run[1..]);
      } else if run[0].Append? && |run[0].line| < BUFFER_SIZE {
        LateTextExact(late + run[0].line, run[1..]);
      } else {
        LateTextExact(late, run[1..]);
      }
    }
  }

  lemma {:induction false} BehindIsLate(s: State, run: seq<Step>)
    requires Inv(s) && Legal(s, run)
    ensures Behind(Final(s, run)) == LateText(Behind(s), run)
    decreases run
  {
    if run != [] {
      StepKeepsInv(s, run[0]);
      StepBehind(s, run[0]);
      BehindIsLate(After(s, run[0]), run[1..]);
    }
  }

  lemma StepBehind(s: State, step: Step)
    requires Inv(s) && Enabled(s, step)
    ensures Behind(After(s, step)) ==
            if step.Exchange? then []
            else if step.Append? && |step.line| < BUFFER_SIZE then Behind(s) + step.line
            else Behind(s)
  {
    if step.Append? {
      AppendBehind(s, step.line);
      assert Behind(s) + [] == Behind(s);
    }
  }

  lemma ExitAccounts(run: seq<Step>)
    requires Legal(INITIAL, run) && Final(INITIAL, run).pc == Exited
    ensures Lines(run) == Accounted(Final(INITIAL, run).pieces) + LateText([], run)
  {
    TextIsConserved(run);
    InitialInv();
    RunKeepsInv(INITIAL, run);
    BehindIsLate(INITIAL, run);
    var e := Final(INITIAL, run);
    assert Behind(INITIAL) == [] && Held(e) == [];
    assert Accounted(e.pieces) + [] == Accounted(e.pieces);
  }

  lemma MissingExactly(whole: bytes, there: bytes, late: bytes)
    requires whole == there + late
    ensures there == whole <==> late == []
  {
  }

  /**
   When the writer has left, all text is accounted for but what was appended after its last exchange: so nothing is
   missing if and only if no line that fits a buffer was appended after that.
   */
  lemma ExitLeavesLateText(run: seq<Step>)
    requires Legal(INITIAL, run) && Final(INITIAL, run).pc == Exited
    ensures var e := Final(INITIAL, run);
            && Lines(run) == Accounted(e.pieces) + LateText([], run)
            && (Accounted(e.pieces) == Lines(run) <==> !AppendsLate(run))
            && (ShortBatches(INITIAL, run) ==> (e.file == Lines(run) <==> !AppendsLate(run)))
  {
    ExitAccounts(run);
    LateTextExact([], run);
    MissingExactly(Lines(run), Accounted(Final(INITIAL, run).pieces), LateText([], run));
    if ShortBatches(INITIAL, run) {
      ShortBatchesOnDisk(run);
    }
  }

  lemma ShortBatchesOnDisk(run: seq<Step>)
    requires Legal(INITIAL, run) && ShortBatches(INITIAL, run)
    ensures Final(INITIAL, run).file == Accounted(Final(INITIAL, run).pieces)
  {
    InitialInv();
    ShortBatchesDropNothing(INITIAL, run);
    TextIsConserved(run);
    KeptIsOnDisk(Final(INITIAL, run).pieces);
  }

  /** The writer has an empty batch in hand when a line of one byte is appended. */
  const LATE: State :=
    State([65], Some([]), [], None, Some([]), [[]], 0, [], Writing, true, true, [65], 0, [], [])

  lemma LateLineAppended()
    ensures var run := [Test, Exchange, CheckBatch([]), Append([65])]; Legal(INITIAL, run) && Final(INITIAL, run) == LATE
  {
    var s1 := After(INITIAL, Test);
    var s2 := After(s1, Exchange);
    assert s2.batch == [[]];
    var s3 := After(s2, CheckBatch([]));
    assert After(s3, Append([65])).appended == [65] && After(s3, Append([65])).current == [65];
    assert After(s3, Append([65])) == LATE;
    Unfold(s3, Append([65]), []);
    Unfold(s2, CheckBatch([]), [Append([65])]);
    Unfold(s1, Exchange, [CheckBatch([]), Append([65])]);
    Unfold(INITIAL, Test, [Exchange, CheckBatch([]), Append([65])]);
  }

  lemma WriterLeaves()
    ensures var run := [WriteOne, Stop, Recycle, Test];
            && Legal(LATE, run) && Final(LATE, run).pc == Exited
            && Final(LATE, run).appended == [65] && Final(LATE, run).file == []
  {
    var s5 := After(LATE, WriteOne);
    assert s5.file == [];
    var s6 := After(s5, Stop);
    var s7 := After(s6, Recycle);
    var s8 := After(s7, Test);
    assert s8.pc == Exited && s8.appended == [65] && s8.file == [];
    Unfold(s7, Test, []);
    Unfold(s6, Recycle, [Test]);
    Unfold(s5, Stop, [Recycle, Test]);
    Unfold(LATE, WriteOne, [Stop, Recycle, Test]);
  }

  /** stop() is followed by a test of the writer's loop condition. */
  predicate StopThenTest(run: seq<Step>)
    decreases run
  {
    run != [] && ((run[0].Stop? && Test in run[1..]) || StopThenTest(run[1..]))
  }

  lemma {:induction false} LeavesExactlyFrom(s: State, run: seq<Step>)
    requires Legal(s, run)
    ensures Final(s, run).pc == Exited <==> s.pc == Exited || (!s.running && Test in run) || StopThenTest(run)
    decreases run
  {
    if run != [] {
      assert run == [run[0]] + run[1..];
      LeavesExactlyFrom(After(s, run[0]), run[1..]);
    }
  }

  /** The writer leaves its loop exactly at the first test after stop(). */
  lemma WriterLeavesExactly(run: seq<Step>)
    requires Legal(INITIAL, run)
    ensures Final(INITIAL, run).pc == Exited <==> StopThenTest(run)
  {
    LeavesExactlyFrom(INITIAL, run);
  }

  /** It happens: a line appended while the writer writes its last batch is not in the file when it stops. */
  lemma LateLineIsLost()
    ensures var run := [Test, Exchange, CheckBatch([]), Append([65])] + [WriteOne, Stop, Recycle, Test];
            && Legal(INITIAL, run) && Final(INITIAL, run).pc == Exited
            && Final(INITIAL, run).appended == [65] && Final(INITIAL, run).file == []
  {
    LateLineAppended();
    WriterLeaves();
    RunsCompose(INITIAL, [Test, Exchange, CheckBatch([]), Append([65])], [WriteOne, Stop, Recycle, Test]);
  }

  lemma {:induction false} RunsCompose(s: State, first: seq<Step>, second: seq<Step>)
    requires Legal(s, first) && Legal(Final(s, first), second)
    ensures Legal(s, first + second) && Final(s, first + second) == Final(Final(s, first), second)
    decreases first
  {
    if first == [] {
      assert first + second == second;
    } else {
      assert (first + second)[0] == first[0] && (first + second)[1..] == first[1..] + second;
      RunsCompose(After(s, first[0]), first[1..], second);
    }
  }

  lemma Unfold(s: State, step: Step, rest: seq<Step>)
    requires Enabled(s, step) && Legal(After(s, step), rest)
    ensures Legal(s, [step] + rest) && Final(s, [step] + rest) == Final(After(s, step), rest)
  {
    assert ([step] + rest)[1..] == rest;
  }

  // ---- the class ----

  /** The writing loop, from where it is to the end of the batch. */
  function WroteRest(s: State): State
    decreases |s.batch| - s.done
  {
    if s.done < |s.batch| then WroteRest(WriteBuffer(s)) else s
  }

  lemma {:induction false} WroteRestKeepsInv(s: State)
    requires Inv(s) && s.pc == Writing
    ensures var e := WroteRest(s);
            && Inv(e) && e.pc == Writing && e.done == |e.batch| && e.batch == s.batch && e.running == s.running
            && e.file == s.file + Flatten(s.batch[s.done..])
            && e.buffers == s.buffers && e.current == s.current
    decreases |s.batch| - s.done
  {
    if s.done < |s.batch| {
      WriteKeepsInv(s);
      WroteRestKeepsInv(WriteBuffer(s));
      RestFlattened(s.file, s.batch, s.done);
    } else {
      assert s.batch[s.done..] == [] && s.file + [] == s.file;
    }
  }

  lemma RestFlattened(file: bytes, batch: seq<bytes>, i: nat)
    requires i < |batch|
    ensures file + batch[i] + Flatten(batch[i + 1..]) == file + Flatten(batch[i..])
  {
    assert batch[i..][1..] == batch[i + 1..];
  }

  /**
   The methods on the source's fields, with the writer's local buffers beside them. Each stay in the lock
   is a method, and RunOnce is the writer's whole round when no append comes between.
   */
  class Logger {
    var current: bytes
    var next: Option<bytes>
    var buffers: seq<bytes>
    var new1: Option<bytes>
    var new2: Option<bytes>
    var batch: seq<bytes>
    var file: bytes
    var running: bool
    ghost var past: State      // the other fields of the state

    ghost function View(): State
      reads this
    {
      past.(current := current, next := next, buffers := buffers, new1 := new1, new2 := new2, batch := batch,
            file := file, running := running)
    }

    constructor ()
      ensures View() == INITIAL
    {
      current, next, buffers, new1, new2 := [], Some([]), [], Some([]), Some([]);
      batch, file, running, past := [], [], true, INITIAL;
    }

    method Append(line: bytes)
      requires Inv(View())
      modifies this
      ensures View() == AppendLine(old(View()), line) && Inv(View())
    {
      AppendKeepsInv(View(), line);
      if BUFFER_SIZE - |current| > |line| {
        current := Appended(current, line);
      } else {
        buffers := buffers + [current];
        if next.Some? {
          current, next := next.value, None;
        } else {
          current := [];
        }
        current := Appended(current, line);
      }
      past := past.(appended := if |line| < BUFFER_SIZE then past.appended + line else past.appended);
    }

    /** The loop condition. */
    method TestRunning() returns (goOn: bool)
      requires Inv(View()) && past.pc == Top
      modifies this`past
      ensures View() == After(old(View()), Test) && Inv(View()) && goOn == running
    {
      StepKeepsInv(View(), Test);
      goOn := running;
      past := past.(pc := if goOn then Ready else Exited);
    }

    /** The writer's stay in the lock: its asserts hold. */
    method Exchange()
      requires Inv(View()) && past.pc == Ready
      modifies this
      ensures View() == ExchangeBuffers(old(View())) && Inv(View())
    {
      ExchangeKeepsInv(View());
      assert new1.Some? && new1.value == [] && new2.Some? && new2.value == [] && batch == [];
      buffers := buffers + [current];
      current, new1 := new1.value, None;
      batch, buffers := buffers, batch;
      if next.None? {
        next, new2 := new2, None;
      }
      past := past.(taken := |past.appended|, pc := Taken);
    }

    /** A batch of more than 25 buffers keeps two. */
    method CheckBatch(notice: bytes)
      requires Inv(View()) && past.pc == Taken
      modifies this
      ensures View() == CheckBatchSize(old(View()), notice) && Inv(View())
    {
      CheckKeepsInv(View(), notice);
      assert batch != [];
      past := past.(done := 0, pc := Writing);
      if |batch| > MAX_BATCH {
        file := file + notice;
        past := past.(pieces := past.pieces + [Notice(notice)], doomed := batch[2..]);
        batch := batch[..2];
      }
    }

    method WriteBatch()
      requires past.done == 0
      modifies this`file, this`past
      ensures View() == WroteRest(old(View()))
    {
      ghost var to := WroteRest(View());
      for i := 0 to |batch|
        invariant past.done == i && WroteRest(View()) == to
      {
        file := file + batch[i];
        past := past.(pieces := past.pieces + [Kept(batch[i])], done := i + 1);
      }
    }

    /** The spares are refilled from the back of the batch: its asserts hold. */
    method Recycle()
      requires Inv(View()) && past.pc == Writing && past.done == |batch|
      modifies this
      ensures View() == RecycleBuffers(old(View())) && Inv(View())
    {
      ghost var to := RecycleBuffers(View());
      RecycleKeepsInv(View());
      if |batch| > 2 {
        batch := batch[..2];
      }
      if new1.None? {
        assert batch != [];
        new1, batch := Some([]), batch[..|batch| - 1];
      }
      if new2.None? {
        assert batch != [];
        new2, batch := Some([]), batch[..|batch| - 1];
      }
      batch := [];
      past := to;
    }

    /** One round of threadFunc: everything that was behind the lock is in the file, unless the batch was too long. */
    method RunOnce(notice: bytes)
      requires Inv(View()) && past.pc == Ready
      modifies this
      ensures Inv(View()) && past.pc == Top && running == old(running)
      ensures buffers == [] && current == []
      ensures file == old(file) + if |old(buffers)| + 1 > 25 then notice + old(buffers)[0] + old(buffers)[1] else Behind(old(View()))
    {
      ghost var s := View();
      RoundExact(s, notice);
      BufferQueued(s.buffers, s.current);
      Exchange();
      CheckBatch(notice);
      WroteRestKeepsInv(View());
      WriteBatch();
      Recycle();
    }
  }
}
