/**
 Transition tables of muduo/base/TimeZone.cc: which offset is in force at a UTC second, and
 which UTC second a local reading stands for when clocks skip and repeat.
 */
module Zones {
  import opened TimeZone

  datatype Transition = Transition(utctime: int, localtime: int, localtimeIdx: nat)
  datatype LocalTime = LocalTime(utcOffset: int, isDst: bool, desigIdx: nat)
  datatype Zone = Zone(transitions: seq<Transition>, localtimes: seq<LocalTime>)

  /** As addLocalTime and addTransition build it, with at least one local time type. */
  predicate WellFormed(z: Zone) {
    && z.localtimes != []
    && forall i :: 0 <= i < |z.transitions| ==>
         && z.transitions[i].localtimeIdx < |z.localtimes|
         && z.transitions[i].localtime == z.transitions[i].utctime + z.localtimes[z.transitions[i].localtimeIdx].utcOffset
  }

  function Utc(z: Zone, i: nat): int
    requires i < |z.transitions|
  {
    z.transitions[i].utctime
  }

  function Type(z: Zone, i: nat): LocalTime
    requires WellFormed(z) && i < |z.transitions|
  {
    z.localtimes[z.transitions[i].localtimeIdx]
  }

  function Offset(z: Zone, i: nat): int
    requires WellFormed(z) && i < |z.transitions|
  {
    Type(z, i).utcOffset
  }

  /** Local reading at transition i, on the new clock. */
  function Start(z: Zone, i: nat): int
    requires WellFormed(z) && i < |z.transitions|
  {
    Utc(z, i) + Offset(z, i)
  }

  /** Local reading at transition i, on the old clock: one past the prior second. */
  function End(z: Zone, i: nat): int
    requires WellFormed(z) && 0 < i < |z.transitions|
  {
    Utc(z, i) + Offset(z, i - 1)
  }

  /** How far transition i moves the clock; the first one has no predecessor in the table. */
  function Change(z: Zone, i: nat): int
    requires WellFormed(z) && i < |z.transitions|
  {
    if i == 0 then 0 else Offset(z, i) - Offset(z, i - 1)
  }

  function Abs(x: int): int {
    if x < 0 then -x else x
  }

  /** Ascending transitions, each gap longer than the clock changes at its two ends together. */
  predicate WellSpaced(z: Zone) {
    && WellFormed(z)
    && forall i :: 0 <= i < |z.transitions| - 1 ==>
         Utc(z, i + 1) - Utc(z, i) > Abs(Change(z, i)) + Abs(Change(z, i + 1))
  }

  // ---- upper_bound ----

  predicate Ascending(keys: seq<int>) {
    forall i, j :: 0 <= i < j < |keys| ==> keys[i] < keys[j]
  }

  /** Length of the longest prefix of keys not above x. */
  function UpperBound(keys: seq<int>, x: int): (k: nat)
    ensures k <= |keys|
    ensures k < |keys| ==> x < keys[k]
    ensures forall i :: 0 <= i < k ==> keys[i] <= x
  {
    if keys == [] || x < keys[0] then 0 else 1 + UpperBound(keys[1..], x)
  }

  /** std::upper_bound: binary search finds the same place as the scan. */
  method BinaryUpperBound(keys: seq<int>, x: int) returns (first: nat)
    requires Ascending(keys)
    ensures first == UpperBound(keys, x)
  {
    first := 0;
    var len := |keys|;
    while len > 0
      invariant 0 <= len && first + len <= |keys|
      invariant forall i :: 0 <= i < first ==> keys[i] <= x
      invariant forall i :: first + len <= i < |keys| ==> x < keys[i]
    {
      var half := len / 2;
      var middle := first + half;
      if x < keys[middle] {
        len := half;
      } else {
        first := middle + 1;
        len := len - half - 1;
      }
    }
    UpperBoundUnique(keys, x, first);
  }

  lemma {:induction false} UpperBoundUnique(keys: seq<int>, x: int, k: nat)
    requires k <= |keys| && (forall i :: 0 <= i < k ==> keys[i] <= x) && (k < |keys| ==> x < keys[k])
    ensures k == UpperBound(keys, x)
  {
    if k > 0 {
      assert keys[0] <= x;
      UpperBoundUnique(keys[1..], x, k - 1);
    }
  }

  function UtcTimes(z: Zone): seq<int> {
    seq(|z.transitions|, i requires 0 <= i < |z.transitions| => z.transitions[i].utctime)
  }

  function StartTimes(z: Zone): seq<int> {
    seq(|z.transitions|, i requires 0 <= i < |z.transitions| => z.transitions[i].localtime)
  }

  lemma {:induction false} TimesAscend(z: Zone, i: nat, j: nat)
    requires WellSpaced(z) && i < j < |z.transitions|
    ensures Utc(z, i) < Utc(z, j) && Start(z, i) < Start(z, j)
    decreases j
  {
    if i + 1 < j {
      TimesAscend(z, i, j - 1);
    }
    assert Utc(z, j - 1 + 1) - Utc(z, j - 1) > Abs(Change(z, j - 1)) + Abs(Change(z, j - 1 + 1));
  }

  lemma TablesAscending(z: Zone)
    requires WellSpaced(z)
    ensures Ascending(UtcTimes(z)) && Ascending(StartTimes(z))
  {
    forall i, j | 0 <= i < j < |z.transitions|
      ensures UtcTimes(z)[i] < UtcTimes(z)[j] && StartTimes(z)[i] < StartTimes(z)[j]
    {
      TimesAscend(z, i, j);
    }
  }

  // ---- what the table means ----

  /** Transition i is the last one at or before t. */
  predicate InForce(z: Zone, t: int, i: nat) {
    && i < |z.transitions| && Utc(z, i) <= t
    && (i + 1 < |z.transitions| ==> t < Utc(z, i + 1))
  }

  /** From the first transition on, the clocks show local at t. */
  ghost predicate Shows(z: Zone, t: int, local: int)
    requires WellFormed(z)
  {
    exists i: nat :: InForce(z, t, i) && t + Offset(z, i) == local
  }

  // ---- the code's two searches ----

  function TypeAtUtc(z: Zone, utc: int): LocalTime
    requires WellFormed(z)
  {
    if z.transitions == [] || utc < z.transitions[0].utctime then z.localtimes[0]
    else Type(z, UpperBound(UtcTimes(z), utc) - 1)
  }

  method FindLocalTime(z: Zone, utcTime: int) returns (local: LocalTime)
    requires WellFormed(z) && Ascending(UtcTimes(z))
    ensures local == TypeAtUtc(z, utcTime)
  {
    if z.transitions == [] || utcTime < z.transitions[0].utctime {
      local := z.localtimes[0];
    } else {
      var transI := BinaryUpperBound(UtcTimes(z), utcTime);
      assert transI != 0;
      if transI != |z.transitions| {
        transI := transI - 1;
        local := z.localtimes[z.transitions[transI].localtimeIdx];
      } else {
        local := z.localtimes[z.transitions[|z.transitions| - 1].localtimeIdx];
      }
    }
  }

  function TypeAtLocal(z: Zone, local: int, postTransition: bool): LocalTime
    requires WellFormed(z)
  {
    if z.transitions == [] || local < z.transitions[0].localtime then z.localtimes[0]
    else
      var k := UpperBound(StartTimes(z), local);
      if k == |z.transitions| then Type(z, k - 1)
      else if End(z, k) <= local then (if postTransition then Type(z, k) else Type(z, k - 1))
      else if k - 1 > 0 && local < End(z, k - 1) && !postTransition then Type(z, k - 2)
      else Type(z, k - 1)
  }

  method FindLocalTimeOfLocal(z: Zone, localtime: int, postTransition: bool) returns (local: LocalTime)
    requires WellFormed(z) && Ascending(StartTimes(z))
    ensures local == TypeAtLocal(z, localtime, postTransition)
  {
    if z.transitions == [] || localtime < z.transitions[0].localtime {
      return z.localtimes[0];
    }
    var transI := BinaryUpperBound(StartTimes(z), localtime);
    assert transI != 0;
    if transI == |z.transitions| {
      return z.localtimes[z.transitions[|z.transitions| - 1].localtimeIdx];
    }
    var priorTrans := z.transitions[transI - 1];
    var priorSecond := z.transitions[transI].utctime - 1 + z.localtimes[priorTrans.localtimeIdx].utcOffset;
    if priorSecond < localtime {
      if postTransition {
        return z.localtimes[z.transitions[transI].localtimeIdx];
      } else {
        return z.localtimes[priorTrans.localtimeIdx];
      }
    }
    transI := transI - 1;
    if transI != 0 {
      priorTrans := z.transitions[transI - 1];
      priorSecond := z.transitions[transI].utctime - 1 + z.localtimes[priorTrans.localtimeIdx].utcOffset;
    }
    if localtime <= priorSecond {
      if postTransition {
        return z.localtimes[z.transitions[transI].localtimeIdx];
      } else {
        return z.localtimes[priorTrans.localtimeIdx];
      }
    }
    return z.localtimes[z.transitions[transI].localtimeIdx];
  }

  /** The UTC second fromLocalTime answers for a local reading. */
  function Answer(z: Zone, local: int, postTransition: bool): int
    requires WellFormed(z)
  {
    local - TypeAtLocal(z, local, postTransition).utcOffset
  }

  // ---- correctness ----

  lemma InForceUnique(z: Zone, t: int, i: nat, j: nat)
    requires WellSpaced(z) && InForce(z, t, i) && InForce(z, t, j)
    ensures i == j
  {
    if i < j {
      if i + 1 < j {
        TimesAscend(z, i + 1, j);
      }
    } else if j < i {
      if j + 1 < i {
        TimesAscend(z, j + 1, i);
      }
    }
  }

  /** The binary search finds the transition in force. */
  lemma TypeAtUtcInForce(z: Zone, t: int) returns (i: nat)
    requires WellSpaced(z) && z.transitions != [] && Utc(z, 0) <= t
    ensures InForce(z, t, i) && TypeAtUtc(z, t) == Type(z, i)
  {
    var k := UpperBound(UtcTimes(z), t);
    assert UtcTimes(z)[0] == Utc(z, 0);
    i := k - 1;
    assert UtcTimes(z)[i] == Utc(z, i);
    assert k < |z.transitions| ==> UtcTimes(z)[k] == Utc(z, k);
  }

  /** Only the segment that starts last at or before a reading, or the one before it, can show it. */
  lemma SegmentsShowing(z: Zone, t: int, local: int, i: nat, j: nat)
    requires WellSpaced(z) && i + 1 < |z.transitions| && Start(z, i) <= local < Start(z, i + 1)
    requires InForce(z, t, j) && t + Offset(z, j) == local
    ensures j == i || j + 1 == i
    ensures j == i ==> local < End(z, i + 1)
    ensures j + 1 == i ==> local < End(z, i)
  {
    if j > i {
      if j > i + 1 {
        TimesAscend(z, i + 1, j);
      }
      assert false;
    } else if j + 1 < i {
      EndBeforeSecondNext(z, j);
      if j + 2 < i {
        TimesAscend(z, j + 2, i);
      }
      assert false;
    }
  }

  lemma EndBeforeSecondNext(z: Zone, j: nat)
    requires WellSpaced(z) && j + 2 < |z.transitions|
    ensures End(z, j + 1) < Start(z, j + 2) && End(z, j + 1) < End(z, j + 2)
  {
    assert Utc(z, j + 1 + 1) - Utc(z, j + 1) > Abs(Change(z, j + 1)) + Abs(Change(z, j + 1 + 1));
  }

  /**
   For every reading from the first transition's up to the last one's, both answers are
   exactly the UTC seconds that show it, the earlier one first; or nothing shows it, the
   reading was skipped at some transition k, and the answers differ by that clock change.
   */
  lemma LocalReadingsClassified(z: Zone, local: int)
    requires WellSpaced(z) && |z.transitions| > 1
    requires Start(z, 0) <= local < Start(z, |z.transitions| - 1)
    ensures forall t :: Shows(z, t, local) ==> t == Answer(z, local, false) || t == Answer(z, local, true)
    ensures
      || (&& Shows(z, Answer(z, local, false), local) && Shows(z, Answer(z, local, true), local)
          && Answer(z, local, false) <= Answer(z, local, true))
      || (&& (forall t :: !Shows(z, t, local))
          && exists k: nat :: 0 < k < |z.transitions| && End(z, k) <= local < Start(z, k) &&
               Answer(z, local, false) - Answer(z, local, true) == Change(z, k) &&
               Answer(z, local, true) < Utc(z, k) <= Answer(z, local, false))
  {
    var k := UpperBound(StartTimes(z), local);
    assert StartTimes(z)[0] == Start(z, 0) && StartTimes(z)[k - 1] == Start(z, k - 1) && StartTimes(z)[k] == Start(z, k);
    if End(z, k) <= local {
      SkippedReading(z, local, k);
    } else {
      ShownReading(z, local, k);
    }
  }

  lemma SkippedReading(z: Zone, local: int, k: nat)
    requires WellSpaced(z) && 0 < k < |z.transitions| && k == UpperBound(StartTimes(z), local)
    requires Start(z, 0) <= local && Start(z, k - 1) <= local < Start(z, k) && End(z, k) <= local
    ensures forall t :: !Shows(z, t, local)
    ensures Answer(z, local, false) - Answer(z, local, true) == Change(z, k)
    ensures Answer(z, local, true) < Utc(z, k) <= Answer(z, local, false)
  {
    forall t, j: nat | InForce(z, t, j) && t + Offset(z, j) == local ensures false {
      SegmentsShowing(z, t, local, k - 1, j);
      EndBeforeSecondNext(z, j);
    }
  }

  lemma ShownReading(z: Zone, local: int, k: nat)
    requires WellSpaced(z) && 0 < k < |z.transitions| && k == UpperBound(StartTimes(z), local)
    requires Start(z, 0) <= local && Start(z, k - 1) <= local < Start(z, k) && local < End(z, k)
    ensures forall t :: Shows(z, t, local) ==> t == Answer(z, local, false) || t == Answer(z, local, true)
    ensures Shows(z, Answer(z, local, false), local) && Shows(z, Answer(z, local, true), local)
    ensures Answer(z, local, false) <= Answer(z, local, true)
  {
    var i := k - 1;
    forall t, j: nat | InForce(z, t, j) && t + Offset(z, j) == local
      ensures j == i || (j + 1 == i && local < End(z, i))
    {
      SegmentsShowing(z, t, local, k - 1, j);
    }
    assert InForce(z, local - Offset(z, i), i);
    if i > 0 && local < End(z, i) {
      TimesAscend(z, i - 1, i);
      assert Utc(z, i - 1 + 1) - Utc(z, i - 1) > Abs(Change(z, i - 1)) + Abs(Change(z, i - 1 + 1));
      assert InForce(z, local - Offset(z, i - 1), i - 1);
    }
  }

  /** The reading at t, by the offset the code finds for it. */
  function Reading(z: Zone, t: int): int
    requires WellFormed(z)
  {
    t + TypeAtUtc(z, t).utcOffset
  }

  /** t is before the last transition but its reading recurs after it: the code answers with the later second only. */
  predicate RepeatsAtLast(z: Zone, t: int)
    requires WellFormed(z)
  {
    var n := |z.transitions|;
    n > 0 && t < Utc(z, n - 1) && Reading(z, t) >= Start(z, n - 1)
  }

  /**
   A second from the first transition on is one of the two answers for its own reading,
   except exactly where that reading recurs after the last transition.
   */
  lemma AnswersRecoverSeconds(z: Zone, t: int)
    requires WellSpaced(z) && z.transitions != [] && Utc(z, 0) <= t
    ensures (Answer(z, Reading(z, t), false) == t || Answer(z, Reading(z, t), true) == t)
            <==> !RepeatsAtLast(z, t)
  {
    var i := TypeAtUtcInForce(z, t);
    var local := Reading(z, t);
    assert local == t + Offset(z, i);
    if local < Start(z, |z.transitions| - 1) {
      ReadingFromFirst(z, t, i, local);
      RecoverBeforeLast(z, t, local);
      assert !RepeatsAtLast(z, t);
    } else {
      RecoverAfterLast(z, t, i, local);
      assert RepeatsAtLast(z, t) == (t < Utc(z, |z.transitions| - 1));
    }
  }

  lemma ReadingFromFirst(z: Zone, t: int, i: nat, local: int)
    requires WellSpaced(z) && InForce(z, t, i) && local == t + Offset(z, i)
    ensures Shows(z, t, local) && Start(z, 0) <= local
  {
    if i > 0 {
      TimesAscend(z, 0, i);
    }
  }

  lemma RecoverBeforeLast(z: Zone, t: int, local: int)
    requires WellSpaced(z) && z.transitions != [] && Shows(z, t, local)
    requires Start(z, 0) <= local < Start(z, |z.transitions| - 1)
    ensures Answer(z, local, false) == t || Answer(z, local, true) == t
  {
    LocalReadingsClassified(z, local);
  }

  lemma RecoverAfterLast(z: Zone, t: int, i: nat, local: int)
    requires WellSpaced(z) && InForce(z, t, i) && local == t + Offset(z, i)
    requires Start(z, |z.transitions| - 1) <= local
    ensures (Answer(z, local, false) == t || Answer(z, local, true) == t) <==> Utc(z, |z.transitions| - 1) <= t
  {
    AnswersAfterLast(z, local);
    if Utc(z, |z.transitions| - 1) <= t {
      InForceUnique(z, t, i, |z.transitions| - 1);
    }
  }

  /** Such seconds exist: clocks go back an hour at the last transition, and the first of the two hours is lost. */
  lemma RepeatAtLastIsLost()
    ensures var z := Zone([Transition(0, 3600, 0), Transition(100000, 100000, 1)],
                          [LocalTime(3600, true, 0), LocalTime(0, false, 4)]);
            && WellSpaced(z) && RepeatsAtLast(z, 99000)
            && Answer(z, Reading(z, 99000), false) == Answer(z, Reading(z, 99000), true) == 102600
  {
    var z := Zone([Transition(0, 3600, 0), Transition(100000, 100000, 1)],
                  [LocalTime(3600, true, 0), LocalTime(0, false, 4)]);
    assert WellSpaced(z);
    var i := TypeAtUtcInForce(z, 99000);
    assert InForce(z, 99000, 0);
    InForceUnique(z, 99000, 0, i);
    AnswersAfterLast(z, 102600);
  }

  lemma AnswersAfterLast(z: Zone, local: int)
    requires WellSpaced(z) && z.transitions != [] && Start(z, |z.transitions| - 1) <= local
    ensures TypeAtLocal(z, local, false) == TypeAtLocal(z, local, true) == Type(z, |z.transitions| - 1)
  {
    var n := |z.transitions|;
    var k := UpperBound(StartTimes(z), local);
    assert StartTimes(z)[0] == Start(z, 0);
    if n > 1 {
      TimesAscend(z, 0, n - 1);
    }
    if k < n {
      assert StartTimes(z)[k] == Start(z, k);
      if k < n - 1 {
        TimesAscend(z, k, n - 1);
      }
    }
  }

  /** Before the first transition a second is recovered unless its reading recurs after that transition. */
  lemma AnswersRecoverEarlySeconds(z: Zone, t: int)
    requires WellSpaced(z) && z.transitions != [] && t < Utc(z, 0)
    requires |z.transitions| > 1 ==>
               Utc(z, 1) - Utc(z, 0) > Abs(Offset(z, 0) - z.localtimes[0].utcOffset) + Abs(Change(z, 1))
    ensures (Answer(z, Reading(z, t), false) == t || Answer(z, Reading(z, t), true) == t)
            <==> Reading(z, t) < Start(z, 0)
  {
    var local := Reading(z, t);
    if Start(z, 0) <= local {
      var k := UpperBound(StartTimes(z), local);
      assert StartTimes(z)[0] == Start(z, 0);
      if |z.transitions| > 1 {
        assert StartTimes(z)[1] == Start(z, 1);
      }
    }
  }

  // ---- the public conversions ----

  function ToLocal(z: Zone, seconds: int): DateTime
    requires WellFormed(z)
  {
    Broken(Reading(z, seconds))
  }

  method ToLocalTime(z: Zone, seconds: int) returns (dt: DateTime, utcOffset: int)
    requires WellFormed(z) && Ascending(UtcTimes(z)) && Representable(Reading(z, seconds))
    ensures dt == ToLocal(z, seconds) && utcOffset == TypeAtUtc(z, seconds).utcOffset
    ensures FromUtcTime(dt) - utcOffset == seconds
  {
    var local := FindLocalTime(z, seconds);
    utcOffset := local.utcOffset;
    assert seconds + utcOffset == Reading(z, seconds);
    dt := BreakTime(seconds + utcOffset);
  }

  function FromLocal(z: Zone, dt: DateTime, postTransition: bool): int
    requires WellFormed(z)
  {
    Answer(z, FromUtcTime(dt), postTransition)
  }

  method FromLocalTime(z: Zone, dt: DateTime, postTransition: bool) returns (seconds: int)
    requires WellFormed(z) && Ascending(StartTimes(z)) && FieldsFit(dt)
    ensures seconds == FromLocal(z, dt, postTransition)
  {
    var local := FindLocalTimeOfLocal(z, FromUtcTime32(dt), postTransition);
    var localSeconds := FromUtcTime32(dt);
    seconds := localSeconds - local.utcOffset;
  }

  /**
   UTC to local time and back, through both searches and the calendar: one of the two flags
   gives the second back, exactly outside the seconds repeated at the last transition.
   */
  lemma LocalTimeRoundTrip(z: Zone, t: int)
    requires WellSpaced(z) && z.transitions != [] && Utc(z, 0) <= t
    requires Representable(Reading(z, t))
    ensures (FromLocal(z, ToLocal(z, t), false) == t || FromLocal(z, ToLocal(z, t), true) == t)
            <==> !RepeatsAtLast(z, t)
  {
    RebuildBroken(Reading(z, t));
    AnswersRecoverSeconds(z, t);
  }

  /** A table without transitions is one offset, forwards and backwards and for both flags. */
  lemma FixedOffsetExact(z: Zone, t: int, postTransition: bool)
    requires WellFormed(z) && z.transitions == [] && Representable(t + z.localtimes[0].utcOffset)
    ensures Reading(z, t) == t + z.localtimes[0].utcOffset
    ensures FromUtcTime(ToLocal(z, t)) == t + z.localtimes[0].utcOffset && FromLocal(z, ToLocal(z, t), postTransition) == t
  {
    RebuildBroken(t + z.localtimes[0].utcOffset);
  }

  /** The conversions called one after the other, on any well-spaced table. */
  method LocalTimeAndBack(z: Zone, t: int) returns (dt: DateTime, earlier: int, later: int)
    requires WellSpaced(z) && z.transitions != [] && Utc(z, 0) <= t
    requires Representable(Reading(z, t))
    ensures ValidDateTime(dt) && FromUtcTime(dt) == Reading(z, t)
    ensures (earlier == t || later == t) <==> !RepeatsAtLast(z, t)
  {
    TablesAscending(z);
    BrokenFits(Reading(z, t));
    RebuildBroken(Reading(z, t));
    LocalTimeRoundTrip(z, t);
    var utcOffset;
    dt, utcOffset := ToLocalTime(z, t);
    earlier := FromLocalTime(z, dt, false);
    later := FromLocalTime(z, dt, true);
  }
}
