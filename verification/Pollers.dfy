/**
 The two pollers, muduo/net/poller/PollPoller.cc and muduo/net/poller/EPollPoller.cc, driven by the
 same registrations, updates and removals of channels.
 */
module Pollers {

  type Fd = nat

  /** The event mask of every registered channel, by descriptor; 0 is kNoneEvent. */
  type Interest = map<Fd, nat>

  datatype Op = Update(fd: Fd, events: nat) | Remove(fd: Fd)

  /** A channel is first registered with some interest, and removed only with none. */
  predicate LegalOp(i: Interest, op: Op) {
    match op
    case Update(fd, events) => fd in i || events != 0
    case Remove(fd) => fd in i && i[fd] == 0
  }

  function NextInterest(i: Interest, op: Op): Interest {
    match op
    case Update(fd, events) => i[fd := events]
    case Remove(fd) => i - {fd}
  }

  predicate Legal(i: Interest, ops: seq<Op>)
    decreases ops
  {
    ops == [] || (LegalOp(i, ops[0]) && Legal(NextInterest(i, ops[0]), ops[1..]))
  }

  function FinalInterest(i: Interest, ops: seq<Op>): Interest
    decreases ops
  {
    if ops == [] then i else FinalInterest(NextInterest(i, ops[0]), ops[1..])
  }

  /** What has to be watched. */
  function NonEmpty(i: Interest): Interest {
    map fd | fd in i && i[fd] != 0 :: i[fd]
  }

  // ---- PollPoller ----

  datatype PollFd = PollFd(fd: int, events: nat)

  /** pollfds_, and the index_ of each registered channel. */
  datatype Poll = Poll(pollfds: seq<PollFd>, index: map<Fd, int>)

  /** The descriptor a slot belongs to: an ignored one is stored as -fd-1. */
  function Owner(p: PollFd): Fd {
    if p.fd >= 0 then p.fd else -p.fd - 1
  }

  function Ignored(fd: Fd): int {
    -1 - fd
  }

  function Slot(fd: Fd, events: nat): PollFd {
    PollFd(if events == 0 then Ignored(fd) else fd as int, events)
  }

  predicate HasSlot(p: Poll, i: Interest, fd: Fd) {
    fd in i && fd in p.index && 0 <= p.index[fd] < |p.pollfds| && p.pollfds[p.index[fd]] == Slot(fd, i[fd])
  }

  predicate HasOwner(p: Poll, k: nat) {
    k < |p.pollfds| && Owner(p.pollfds[k]) in p.index && p.index[Owner(p.pollfds[k])] == k
  }

  /** Each index names its channel's slot, negated exactly when the interest is empty; and every slot has its channel. */
  ghost predicate PollCoupled(p: Poll, i: Interest) {
    && p.index.Keys == i.Keys && |p.pollfds| == |i.Keys|
    && (forall fd :: fd in i ==> HasSlot(p, i, fd))
    && (forall k: nat :: k < |p.pollfds| ==> HasOwner(p, k))
  }

  /** If registered, the channel's index is a place in pollfds_. */
  predicate Indexed(p: Poll, fd: Fd) {
    fd in p.index ==> 0 <= p.index[fd] < |p.pollfds|
  }

  function PollUpdate(p: Poll, fd: Fd, events: nat): Poll
    requires Indexed(p, fd)
  {
    if fd !in p.index then Poll(p.pollfds + [PollFd(fd, events)], p.index[fd := |p.pollfds|])
    else p.(pollfds := p.pollfds[p.index[fd] := Slot(fd, events)])
  }

  function PollRemove(p: Poll, fd: Fd): Poll
    requires Indexed(p, fd) && fd in p.index
  {
    var idx, last := p.index[fd], |p.pollfds| - 1;
    var index := p.index - {fd};
    if idx == last then Poll(p.pollfds[..last], index)
    else
      var atEnd := Owner(p.pollfds[last]);
      Poll(p.pollfds[idx := p.pollfds[last]][..last], index[atEnd := idx])
  }

  function PollStep(p: Poll, op: Op): Poll
    requires Indexed(p, op.fd) && (op.Remove? ==> op.fd in p.index)
  {
    match op
    case Update(fd, events) => PollUpdate(p, fd, events)
    case Remove(fd) => PollRemove(p, fd)
  }

  lemma KeyAdded<T>(m: map<Fd, T>, fd: Fd, x: T)
    requires fd !in m
    ensures m[fd := x].Keys == m.Keys + {fd} && |m[fd := x].Keys| == |m.Keys| + 1
  {
    assert m[fd := x].Keys == m.Keys + {fd};
  }

  lemma KeyRemoved<T>(m: map<Fd, T>, fd: Fd)
    requires fd in m
    ensures (m - {fd}).Keys == m.Keys - {fd} && |(m - {fd}).Keys| == |m.Keys| - 1
  {
    assert (m - {fd}).Keys == m.Keys - {fd};
  }

  lemma PollAddSlots(p: Poll, i: Interest, fd: Fd, events: nat, f: Fd)
    requires PollCoupled(p, i) && fd !in i && events != 0 && (f in i || f == fd)
    ensures HasSlot(PollUpdate(p, fd, events), i[fd := events], f)
  {
    if f != fd {
      assert HasSlot(p, i, f);
    }
  }

  lemma PollAddOwners(p: Poll, i: Interest, fd: Fd, events: nat, k: nat)
    requires PollCoupled(p, i) && fd !in i && events != 0 && k <= |p.pollfds|
    ensures HasOwner(PollUpdate(p, fd, events), k)
  {
    if k < |p.pollfds| {
      assert HasOwner(p, k);
    }
  }

  lemma PollAddCoupled(p: Poll, i: Interest, fd: Fd, events: nat)
    requires PollCoupled(p, i) && fd !in i && events != 0
    ensures PollCoupled(PollUpdate(p, fd, events), i[fd := events])
  {
    var p', i' := PollUpdate(p, fd, events), i[fd := events];
    KeyAdded(i, fd, events);
    KeyAdded(p.index, fd, |p.pollfds|);
    forall f | f in i' ensures HasSlot(p', i', f) {
      PollAddSlots(p, i, fd, events, f);
    }
    forall k: nat | k < |p'.pollfds| ensures HasOwner(p', k) {
      PollAddOwners(p, i, fd, events, k);
    }
  }

  lemma PollChangeCoupled(p: Poll, i: Interest, fd: Fd, events: nat)
    requires PollCoupled(p, i) && fd in i
    ensures Indexed(p, fd) && PollCoupled(PollUpdate(p, fd, events), i[fd := events])
  {
    assert HasSlot(p, i, fd);
    var p', i' := PollUpdate(p, fd, events), i[fd := events];
    assert i'.Keys == i.Keys && p'.index == p.index;
    forall f | f in i' ensures HasSlot(p', i', f) {
      assert HasSlot(p, i, f);
      assert Owner(Slot(f, i[f])) == f && Owner(Slot(fd, i[fd])) == fd;
    }
    forall k: nat | k < |p'.pollfds| ensures HasOwner(p', k) {
      assert HasOwner(p, k);
      assert Owner(Slot(fd, events)) == fd == Owner(Slot(fd, i[fd]));
    }
  }

  lemma PollRemoveSlots(p: Poll, i: Interest, fd: Fd, f: Fd)
    requires PollCoupled(p, i) && fd in i && f in i && f != fd
    ensures Indexed(p, fd) && fd in p.index && HasSlot(PollRemove(p, fd), i - {fd}, f)
  {
    assert HasSlot(p, i, fd) && HasSlot(p, i, f);
    assert Owner(Slot(f, i[f])) == f && Owner(Slot(fd, i[fd])) == fd;
    var idx, last := p.index[fd], |p.pollfds| - 1;
    assert HasOwner(p, last);
    if p.index[f] != last {
      assert p.index[f] != idx;
    }
  }

  lemma PollRemoveOwners(p: Poll, i: Interest, fd: Fd, k: nat)
    requires PollCoupled(p, i) && fd in i && k < |p.pollfds| - 1
    ensures Indexed(p, fd) && fd in p.index && HasOwner(PollRemove(p, fd), k)
  {
    assert HasSlot(p, i, fd) && Owner(Slot(fd, i[fd])) == fd;
    assert HasOwner(p, k) && HasOwner(p, |p.pollfds| - 1) && HasOwner(p, p.index[fd]);
  }

  /** The last slot's channel takes over the freed index; everyone else stays where they are. */
  lemma PollRemoveCoupled(p: Poll, i: Interest, fd: Fd)
    requires PollCoupled(p, i) && LegalOp(i, Remove(fd))
    ensures Indexed(p, fd) && fd in p.index && PollCoupled(PollRemove(p, fd), i - {fd})
  {
    assert HasSlot(p, i, fd) && HasOwner(p, |p.pollfds| - 1);
    var p', i' := PollRemove(p, fd), i - {fd};
    KeyRemoved(i, fd);
    assert p'.index.Keys == p.index.Keys - {fd};
    forall f | f in i' ensures HasSlot(p', i', f) {
      PollRemoveSlots(p, i, fd, f);
    }
    forall k: nat | k < |p'.pollfds| ensures HasOwner(p', k) {
      PollRemoveOwners(p, i, fd, k);
    }
  }

  /** The asserts of updateChannel and removeChannel hold whenever a registered channel is updated or removed. */
  lemma PollAssertsHold(p: Poll, i: Interest, fd: Fd)
    requires PollCoupled(p, i) && fd in i
    ensures fd in p.index && 0 <= p.index[fd] < |p.pollfds|
    ensures p.pollfds[p.index[fd]] == if i[fd] == 0 then PollFd(Ignored(fd), 0) else PollFd(fd, i[fd])
    ensures var last := |p.pollfds| - 1; p.index[fd] < last ==> Owner(p.pollfds[last]) in p.index.Keys - {fd}
  {
    assert HasSlot(p, i, fd) && HasOwner(p, |p.pollfds| - 1);
  }

  function FinalPoll(p: Poll, ghost i: Interest, ops: seq<Op>): (e: Poll)
    requires PollCoupled(p, i) && Legal(i, ops)
    ensures PollCoupled(e, FinalInterest(i, ops))
    decreases ops
  {
    if ops == [] then p
    else
      PollStepCoupled(p, i, ops[0]);
      FinalPoll(PollStep(p, ops[0]), NextInterest(i, ops[0]), ops[1..])
  }

  lemma PollStepCoupled(p: Poll, i: Interest, op: Op)
    requires PollCoupled(p, i) && LegalOp(i, op)
    ensures Indexed(p, op.fd) && (op.Remove? ==> op.fd in p.index)
    ensures PollCoupled(PollStep(p, op), NextInterest(i, op))
  {
    match op
    case Update(fd, events) =>
      if fd in i {
        PollChangeCoupled(p, i, fd, events);
      } else {
        PollAddCoupled(p, i, fd, events);
      }
    case Remove(fd) => PollRemoveCoupled(p, i, fd);
  }

  // ---- EPollPoller ----

  /** index_ of a registered channel: kAdded or kDeleted; kNew is that of a channel not in channels_. */
  datatype Mark = Added | Deleted

  const NEW: int := -1
  const ADDED: int := 1
  const DELETED: int := 2

  /** The marks, the kernel's set with its event masks, and whether every epoll_ctl so far was a legal one. */
  datatype EPoll = EPoll(index: map<Fd, Mark>, kernel: map<Fd, nat>, ok: bool)

  datatype CtlOp = CtlAdd | CtlMod | CtlDel

  /** epoll_ctl: ADD wants an absent descriptor, MOD and DEL a present one. */
  function Ctl(e: EPoll, op: CtlOp, fd: Fd, events: nat): EPoll {
    match op
    case CtlAdd => e.(kernel := e.kernel[fd := events], ok := e.ok && fd !in e.kernel)
    case CtlMod => e.(kernel := e.kernel[fd := events], ok := e.ok && fd in e.kernel)
    case CtlDel => e.(kernel := e.kernel - {fd}, ok := e.ok && fd in e.kernel)
  }

  function EPollUpdate(e: EPoll, fd: Fd, events: nat): EPoll {
    if fd !in e.index || e.index[fd] == Deleted then Ctl(e.(index := e.index[fd := Added]), CtlAdd, fd, events)
    else if events == 0 then Ctl(e, CtlDel, fd, 0).(index := e.index[fd := Deleted])
    else Ctl(e, CtlMod, fd, events)
  }

  function EPollRemove(e: EPoll, fd: Fd): EPoll {
    var e1 := e.(index := e.index - {fd});
    if fd in e.index && e.index[fd] == Added then Ctl(e1, CtlDel, fd, 0) else e1
  }

  function EPollStep(e: EPoll, op: Op): EPoll {
    match op
    case Update(fd, events) => EPollUpdate(e, fd, events)
    case Remove(fd) => EPollRemove(e, fd)
  }

  function FinalEPoll(e: EPoll, ops: seq<Op>): EPoll
    decreases ops
  {
    if ops == [] then e else FinalEPoll(EPollStep(e, ops[0]), ops[1..])
  }

  /** Added channels are the ones in the kernel, with their events; a deleted one has no interest. */
  ghost predicate EPollCoupled(e: EPoll, i: Interest) {
    && e.ok && e.index.Keys == i.Keys
    && (forall fd :: fd in e.kernel <==> fd in e.index && e.index[fd] == Added)
    && (forall fd :: fd in e.kernel ==> e.kernel[fd] == i[fd])
    && (forall fd :: fd in e.index && e.index[fd] == Deleted ==> i[fd] == 0)
  }

  lemma EPollStepCoupled(e: EPoll, i: Interest, op: Op)
    requires EPollCoupled(e, i) && LegalOp(i, op)
    ensures EPollCoupled(EPollStep(e, op), NextInterest(i, op))
  {
  }

  lemma {:induction false} EPollRunCoupled(e: EPoll, i: Interest, ops: seq<Op>)
    requires EPollCoupled(e, i) && Legal(i, ops)
    ensures EPollCoupled(FinalEPoll(e, ops), FinalInterest(i, ops))
    decreases ops
  {
    if ops != [] {
      EPollStepCoupled(e, i, ops[0]);
      EPollRunCoupled(EPollStep(e, ops[0]), NextInterest(i, ops[0]), ops[1..]);
    }
  }

  // ---- both ----

  /** The slots poll(2) looks at. */
  ghost predicate PollWatches(p: Poll, fd: Fd, events: nat) {
    PollFd(fd, events) in p.pollfds
  }

  const NO_POLL: Poll := Poll([], map[])
  const NO_EPOLL: EPoll := EPoll(map[], map[], true)

  /**
   How many updates with no interest channel fd has had since its last one with some, or since it was
   removed: n of them before these operations, this many after.
   */
  function Empties(n: nat, ops: seq<Op>, fd: Fd): nat
    decreases ops
  {
    if ops == [] then n else Empties(NextEmpties(n, ops[0], fd), ops[1..], fd)
  }

  function NextEmpties(n: nat, op: Op, fd: Fd): nat {
    if op.fd != fd then n else if op.Update? && op.events == 0 then n + 1 else 0
  }

  /** The mark of a channel, by the number of its empty updates. */
  predicate Counted(e: EPoll, i: Interest, fd: Fd, n: nat) {
    && (fd in i ==> fd in e.index && (n > 0 <==> i[fd] == 0) && (e.index[fd] == Deleted <==> n % 2 == 1))
    && (fd !in i ==> n == 0)
  }

  lemma StepCounted(e: EPoll, i: Interest, op: Op, fd: Fd, n: nat)
    requires EPollCoupled(e, i) && LegalOp(i, op) && Counted(e, i, fd, n)
    ensures Counted(EPollStep(e, op), NextInterest(i, op), fd, NextEmpties(n, op, fd))
  {
  }

  lemma {:induction false} RunCounted(e: EPoll, i: Interest, ops: seq<Op>, fd: Fd, n: nat)
    requires EPollCoupled(e, i) && Legal(i, ops) && Counted(e, i, fd, n)
    ensures Counted(FinalEPoll(e, ops), FinalInterest(i, ops), fd, Empties(n, ops, fd))
    decreases ops
  {
    if ops != [] {
      EPollStepCoupled(e, i, ops[0]);
      StepCounted(e, i, ops[0], fd, n);
      RunCounted(EPollStep(e, ops[0]), NextInterest(i, ops[0]), ops[1..], fd, NextEmpties(n, ops[0], fd));
    }
  }

  /**
   The kernel's set after any legal run: every epoll_ctl was an ADD of an absent or a MOD or DEL of a present
   descriptor, and a channel is in the set, with its events, unless the empty updates since its last
   non-empty one are odd in number.
   */
  lemma KernelExact(ops: seq<Op>, fd: Fd)
    requires Legal(map[], ops)
    ensures var i, e := FinalInterest(map[], ops), FinalEPoll(NO_EPOLL, ops);
            && e.ok
            && (fd in e.kernel <==> fd in i && Empties(0, ops, fd) % 2 == 0)
            && (fd in e.kernel ==> e.kernel[fd] == i[fd])
            && (fd in i ==> (i[fd] == 0 <==> Empties(0, ops, fd) > 0))
  {
    EPollRunCoupled(NO_EPOLL, map[], ops);
    RunCounted(NO_EPOLL, map[], ops, fd, 0);
  }

  /**
   The kernel watches just the channels of non-empty interest, each with its events, if and only if every registered
   channel of empty interest has had an odd number of empty updates in a row.
   */
  lemma KernelIsInterestExactly(ops: seq<Op>)
    requires Legal(map[], ops)
    ensures var i := FinalInterest(map[], ops);
            FinalEPoll(NO_EPOLL, ops).kernel == NonEmpty(i)
            <==> forall fd :: fd in i && i[fd] == 0 ==> Empties(0, ops, fd) % 2 == 1
  {
    var i, k := FinalInterest(map[], ops), FinalEPoll(NO_EPOLL, ops).kernel;
    forall fd: Fd
      ensures fd in k <==> fd in i && Empties(0, ops, fd) % 2 == 0
      ensures fd in k ==> k[fd] == i[fd]
      ensures fd in i ==> (i[fd] == 0 <==> Empties(0, ops, fd) > 0)
    {
      KernelExact(ops, fd);
    }
    if k == NonEmpty(i) {
      forall fd | fd in i && i[fd] == 0 ensures Empties(0, ops, fd) % 2 == 1 {
        assert fd !in NonEmpty(i);
      }
    }
    if forall fd :: fd in i && i[fd] == 0 ==> Empties(0, ops, fd) % 2 == 1 {
      assert k.Keys == NonEmpty(i).Keys;
    }
  }

  /** No channel of empty interest is updated with empty interest again. */
  predicate NoRepeatedEmpty(i: Interest, ops: seq<Op>)
    decreases ops
  {
    ops == [] || (!(ops[0].Update? && ops[0].events == 0 && ops[0].fd in i && i[ops[0].fd] == 0)
                  && NoRepeatedEmpty(NextInterest(i, ops[0]), ops[1..]))
  }

  lemma {:induction false} EmptiesAtMostOne(e: EPoll, i: Interest, ops: seq<Op>, fd: Fd, n: nat)
    requires EPollCoupled(e, i) && Legal(i, ops) && Counted(e, i, fd, n) && n <= 1 && NoRepeatedEmpty(i, ops)
    ensures Empties(n, ops, fd) <= 1
    decreases ops
  {
    if ops != [] {
      EPollStepCoupled(e, i, ops[0]);
      StepCounted(e, i, ops[0], fd, n);
      EmptiesAtMostOne(EPollStep(e, ops[0]), NextInterest(i, ops[0]), ops[1..], fd, NextEmpties(n, ops[0], fd));
    }
  }

  /**
   After any legal run poll(2) watches exactly the channels of non-empty interest, each with its events; and if no
   channel of empty interest was updated to empty again, epoll's set is exactly those too.
   */
  lemma PollersAgree(ops: seq<Op>)
    requires Legal(map[], ops)
    ensures var i, p := FinalInterest(map[], ops), FinalPoll(NO_POLL, map[], ops);
            && (forall fd: Fd, events: nat :: PollWatches(p, fd, events) <==> fd in NonEmpty(i) && i[fd] == events)
            && (NoRepeatedEmpty(map[], ops) ==> FinalEPoll(NO_EPOLL, ops).kernel == NonEmpty(i))
  {
    var i, p := FinalInterest(map[], ops), FinalPoll(NO_POLL, map[], ops);
    forall fd: Fd, events: nat
      ensures PollWatches(p, fd, events) <==> fd in NonEmpty(i) && i[fd] == events
    {
      SlotsMatch(p, i, fd, events);
    }
    if NoRepeatedEmpty(map[], ops) {
      forall fd | fd in i && i[fd] == 0 ensures Empties(0, ops, fd) % 2 == 1 {
        EmptiesAtMostOne(NO_EPOLL, map[], ops, fd, 0);
        KernelExact(ops, fd);
      }
      KernelIsInterestExactly(ops);
    }
  }

  lemma SlotsMatch(p: Poll, i: Interest, fd: Fd, events: nat)
    requires PollCoupled(p, i)
    ensures PollWatches(p, fd, events) <==> fd in NonEmpty(i) && i[fd] == events
  {
    if PollWatches(p, fd, events) {
      var k: nat :| k < |p.pollfds| && p.pollfds[k] == PollFd(fd, events);
      assert HasOwner(p, k) && Owner(p.pollfds[k]) == fd;
      assert HasSlot(p, i, fd);
    }
    if fd in i {
      assert HasSlot(p, i, fd);
    }
  }

  /** PollPoller's bookkeeping after any legal run, swaps with the last slot included. */
  lemma PollIndexesExact(ops: seq<Op>, fd: Fd)
    requires Legal(map[], ops) && fd in FinalInterest(map[], ops)
    ensures var i, p := FinalInterest(map[], ops), FinalPoll(NO_POLL, map[], ops);
            && |p.pollfds| == |i.Keys|
            && fd in p.index && 0 <= p.index[fd] < |p.pollfds|
            && p.pollfds[p.index[fd]].events == i[fd]
            && (p.pollfds[p.index[fd]].fd == if i[fd] == 0 then Ignored(fd) else fd as int)
  {
    assert HasSlot(FinalPoll(NO_POLL, map[], ops), FinalInterest(map[], ops), fd);
  }

  /** An update with no interest moves a registered channel into or out of the kernel's set, every time. */
  lemma EmptyUpdateToggles(e: EPoll, i: Interest, fd: Fd)
    requires EPollCoupled(e, i) && fd in i
    ensures fd in EPollUpdate(e, fd, 0).kernel <==> fd !in e.kernel
  {
  }

  /**
   So the kernel can be left with a descriptor of no interest, whose errors and hang-ups epoll reports all the same,
   where poll looks at no slot of it: a second such update adds it back.
   */
  lemma DisabledTwiceIsInKernel()
    ensures var ops := [Update(3, 1), Update(3, 0), Update(3, 0)];
            && Legal(map[], ops) && FinalEPoll(NO_EPOLL, ops).kernel == map[3 := 0]
            && forall events: nat :: !PollWatches(FinalPoll(NO_POLL, map[], ops), 3, events)
  {
    var ops := [Update(3, 1), Update(3, 0), Update(3, 0)];
    assert ops[1..] == [Update(3, 0), Update(3, 0)] && ops[1..][1..] == [Update(3, 0)] && ops[1..][1..][1..] == [];
    assert Legal(map[3 := 0], ops[1..][1..]);
    assert Legal(map[3 := 1], ops[1..]);
    var e1 := EPollStep(NO_EPOLL, ops[0]);
    var e2 := EPollStep(e1, Update(3, 0));
    assert e2.index[3] == Deleted;
    assert FinalEPoll(e2, [Update(3, 0)]) == EPollStep(e2, Update(3, 0));
    assert FinalEPoll(e1, ops[1..]) == FinalEPoll(e2, ops[1..][1..]);
    PollersAgree(ops);
    assert FinalInterest(map[3 := 0], ops[1..][1..]) == map[3 := 0];
    assert FinalInterest(map[], ops) == map[3 := 0];
  }

  // ---- the objects ----

  class Channel {
    const fd: Fd
    var events: nat
    var index: int

    constructor (fd: Fd)
      ensures this.fd == fd && events == 0 && index == -1
    {
      this.fd := fd;
      events, index := 0, -1;
    }
  }

  class PollPoller {
    var pollfds: seq<PollFd>
    var channels: map<Fd, Channel>
    ghost var index: map<Fd, int>   // the indexes of the channels in channels_

    constructor ()
      ensures Valid() && Poll(pollfds, index) == NO_POLL
    {
      pollfds, channels, index := [], map[], map[];
    }

    /** channels_ is keyed by descriptor. */
    ghost predicate Valid()
      reads this, channels.Values
    {
      && channels.Keys == index.Keys
      && forall fd :: fd in channels ==> channels[fd].fd == fd && channels[fd].index == index[fd]
    }

    /** The preconditions are the asserts of the source. */
    method UpdateChannel(channel: Channel)
      requires Valid() && (channel.index < 0 <==> channel.fd !in channels)
      requires channel.index >= 0 ==> channels[channel.fd] == channel && channel.index < |pollfds|
      modifies this, channel`index
      ensures Valid() && channels == old(channels)[channel.fd := channel]
      ensures Poll(pollfds, index) == PollUpdate(Poll(old(pollfds), old(index)), channel.fd, channel.events)
    {
      if channel.index < 0 {
        pollfds := pollfds + [PollFd(channel.fd, channel.events)];
        channel.index := |pollfds| - 1;
        channels := channels[channel.fd := channel];
        index := index[channel.fd := |pollfds| - 1];
      } else {
        var idx := channel.index;
        pollfds := pollfds[idx := PollFd(channel.fd, channel.events)];
        if channel.events == 0 {
          pollfds := pollfds[idx := pollfds[idx].(fd := Ignored(channel.fd))];
        }
      }
    }

    method RemoveChannel(channel: Channel)
      requires Valid() && channel.fd in channels && channels[channel.fd] == channel && 0 <= channel.index < |pollfds|
      requires pollfds[channel.index] == PollFd(Ignored(channel.fd), 0)
      requires channel.index < |pollfds| - 1 ==> Owner(pollfds[|pollfds| - 1]) in channels.Keys - {channel.fd}
      modifies this, channels.Values
      ensures Valid() && channels == old(channels) - {channel.fd}
      ensures Poll(pollfds, index) == PollRemove(Poll(old(pollfds), old(index)), channel.fd)
    {
      var idx := channel.index;
      channels := channels - {channel.fd};
      index := index - {channel.fd};
      if idx == |pollfds| - 1 {
        pollfds := pollfds[..|pollfds| - 1];
      } else {
        var channelAtEnd := pollfds[|pollfds| - 1].fd;
        pollfds := pollfds[idx := pollfds[|pollfds| - 1]];
        if channelAtEnd < 0 {
          channelAtEnd := -channelAtEnd - 1;
        }
        channels[channelAtEnd].index := idx;
        index := index[channelAtEnd := idx];
        pollfds := pollfds[..|pollfds| - 1];
      }
    }
  }

  class EPollPoller {
    var channels: map<Fd, Channel>
    var kernel: map<Fd, nat>         // the set behind epollfd_
    ghost var ok: bool               // every epoll_ctl so far was legal
    ghost var marks: map<Fd, Mark>   // the indexes of the channels in channels_

    constructor ()
      ensures Valid() && EPoll(marks, kernel, ok) == NO_EPOLL
    {
      channels, kernel, ok, marks := map[], map[], true, map[];
    }

    static function IndexOf(m: Mark): int {
      if m == Added then ADDED else DELETED
    }

    ghost predicate Valid()
      reads this, channels.Values
    {
      && channels.Keys == marks.Keys
      && forall fd :: fd in channels ==> channels[fd].fd == fd && channels[fd].index == IndexOf(marks[fd])
    }

    method UpdateChannel(channel: Channel)
      requires Valid() && (channel.index == NEW <==> channel.fd !in channels)
      requires channel.index != NEW ==> channels[channel.fd] == channel
      modifies this, channel`index
      ensures Valid() && channels == old(channels)[channel.fd := channel]
      ensures EPoll(marks, kernel, ok) == EPollUpdate(EPoll(old(marks), old(kernel), old(ok)), channel.fd, channel.events)
    {
      var was, fd := channel.index, channel.fd;
      if was == NEW || was == DELETED {
        if was == NEW {
          channels := channels[fd := channel];
        }
        channel.index := ADDED;
        marks := marks[fd := Added];
        EpollCtl(CtlAdd, fd, channel.events);
      } else {
        if channel.events == 0 {
          EpollCtl(CtlDel, fd, channel.events);
          channel.index := DELETED;
          marks := marks[fd := Deleted];
        } else {
          EpollCtl(CtlMod, fd, channel.events);
        }
      }
    }

    method RemoveChannel(channel: Channel)
      requires Valid() && channel.fd in channels && channels[channel.fd] == channel && channel.events == 0
      modifies this, channel`index
      ensures Valid() && channels == old(channels) - {channel.fd} && channel.index == NEW
      ensures EPoll(marks, kernel, ok) == EPollRemove(EPoll(old(marks), old(kernel), old(ok)), channel.fd)
    {
      var was := channel.index;
      channels := channels - {channel.fd};
      marks := marks - {channel.fd};
      if was == ADDED {
        EpollCtl(CtlDel, channel.fd, channel.events);
      }
      channel.index := NEW;
    }

    /** update(): the system call, on the kernel's set. */
    method EpollCtl(operation: CtlOp, fd: Fd, events: nat)
      modifies this`kernel, this`ok
      ensures EPoll(marks, kernel, ok) == Ctl(EPoll(marks, old(kernel), old(ok)), operation, fd, events)
    {
      match operation
      case CtlAdd =>
        ok := ok && fd !in kernel;
        kernel := kernel[fd := events];
      case CtlMod =>
        ok := ok && fd in kernel;
        kernel := kernel[fd := events];
      case CtlDel =>
        ok := ok && fd in kernel;
        kernel := kernel - {fd};
    }
  }
}
