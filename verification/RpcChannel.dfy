/**
 Two RpcChannel objects (muduo/net/protorpc/RpcChannel.cc) at the ends of a connection, each
 calling the other's services: any number of caller threads at each end, FIFO wires between
 them, and services that finish in any order.
 */
module RpcChannels {
  import opened Bytes

  type Id = int
  type Payload = nat

  datatype Reply = Response(content: Payload) | Error(code: nat)
  /** The third message type of the protocol, ERROR, is received and ignored. */
  datatype Message = Request(id: Id, payload: Payload) | ResponseTo(id: Id, reply: Reply) | ErrorMessage

  /** What onRpcMessage finds out about a request: an error it answers itself, or a service to call. */
  datatype Verdict = Refuse(code: nat) | Dispatch

  datatype Endpoint = Endpoint(
    lastId: Id,                        // id_
    outstandings: map<Id, Payload>,    // outstandings_
    drafts: map<Id, Payload>,          // threads in CallMethod with an id, not yet in outstandings_
    unsent: set<Id>,                   // threads in CallMethod before codec_.send
    serving: map<Id, Payload>,         // the peer's requests whose service has not called done
    wire: seq<Message>,                // sent, not yet received by the peer
    issued: map<Id, Payload>,          // history: calls made here
    produced: map<Id, (Payload, Reply)>, // history: replies made here, with the request each answers
    completions: seq<(Id, Reply)>)     // history: calls made here that have been completed

  datatype State = State(left: Endpoint, right: Endpoint)

  datatype Step =
    | Allocate(atLeft: bool, payload: Payload)
    | Record(atLeft: bool, id: Id)
    | Send(atLeft: bool, id: Id)
    | Receive(atLeft: bool, verdict: Verdict)
    | Finish(atLeft: bool, id: Id, reply: Reply)

  // ---- one endpoint ----

  function Allocated(e: Endpoint, p: Payload): Endpoint {
    var id := e.lastId + 1;
    e.(lastId := id, drafts := e.drafts[id := p], issued := e.issued[id := p])
  }

  function Recorded(e: Endpoint, id: Id): Endpoint
    requires id in e.drafts
  {
    e.(outstandings := e.outstandings[id := e.drafts[id]], drafts := e.drafts - {id}, unsent := e.unsent + {id})
  }

  function Sent(e: Endpoint, id: Id): Endpoint
    requires id in e.outstandings
  {
    e.(unsent := e.unsent - {id}, wire := e.wire + [Request(id, e.outstandings[id])])
  }

  /** A reply goes out; the history keeps the request it was made for. */
  function Answered(e: Endpoint, id: Id, p: Payload, r: Reply): Endpoint {
    e.(wire := e.wire + [ResponseTo(id, r)], produced := e.produced[id := (p, r)])
  }

  /** doneCallback. */
  function Finished(e: Endpoint, id: Id, r: Reply): Endpoint
    requires id in e.serving
  {
    Answered(e.(serving := e.serving - {id}), id, e.serving[id], r)
  }

  /** onRpcMessage. */
  function Received(e: Endpoint, m: Message, verdict: Verdict): Endpoint {
    match m
    case Request(id, p) =>
      (match verdict
       case Refuse(code) => Answered(e, id, p, Error(code))
       case Dispatch => e.(serving := e.serving[id := p]))
    case ResponseTo(id, r) =>
      if id in e.outstandings then
        e.(outstandings := e.outstandings - {id}, completions := e.completions + [(id, r)])
      else e
    case ErrorMessage => e
  }

  // ---- both ----

  function At(s: State, left: bool): Endpoint {
    if left then s.left else s.right
  }

  function With(s: State, left: bool, e: Endpoint): State {
    if left then s.(left := e) else s.(right := e)
  }

  predicate Enabled(s: State, step: Step) {
    match step
    case Allocate(_, _) => true
    case Record(l, id) => id in At(s, l).drafts
    case Send(l, id) => id in At(s, l).unsent && id in At(s, l).outstandings
    case Receive(l, _) => At(s, !l).wire != []
    case Finish(l, id, _) => id in At(s, l).serving
  }

  function After(s: State, step: Step): State
    requires Enabled(s, step)
  {
    match step
    case Allocate(l, p) => With(s, l, Allocated(At(s, l), p))
    case Record(l, id) => With(s, l, Recorded(At(s, l), id))
    case Send(l, id) => With(s, l, Sent(At(s, l), id))
    case Finish(l, id, r) => With(s, l, Finished(At(s, l), id, r))
    case Receive(l, verdict) =>
      var peer := At(s, !l);
      With(With(s, !l, peer.(wire := peer.wire[1..])), l, Received(At(s, l), peer.wire[0], verdict))
  }

  const IDLE: Endpoint := Endpoint(0, map[], map[], {}, map[], [], map[], map[], [])

  predicate Legal(s: State, run: seq<Step>)
    decreases run
  {
    run == [] || (Enabled(s, run[0]) && Legal(After(s, run[0]), run[1..]))
  }

  function Final(s: State, run: seq<Step>): State
    requires Legal(s, run)
    decreases run
  {
    if run == [] then s else Final(After(s, run[0]), run[1..])
  }

  // ---- where each call is ----

  function RequestId(m: Message): multiset<Id> {
    if m.Request? then multiset{m.id} else multiset{}
  }

  function ResponseId(m: Message): multiset<Id> {
    if m.ResponseTo? then multiset{m.id} else multiset{}
  }

  function RequestIds(wire: seq<Message>): multiset<Id> {
    if wire == [] then multiset{} else RequestId(wire[0]) + RequestIds(wire[1..])
  }

  function ResponseIds(wire: seq<Message>): multiset<Id> {
    if wire == [] then multiset{} else ResponseId(wire[0]) + ResponseIds(wire[1..])
  }

  lemma Reassociate(a: multiset<Id>, b: multiset<Id>, c: multiset<Id>)
    ensures a + (b + c) == a + b + c
  {
  }

  lemma {:induction false} IdsOfSent(wire: seq<Message>, m: Message)
    ensures RequestIds(wire + [m]) == RequestIds(wire) + RequestId(m)
    ensures ResponseIds(wire + [m]) == ResponseIds(wire) + ResponseId(m)
  {
    if wire == [] {
      assert (wire + [m])[1..] == [];
    } else {
      assert (wire + [m])[1..] == wire[1..] + [m];
      IdsOfSent(wire[1..], m);
      Reassociate(RequestId(wire[0]), RequestIds(wire[1..]), RequestId(m));
      Reassociate(ResponseId(wire[0]), ResponseIds(wire[1..]), ResponseId(m));
    }
  }

  lemma {:induction false} IdOnWire(wire: seq<Message>, i: nat)
    requires i < |wire|
    ensures wire[i].Request? ==> wire[i].id in RequestIds(wire)
    ensures wire[i].ResponseTo? ==> wire[i].id in ResponseIds(wire)
  {
    if i > 0 {
      IdOnWire(wire[1..], i - 1);
    }
  }

  type Calls = map<Id, Payload>
  type Completions = seq<(Id, Reply)>

  function Completed(cs: Completions): set<Id> {
    set i | 0 <= i < |cs| :: cs[i].0
  }

  /** The calls made are those not yet recorded, those outstanding and those completed, each in one of these classes. */
  predicate Partitioned(lastId: Id, issued: Calls, drafts: Calls, outstandings: Calls, cs: Completions) {
    && issued.Keys == drafts.Keys + outstandings.Keys + Completed(cs)
    && drafts.Keys !! outstandings.Keys !! Completed(cs)
    && (forall i, j :: 0 <= i < j < |cs| ==> cs[i].0 != cs[j].0)
    && (forall id :: id in issued ==> id <= lastId)
    && (forall id :: id in drafts ==> drafts[id] == issued[id])
    && (forall id :: id in outstandings ==> outstandings[id] == issued[id])
  }

  /** The reply made by the peer for the request that this call carried. */
  predicate MadeFor(issued: Calls, produced: map<Id, (Payload, Reply)>, id: Id, r: Reply) {
    id in issued && id in produced && produced[id] == (issued[id], r)
  }

  predicate RequestsMatch(wire: seq<Message>, issued: Calls) {
    forall i :: 0 <= i < |wire| && wire[i].Request? ==> wire[i].id in issued && wire[i].payload == issued[wire[i].id]
  }

  predicate ServicesMatch(serving: Calls, issued: Calls) {
    forall id :: id in serving ==> id in issued && serving[id] == issued[id]
  }

  predicate RepliesMatch(wire: seq<Message>, issued: Calls, produced: map<Id, (Payload, Reply)>) {
    forall i :: 0 <= i < |wire| && wire[i].ResponseTo? ==> MadeFor(issued, produced, wire[i].id, wire[i].reply)
  }

  predicate CompletionsMatch(cs: Completions, issued: Calls, produced: map<Id, (Payload, Reply)>) {
    forall i :: 0 <= i < |cs| ==> MadeFor(issued, produced, cs[i].0, cs[i].1)
  }

  predicate Matched(caller: Endpoint, server: Endpoint) {
    && Partitioned(caller.lastId, caller.issued, caller.drafts, caller.outstandings, caller.completions)
    && RequestsMatch(caller.wire, caller.issued)
    && ServicesMatch(server.serving, caller.issued)
    && RepliesMatch(server.wire, caller.issued, server.produced)
    && CompletionsMatch(caller.completions, caller.issued, server.produced)
  }

  /** Each of these calls is in one place: with its caller, on the wire out, being served, on the wire back, or in hand. */
  predicate InOnePlace(calls: set<Id>, unsent: set<Id>, requests: multiset<Id>, serving: set<Id>, responses: multiset<Id>,
                       hand: multiset<Id>) {
    multiset(calls) == multiset(unsent) + requests + multiset(serving) + responses + hand
  }

  predicate Placed(caller: Endpoint, server: Endpoint, hand: multiset<Id>) {
    InOnePlace(caller.outstandings.Keys, caller.unsent, RequestIds(caller.wire), server.serving.Keys,
               ResponseIds(server.wire), hand)
  }

  /** Calls of caller to server: each outstanding one is in exactly one place, and replies are for their requests. */
  predicate Direction(caller: Endpoint, server: Endpoint) {
    Placed(caller, server, multiset{}) && Matched(caller, server)
  }

  predicate Inv(s: State) {
    Direction(s.left, s.right) && Direction(s.right, s.left)
  }

  // ---- every step keeps it ----

  // A call enters the tables, moves from place to place, and leaves.

  lemma CallEnters(calls: set<Id>, unsent: set<Id>, q: multiset<Id>, serving: set<Id>, p: multiset<Id>, id: Id)
    requires InOnePlace(calls, unsent, q, serving, p, multiset{}) && id !in calls
    ensures InOnePlace(calls + {id}, unsent + {id}, q, serving, p, multiset{})
  {
    assert id !in multiset(calls);
    assert id !in unsent by {
      assert id !in multiset(unsent);
    }
    assert multiset(calls + {id}) == multiset(calls) + multiset{id};
    assert multiset(unsent + {id}) == multiset(unsent) + multiset{id};
  }

  lemma CallSent(calls: set<Id>, unsent: set<Id>, q: multiset<Id>, serving: set<Id>, p: multiset<Id>, id: Id)
    requires InOnePlace(calls, unsent, q, serving, p, multiset{}) && id in unsent
    ensures InOnePlace(calls, unsent - {id}, q + multiset{id}, serving, p, multiset{})
  {
    assert multiset(unsent) == multiset(unsent - {id}) + multiset{id};
  }

  lemma CallLeavesService(calls: set<Id>, unsent: set<Id>, q: multiset<Id>, serving: set<Id>, p: multiset<Id>, id: Id)
    requires InOnePlace(calls, unsent, q, serving, p, multiset{}) && id in serving
    ensures InOnePlace(calls, unsent, q, serving - {id}, p, multiset{id})
  {
    assert multiset(serving) == multiset(serving - {id}) + multiset{id};
  }

  lemma CallEntersService(calls: set<Id>, unsent: set<Id>, q: multiset<Id>, serving: set<Id>, p: multiset<Id>, id: Id)
    requires InOnePlace(calls, unsent, q, serving, p, multiset{id})
    ensures InOnePlace(calls, unsent, q, serving + {id}, p, multiset{})
    ensures id in calls && id !in serving && id !in p
  {
    CallInHand(calls, unsent, q, serving, p, id);
    assert multiset(serving + {id}) == multiset(serving) + multiset{id};
  }

  lemma CallInHand(calls: set<Id>, unsent: set<Id>, q: multiset<Id>, serving: set<Id>, p: multiset<Id>, id: Id)
    requires InOnePlace(calls, unsent, q, serving, p, multiset{id})
    ensures id in calls && id !in serving && id !in p
  {
    assert id in multiset(calls);
    assert multiset(calls)[id] == 1;
    assert id !in multiset(serving);
  }

  lemma CallCompletes(calls: set<Id>, unsent: set<Id>, q: multiset<Id>, serving: set<Id>, p: multiset<Id>, id: Id)
    requires InOnePlace(calls, unsent, q, serving, multiset{id} + p, multiset{})
    ensures id in calls && InOnePlace(calls - {id}, unsent, q, serving, p, multiset{})
  {
    assert id in multiset(calls);
    var others := multiset(unsent) + q + multiset(serving) + p;
    assert multiset(calls) == others + multiset{id};
    assert multiset(calls - {id}) == multiset(calls) - multiset{id} == others;
  }

  // The books of one endpoint.

  lemma PartitionAllocated(e: Endpoint, p: Payload)
    requires Partitioned(e.lastId, e.issued, e.drafts, e.outstandings, e.completions)
    ensures var e' := Allocated(e, p);
            && Partitioned(e'.lastId, e'.issued, e'.drafts, e'.outstandings, e'.completions)
            && e.lastId + 1 !in e.issued
  {
    var e' := Allocated(e, p);
    assert e.lastId + 1 !in e.issued;
    assert e'.issued.Keys == e.issued.Keys + {e.lastId + 1};
    assert e'.drafts.Keys == e.drafts.Keys + {e.lastId + 1};
  }

  lemma PartitionRecorded(e: Endpoint, id: Id)
    requires Partitioned(e.lastId, e.issued, e.drafts, e.outstandings, e.completions) && id in e.drafts
    ensures Partitioned(e.lastId, e.issued, e.drafts - {id}, e.outstandings[id := e.drafts[id]], e.completions)
    ensures id !in e.outstandings
  {
    assert e.outstandings[id := e.drafts[id]].Keys == e.outstandings.Keys + {id};
    assert (e.drafts - {id}).Keys == e.drafts.Keys - {id};
  }

  lemma PartitionCompleted(e: Endpoint, id: Id, r: Reply)
    requires Partitioned(e.lastId, e.issued, e.drafts, e.outstandings, e.completions) && id in e.outstandings
    ensures Partitioned(e.lastId, e.issued, e.drafts, e.outstandings - {id}, e.completions + [(id, r)])
  {
    var cs, cs' := e.completions, e.completions + [(id, r)];
    assert cs'[|cs|] == (id, r) && forall i :: 0 <= i < |cs| ==> cs'[i] == cs[i];
    assert Completed(cs') == Completed(cs) + {id};
    forall i | 0 <= i < |cs| ensures cs[i].0 != id {
      assert cs[i].0 in Completed(cs);
    }
  }

  lemma OutstandingIsIssued(e: Endpoint, id: Id)
    requires Partitioned(e.lastId, e.issued, e.drafts, e.outstandings, e.completions) && id in e.outstandings
    ensures id in e.issued && e.outstandings[id] == e.issued[id]
    ensures forall i :: 0 <= i < |e.completions| ==> e.completions[i].0 != id
  {
    forall i | 0 <= i < |e.completions| ensures e.completions[i].0 != id {
      assert e.completions[i].0 in Completed(e.completions);
    }
  }

  // Matching, as calls are added and replies produced.

  lemma MatchedWithMoreCalls(caller: Endpoint, server: Endpoint, id: Id, p: Payload)
    requires id !in caller.issued && Matched(caller, server)
    ensures var issued := caller.issued[id := p];
            && RequestsMatch(caller.wire, issued) && ServicesMatch(server.serving, issued)
            && RepliesMatch(server.wire, issued, server.produced)
            && CompletionsMatch(caller.completions, issued, server.produced)
  {
  }

  lemma RepliesWithMoreProduced(wire: seq<Message>, issued: Calls, produced: map<Id, (Payload, Reply)>, id: Id, r: Reply)
    requires RepliesMatch(wire, issued, produced) && id in issued && id !in ResponseIds(wire)
    ensures RepliesMatch(wire + [ResponseTo(id, r)], issued, produced[id := (issued[id], r)])
  {
    forall i | 0 <= i < |wire| && wire[i].ResponseTo?
      ensures MadeFor(issued, produced[id := (issued[id], r)], wire[i].id, wire[i].reply)
    {
      IdOnWire(wire, i);
    }
  }

  lemma CompletionsWithMoreProduced(cs: Completions, issued: Calls, produced: map<Id, (Payload, Reply)>, id: Id, r: Reply)
    requires CompletionsMatch(cs, issued, produced) && id in issued
    requires forall i :: 0 <= i < |cs| ==> cs[i].0 != id
    ensures CompletionsMatch(cs, issued, produced[id := (issued[id], r)])
  {
  }

  // The steps.

  lemma AllocateKeeps(e: Endpoint, peer: Endpoint, p: Payload)
    requires Direction(e, peer)
    ensures Direction(Allocated(e, p), peer)
  {
    PartitionAllocated(e, p);
    MatchedWithMoreCalls(e, peer, e.lastId + 1, p);
  }

  lemma RecordKeeps(e: Endpoint, peer: Endpoint, id: Id)
    requires Direction(e, peer) && id in e.drafts
    ensures Direction(Recorded(e, id), peer)
  {
    PartitionRecorded(e, id);
    CallEnters(e.outstandings.Keys, e.unsent, RequestIds(e.wire), peer.serving.Keys, ResponseIds(peer.wire), id);
    assert Recorded(e, id).outstandings.Keys == e.outstandings.Keys + {id};
  }

  lemma SendKeeps(e: Endpoint, peer: Endpoint, id: Id)
    requires Direction(e, peer) && id in e.unsent && id in e.outstandings
    ensures Direction(Sent(e, id), peer)
  {
    OutstandingIsIssued(e, id);
    IdsOfSent(e.wire, Request(id, e.outstandings[id]));
    CallSent(e.outstandings.Keys, e.unsent, RequestIds(e.wire), peer.serving.Keys, ResponseIds(peer.wire), id);
  }

  /** A request on the way out does not concern the calls its sender serves. */
  lemma RequestKeepsServed(e: Endpoint, peer: Endpoint, m: Message)
    requires m.Request? && Direction(peer, e)
    ensures Direction(peer, e.(wire := e.wire + [m]))
  {
    IdsOfSent(e.wire, m);
    assert ResponseIds(e.wire + [m]) == ResponseIds(e.wire);
    assert RepliesMatch(e.wire + [m], peer.issued, e.produced);
  }

  /** A reply on the way out does not concern the calls its sender made. */
  lemma ReplyKeepsMade(e: Endpoint, peer: Endpoint, m: Message)
    requires m.ResponseTo? && Direction(e, peer)
    ensures Direction(e.(wire := e.wire + [m]), peer)
  {
    IdsOfSent(e.wire, m);
    assert RequestIds(e.wire + [m]) == RequestIds(e.wire);
    assert RequestsMatch(e.wire + [m], e.issued);
  }

  /** Everything that holds between caller and server, except that the call with this id is in nobody's hands. */
  predicate InHand(caller: Endpoint, server: Endpoint, id: Id) {
    Placed(caller, server, multiset{id}) && Matched(caller, server)
  }

  lemma AnswerKeeps(caller: Endpoint, server: Endpoint, id: Id, r: Reply)
    requires InHand(caller, server, id)
    ensures id in caller.issued
    ensures Direction(caller, Answered(server, id, caller.issued[id], r))
  {
    CallInHand(caller.outstandings.Keys, caller.unsent, RequestIds(caller.wire), server.serving.Keys,
               ResponseIds(server.wire), id);
    OutstandingIsIssued(caller, id);
    IdsOfSent(server.wire, ResponseTo(id, r));
    RepliesWithMoreProduced(server.wire, caller.issued, server.produced, id, r);
    CompletionsWithMoreProduced(caller.completions, caller.issued, server.produced, id, r);
  }

  lemma ServeKeeps(caller: Endpoint, server: Endpoint, id: Id)
    requires InHand(caller, server, id)
    ensures id in caller.issued
    ensures Direction(caller, server.(serving := server.serving[id := caller.issued[id]]))
  {
    CallEntersService(caller.outstandings.Keys, caller.unsent, RequestIds(caller.wire), server.serving.Keys,
                      ResponseIds(server.wire), id);
    OutstandingIsIssued(caller, id);
    assert server.serving[id := caller.issued[id]].Keys == server.serving.Keys + {id};
  }

  lemma FinishInHand(caller: Endpoint, server: Endpoint, id: Id)
    requires Direction(caller, server) && id in server.serving
    ensures InHand(caller, server.(serving := server.serving - {id}), id)
    ensures id in caller.issued && server.serving[id] == caller.issued[id]
  {
    CallLeavesService(caller.outstandings.Keys, caller.unsent, RequestIds(caller.wire), server.serving.Keys,
                      ResponseIds(server.wire), id);
    assert (server.serving - {id}).Keys == server.serving.Keys - {id};
  }

  lemma PopRequestInHand(caller: Endpoint, server: Endpoint)
    requires Direction(caller, server) && caller.wire != [] && caller.wire[0].Request?
    ensures InHand(caller.(wire := caller.wire[1..]), server, caller.wire[0].id)
    ensures caller.wire[0].id in caller.issued && caller.wire[0].payload == caller.issued[caller.wire[0].id]
  {
  }

  /** Losing a response from its wire does not concern an endpoint's own calls, nor losing a request its peer's. */
  lemma PopKeepsOwn(e: Endpoint, peer: Endpoint)
    requires e.wire != [] && Direction(e, peer) && !e.wire[0].Request?
    ensures Direction(e.(wire := e.wire[1..]), peer)
  {
    assert RequestIds(e.wire[1..]) == RequestIds(e.wire);
  }

  lemma PopKeepsPeers(e: Endpoint, peer: Endpoint)
    requires e.wire != [] && Direction(peer, e) && !e.wire[0].ResponseTo?
    ensures Direction(peer, e.(wire := e.wire[1..]))
  {
    assert ResponseIds(e.wire[1..]) == ResponseIds(e.wire);
  }

  /** A response reaches its caller: the call was outstanding, and is completed with the reply made for it. */
  lemma CompleteKeeps(caller: Endpoint, server: Endpoint, id: Id, r: Reply)
    requires Direction(caller, server) && server.wire != [] && server.wire[0] == ResponseTo(id, r)
    ensures id in caller.outstandings
    ensures Direction(caller.(outstandings := caller.outstandings - {id}, completions := caller.completions + [(id, r)]),
                      server.(wire := server.wire[1..]))
  {
    CallCompletes(caller.outstandings.Keys, caller.unsent, RequestIds(caller.wire), server.serving.Keys,
                  ResponseIds(server.wire[1..]), id);
    assert (caller.outstandings - {id}).Keys == caller.outstandings.Keys - {id};
    PartitionCompleted(caller, id, r);
    assert MadeFor(caller.issued, server.produced, id, r);
  }

  lemma ReceiveKeeps(e: Endpoint, peer: Endpoint, verdict: Verdict)
    requires Direction(e, peer) && Direction(peer, e) && peer.wire != []
    ensures var e', peer' := Received(e, peer.wire[0], verdict), peer.(wire := peer.wire[1..]);
            Direction(e', peer') && Direction(peer', e')
  {
    var m, peer' := peer.wire[0], peer.(wire := peer.wire[1..]);
    if m.Request? {
      PopRequestInHand(peer, e);
      PopKeepsPeers(peer, e);
      match verdict {
        case Refuse(code) =>
          AnswerKeeps(peer', e, m.id, Error(code));
          ReplyKeepsMade(e, peer', ResponseTo(m.id, Error(code)));
        case Dispatch =>
          ServeKeeps(peer', e, m.id);
      }
    } else if m.ResponseTo? {
      CompleteKeeps(e, peer, m.id, m.reply);
      PopKeepsOwn(peer, e);
    } else {
      PopKeepsPeers(peer, e);
      PopKeepsOwn(peer, e);
    }
  }

  lemma StepKeepsInv(s: State, step: Step)
    requires Inv(s) && Enabled(s, step)
    ensures Inv(After(s, step))
  {
    var e, peer := At(s, step.atLeft), At(s, !step.atLeft);
    match step
    case Allocate(_, p) => AllocateKeeps(e, peer, p);
    case Record(_, id) => RecordKeeps(e, peer, id);
    case Send(_, id) =>
      SendKeeps(e, peer, id);
      RequestKeepsServed(e, peer, Request(id, e.outstandings[id]));
    case Receive(_, verdict) => ReceiveKeeps(e, peer, verdict);
    case Finish(_, id, r) =>
      FinishInHand(peer, e, id);
      AnswerKeeps(peer, e.(serving := e.serving - {id}), id, r);
      ReplyKeepsMade(e.(serving := e.serving - {id}), peer, ResponseTo(id, r));
  }

  lemma {:induction false} RunKeepsInv(s: State, run: seq<Step>)
    requires Inv(s) && Legal(s, run)
    ensures Inv(Final(s, run))
    decreases run
  {
    if run != [] {
      StepKeepsInv(s, run[0]);
      RunKeepsInv(After(s, run[0]), run[1..]);
    }
  }

  // ---- for every run of the two channels ----

  const START: State := State(IDLE, IDLE)

  /** The calls that the steps of a run record at one end. */
  function RecordedIds(run: seq<Step>, left: bool): set<Id> {
    set i | 0 <= i < |run| && run[i].Record? && run[i].atLeft == left :: run[i].id
  }

  /** The responses that a run takes off the wire at one end, in order. */
  function Responses(s: State, run: seq<Step>, left: bool): seq<(Id, Reply)>
    requires Legal(s, run)
    decreases run
  {
    if run == [] then [] else ResponseIn(s, run[0], left) + Responses(After(s, run[0]), run[1..], left)
  }

  function ResponseIn(s: State, step: Step, left: bool): seq<(Id, Reply)>
    requires Enabled(s, step)
  {
    if step.Receive? && step.atLeft == left && At(s, !left).wire[0].ResponseTo?
    then [(At(s, !left).wire[0].id, At(s, !left).wire[0].reply)] else []
  }

  /** The call that a response at the front of the wire answers is outstanding. */
  predicate Expected(e: Endpoint, wire: seq<Message>) {
    wire != [] && wire[0].ResponseTo? ==> wire[0].id in e.outstandings
  }

  lemma ResponseExpected(s: State, left: bool)
    requires Inv(s)
    ensures Expected(At(s, left), At(s, !left).wire)
  {
    var e, peer := At(s, left), At(s, !left);
    if peer.wire != [] && peer.wire[0].ResponseTo? {
      CompleteKeeps(e, peer, peer.wire[0].id, peer.wire[0].reply);
    }
  }

  /** Every response that comes in completes a call, at once and with just that reply. */
  lemma StepCompletes(s: State, step: Step, left: bool)
    requires Expected(At(s, left), At(s, !left).wire) && Enabled(s, step)
    ensures At(After(s, step), left).completions == At(s, left).completions + ResponseIn(s, step, left)
  {
    assert At(s, left).completions + [] == At(s, left).completions;
  }

  lemma {:induction false} RunCompletes(s: State, run: seq<Step>, left: bool)
    requires Inv(s) && Legal(s, run)
    ensures At(Final(s, run), left).completions == At(s, left).completions + Responses(s, run, left)
    decreases run
  {
    if run == [] {
      assert At(s, left).completions + [] == At(s, left).completions;
    } else {
      StepKeepsInv(s, run[0]);
      ResponseExpected(s, left);
      StepCompletes(s, run[0], left);
      RunCompletes(After(s, run[0]), run[1..], left);
      JoinCompletions(At(s, left).completions, ResponseIn(s, run[0], left), Responses(After(s, run[0]), run[1..], left));
    }
  }

  lemma JoinCompletions(a: Completions, b: Completions, c: Completions)
    ensures a + b + c == a + (b + c)
  {
  }

  /** Calls past their Record step, answered or not. */
  function Opened(e: Endpoint): set<Id> {
    e.issued.Keys - e.drafts.Keys
  }

  predicate DraftsIssued(e: Endpoint) {
    e.drafts.Keys <= e.issued.Keys && e.lastId + 1 !in e.issued
  }

  lemma InvDrafts(s: State, left: bool)
    requires Inv(s)
    ensures DraftsIssued(At(s, left))
  {
    PartitionAllocated(At(s, left), 0);
  }

  lemma StepOpens(s: State, step: Step, left: bool)
    requires DraftsIssued(At(s, left)) && Enabled(s, step)
    ensures Opened(At(After(s, step), left)) ==
            Opened(At(s, left)) + if step.Record? && step.atLeft == left then {step.id} else {}
  {
    var e, e' := At(s, left), At(After(s, step), left);
    if step.atLeft == left {
      match step
      case Allocate(_, p) =>
        assert e'.issued.Keys == e.issued.Keys + {e.lastId + 1} && e'.drafts.Keys == e.drafts.Keys + {e.lastId + 1};
      case Record(_, id) =>
        assert e'.drafts.Keys == e.drafts.Keys - {id};
      case _ =>
    }
  }

  lemma {:induction false} RunOpens(s: State, run: seq<Step>, left: bool)
    requires Inv(s) && Legal(s, run)
    ensures Opened(At(Final(s, run), left)) == Opened(At(s, left)) + RecordedIds(run, left)
    decreases run
  {
    if run != [] {
      StepKeepsInv(s, run[0]);
      InvDrafts(s, left);
      StepOpens(s, run[0], left);
      RunOpens(After(s, run[0]), run[1..], left);
      FirstRecorded(run, left);
    }
  }

  lemma FirstRecorded(run: seq<Step>, left: bool)
    requires run != []
    ensures RecordedIds(run, left) ==
            (if run[0].Record? && run[0].atLeft == left then {run[0].id} else {}) + RecordedIds(run[1..], left)
  {
    forall id | id in RecordedIds(run[1..], left) ensures id in RecordedIds(run, left) {
      var i :| 0 <= i < |run[1..]| && run[1..][i].Record? && run[1..][i].atLeft == left && run[1..][i].id == id;
      assert run[i + 1] == run[1..][i];
    }
    forall id | id in RecordedIds(run, left)
      ensures (run[0].Record? && run[0].atLeft == left && id == run[0].id) || id in RecordedIds(run[1..], left)
    {
      var i :| 0 <= i < |run| && run[i].Record? && run[i].atLeft == left && run[i].id == id;
      if i > 0 {
        assert run[1..][i - 1] == run[i];
      }
    }
  }

  /** The ids outstanding are exactly those recorded and not yet answered; no call is answered twice. */
  lemma OutstandingIsUnanswered(run: seq<Step>, left: bool)
    requires Legal(START, run)
    ensures var e, answered := At(Final(START, run), left), Responses(START, run, left);
            && e.outstandings.Keys == RecordedIds(run, left) - Completed(answered)
            && e.completions == answered
            && forall i, j :: 0 <= i < j < |answered| ==> answered[i].0 != answered[j].0
  {
    CompletionsByRun(run, left);
    OpenedByRun(run, left);
    OutstandingIsRest(run, left);
  }

  lemma CompletionsByRun(run: seq<Step>, left: bool)
    requires Legal(START, run)
    ensures At(Final(START, run), left).completions == Responses(START, run, left)
  {
    RunCompletes(START, run, left);
    assert [] + Responses(START, run, left) == Responses(START, run, left);
  }

  lemma OpenedByRun(run: seq<Step>, left: bool)
    requires Legal(START, run)
    ensures Opened(At(Final(START, run), left)) == RecordedIds(run, left)
  {
    RunOpens(START, run, left);
    assert Opened(At(START, left)) == {};
  }

  lemma OutstandingIsRest(run: seq<Step>, left: bool)
    requires Legal(START, run)
    ensures var e := At(Final(START, run), left);
            && e.outstandings.Keys == Opened(e) - Completed(e.completions)
            && forall i, j :: 0 <= i < j < |e.completions| ==> e.completions[i].0 != e.completions[j].0
  {
    RunKeepsInv(START, run);
  }

  /** The payloads of the calls that the steps of a run make at one end. */
  function Made(run: seq<Step>, left: bool): seq<Payload> {
    if run == [] then []
    else (if run[0].Allocate? && run[0].atLeft == left then [run[0].payload] else []) + Made(run[1..], left)
  }

  /** A request answered at one end: its id, what it asked, and the answer. */
  datatype Answer = Answer(id: Id, payload: Payload, reply: Reply)

  /** What a step answers at one end: a service finishes, or a request off the wire is refused. */
  function AnswersOf(s: State, step: Step, left: bool): seq<Answer>
    requires Enabled(s, step)
  {
    if step.atLeft != left then []
    else if step.Finish? then [Answer(step.id, At(s, left).serving[step.id], step.reply)]
    else if step.Receive? && At(s, !left).wire[0].Request? && step.verdict.Refuse? then
      [Answer(At(s, !left).wire[0].id, At(s, !left).wire[0].payload, Error(step.verdict.code))]
    else []
  }

  function Answers(s: State, run: seq<Step>, left: bool): seq<Answer>
    requires Legal(s, run)
    decreases run
  {
    if run == [] then [] else AnswersOf(s, run[0], left) + Answers(After(s, run[0]), run[1..], left)
  }

  /** Every reply on record at this end is one of these answers. */
  predicate OnRecord(produced: map<Id, (Payload, Reply)>, answers: seq<Answer>) {
    forall id :: id in produced ==> Answer(id, produced[id].0, produced[id].1) in answers
  }

  lemma StepRecorded(s: State, step: Step, left: bool, seen: seq<Answer>)
    requires Enabled(s, step) && OnRecord(At(s, left).produced, seen)
    ensures OnRecord(At(After(s, step), left).produced, seen + AnswersOf(s, step, left))
  {
  }

  lemma {:induction false} RunRecorded(s: State, run: seq<Step>, left: bool, seen: seq<Answer>)
    requires Legal(s, run) && OnRecord(At(s, left).produced, seen)
    ensures OnRecord(At(Final(s, run), left).produced, seen + Answers(s, run, left))
    decreases run
  {
    if run == [] {
      assert seen + [] == seen;
    } else {
      StepRecorded(s, run[0], left, seen);
      RunRecorded(After(s, run[0]), run[1..], left, seen + AnswersOf(s, run[0], left));
      assert seen + AnswersOf(s, run[0], left) + Answers(After(s, run[0]), run[1..], left) == seen + Answers(s, run, left);
    }
  }

  /** Ids are given out in order, and each stands for the payload of the call that got it. */
  ghost predicate IssuedAre(e: Endpoint, made: seq<Payload>) {
    && e.lastId == |made|
    && (forall id :: id in e.issued <==> 1 <= id <= |made|)
    && (forall id :: 1 <= id <= |made| && id in e.issued ==> e.issued[id] == made[id - 1])
  }

  lemma StepIssued(s: State, step: Step, left: bool, made: seq<Payload>)
    requires Enabled(s, step) && IssuedAre(At(s, left), made)
    ensures IssuedAre(At(After(s, step), left), made + Made([step], left))
  {
    assert Made([step][1..], left) == [];
    assert made + [] == made;
  }

  lemma {:induction false} RunIssued(s: State, run: seq<Step>, left: bool, made: seq<Payload>)
    requires Legal(s, run) && IssuedAre(At(s, left), made)
    ensures IssuedAre(At(Final(s, run), left), made + Made(run, left))
    decreases run
  {
    if run == [] {
      assert made + [] == made;
    } else {
      StepIssued(s, run[0], left, made);
      RunIssued(After(s, run[0]), run[1..], left, made + Made([run[0]], left));
      assert Made([run[0]][1..], left) == [];
      assert made + Made([run[0]], left) + Made(run[1..], left) == made + Made(run, left);
    }
  }

  /**
   Every completed call got the reply to its own request: the id-th call of the run at this end asked something, the
   peer was asked just that under this id, and answered what the call completed with.
   */
  lemma CompletedWithOwnReply(run: seq<Step>, left: bool, i: nat)
    requires Legal(START, run) && i < |At(Final(START, run), left).completions|
    ensures var (id, r) := At(Final(START, run), left).completions[i];
            1 <= id <= |Made(run, left)| && Answer(id, Made(run, left)[id - 1], r) in Answers(START, run, !left)
  {
    CompletionMatched(run, left, i);
    IssuedByRun(run, left);
    OnRecordByRun(run, !left);
    var e, peer := At(Final(START, run), left), At(Final(START, run), !left);
    OwnAnswer(e, peer.produced, Made(run, left), Answers(START, run, !left), e.completions[i].0, e.completions[i].1);
  }

  lemma CompletionMatched(run: seq<Step>, left: bool, i: nat)
    requires Legal(START, run) && i < |At(Final(START, run), left).completions|
    ensures var e, peer := At(Final(START, run), left), At(Final(START, run), !left);
            MadeFor(e.issued, peer.produced, e.completions[i].0, e.completions[i].1)
  {
    RunKeepsInv(START, run);
  }

  lemma IssuedByRun(run: seq<Step>, left: bool)
    requires Legal(START, run)
    ensures IssuedAre(At(Final(START, run), left), Made(run, left))
  {
    RunIssued(START, run, left, []);
    assert [] + Made(run, left) == Made(run, left);
  }

  lemma OnRecordByRun(run: seq<Step>, left: bool)
    requires Legal(START, run)
    ensures OnRecord(At(Final(START, run), left).produced, Answers(START, run, left))
  {
    RunRecorded(START, run, left, []);
    assert [] + Answers(START, run, left) == Answers(START, run, left);
  }

  lemma OwnAnswer(e: Endpoint, produced: map<Id, (Payload, Reply)>, made: seq<Payload>, answers: seq<Answer>, id: Id, r: Reply)
    requires MadeFor(e.issued, produced, id, r) && IssuedAre(e, made) && OnRecord(produced, answers)
    ensures 1 <= id <= |made| && Answer(id, made[id - 1], r) in answers
  {
  }

  /** A call that is outstanding is never forgotten: its caller, a wire or a service still has it. */
  lemma OutstandingIsSomewhere(run: seq<Step>, left: bool, id: Id)
    requires Legal(START, run) && id in At(Final(START, run), left).outstandings
    ensures var e, peer := At(Final(START, run), left), At(Final(START, run), !left);
            id in e.unsent || id in RequestIds(e.wire) || id in peer.serving || id in ResponseIds(peer.wire)
  {
    RunKeepsInv(START, run);
    var e := At(Final(START, run), left);
    assert id in multiset(e.outstandings.Keys);
  }

  // ---- the class ----

  /** The methods on the source's fields; `sent` is what codec_.send has put on the wire. */
  class RpcChannel {
    var lastId: Id
    var outstandings: map<Id, Payload>
    var sent: seq<Message>
    ghost var past: Endpoint   // the threads, the services and the history

    ghost function View(): Endpoint
      reads this
    {
      past.(lastId := lastId, outstandings := outstandings, wire := sent)
    }

    constructor ()
      ensures View() == IDLE
    {
      lastId, outstandings, sent, past := 0, map[], [], IDLE;
    }

    /** CallMethod, its three steps together. */
    method CallMethod(p: Payload) returns (id: Id)
      modifies this
      ensures id == old(lastId) + 1 && View() == Sent(Recorded(Allocated(old(View()), p), id), id)
    {
      ghost var drafted := Allocated(View(), p);
      id := lastId + 1;
      lastId := id;
      past := Recorded(drafted, id);
      outstandings := outstandings[id := p];
      past := past.(unsent := past.unsent - {id});
      sent := sent + [Request(id, p)];
    }

    /** onRpcMessage: a response completes its call if that is outstanding; a request is answered or dispatched. */
    method OnRpcMessage(m: Message, verdict: Verdict) returns (completed: Option<(Payload, Reply)>)
      modifies this
      ensures View() == Received(old(View()), m, verdict)
      ensures completed == if m.ResponseTo? && m.id in old(outstandings) then Some((old(outstandings)[m.id], m.reply)) else None
    {
      completed := None;
      if m.ResponseTo? {
        if m.id in outstandings {
          completed := Some((outstandings[m.id], m.reply));
          outstandings := outstandings - {m.id};
          past := past.(completions := past.completions + [(m.id, m.reply)]);
        }
      } else if m.Request? {
        match verdict {
          case Refuse(code) =>
            sent := sent + [ResponseTo(m.id, Error(code))];
            past := past.(produced := past.produced[m.id := (m.payload, Error(code))]);
          case Dispatch =>
            past := past.(serving := past.serving[m.id := m.payload]);
        }
      }
    }

    method DoneCallback(id: Id, r: Reply)
      requires id in past.serving
      modifies this
      ensures View() == Finished(old(View()), id, r)
    {
      sent := sent + [ResponseTo(id, r)];
      past := past.(produced := past.produced[id := (past.serving[id], r)], serving := past.serving - {id});
    }
  }
}
