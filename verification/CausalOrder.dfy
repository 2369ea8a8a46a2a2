/** Causal delivery and progress over every run of the vector-clock broadcast. */
module CausalOrder {
  import opened CausalBroadcast

  // ---------------------------------------------------------------- state machine

  /** Where a node's receive loop is: `Commit` lies between the readiness test and the delivery. */
  datatype Phase =
    | Idle
    | Commit(msg: Message, todo: seq<Message>)
    | Scan(todo: seq<Message>)
    | Stopped

  /** `arrived` records every message the loop has taken from the inbox. */
  datatype NodeState = NodeState(box: Inbox, phase: Phase, arrived: set<Message>)

  /** What happened, in order, with the node's clock after the event. */
  datatype Event =
    | Sent(node: NodeId, msg: Message, clock: Clock)
    | Delivered(node: NodeId, msg: Message, clock: Clock)

  datatype State = State(nodes: map<NodeId, NodeState>, log: seq<Event>)

  function OnArrive(ns: NodeState, m: Message): NodeState {
    var ns := ns.(arrived := ns.arrived + {m});
    if m.content == "STOP" then ns.(phase := Stopped)
    else if Ready(m, ns.box.vc) then ns.(box := ns.box.(pending := []), phase := Commit(m, ns.box.pending))
    else ns.(box := ns.box.(pending := ns.box.pending + [m]))
  }

  predicate Busy(ns: NodeState) {
    ns.phase.Commit? || ns.phase.Scan?
  }

  /** The loop's next section: deliver what was found ready, or test the next pending message. */
  function OnTurn(ns: NodeState): NodeState
    requires Busy(ns)
  {
    match ns.phase
    case Commit(m, todo) => ns.(box := Deliver(ns.box, m), phase := Scan(todo))
    case Scan(todo) =>
      if todo == [] then ns.(phase := Idle)
      else if Ready(todo[0], ns.box.vc) then ns.(phase := Commit(todo[0], todo[1..]))
      else ns.(box := ns.box.(pending := ns.box.pending + [todo[0]]), phase := Scan(todo[1..]))
  }

  predicate Init(s: State) {
    && s.log == []
    && forall n :: n in s.nodes ==>
         && s.nodes[n].phase == Idle && s.nodes[n].arrived == {}
         && s.nodes[n].box.pending == [] && s.nodes[n].box.delivered == []
         && forall k :: k in s.nodes[n].box.vc ==> s.nodes[n].box.vc[k] == 0
  }

  predicate WasSent(log: seq<Event>, upto: nat, m: Message) {
    exists i :: 0 <= i < upto && i < |log| && log[i].Sent? && log[i].msg == m
  }

  predicate SendStep(s: State, s': State, n: NodeId, content: string) {
    && n in s.nodes
    && var vc := Bump(s.nodes[n].box.vc, n);
    && s' == State(s.nodes[n := s.nodes[n].(box := s.nodes[n].box.(vc := vc))],
                   s.log + [Sent(n, Message(n, content, vc), vc)])
  }

  /** The network hands over any message sent earlier by another node, however often. */
  predicate ArriveStep(s: State, s': State, n: NodeId, m: Message) {
    && n in s.nodes && s.nodes[n].phase == Idle
    && m.sender != n && WasSent(s.log, |s.log|, m)
    && s' == s.(nodes := s.nodes[n := OnArrive(s.nodes[n], m)])
  }

  predicate TurnStep(s: State, s': State, n: NodeId) {
    && n in s.nodes && Busy(s.nodes[n])
    && var ns := OnTurn(s.nodes[n]);
    && s' == State(s.nodes[n := ns],
                   if s.nodes[n].phase.Commit?
                   then s.log + [Delivered(n, s.nodes[n].phase.msg, ns.box.vc)]
                   else s.log)
  }

  ghost predicate Next(s: State, s': State) {
    || (exists n, content :: SendStep(s, s', n, content))
    || (exists n, m :: ArriveStep(s, s', n, m))
    || (exists n :: TurnStep(s, s', n))
  }

  ghost predicate IsRun(run: seq<State>) {
    && |run| > 0
    && Init(run[0])
    && forall i :: 0 < i < |run| ==> Next(run[i - 1], run[i])
  }

  // ---------------------------------------------------------------- the code takes these steps

  /** All sections of the loop after a message was taken, with no send in between. */
  function Drain(ns: NodeState): NodeState
    decreases Remaining(ns.phase)
  {
    if Busy(ns) then Drain(OnTurn(ns)) else ns
  }

  function Remaining(p: Phase): nat {
    match p
    case Commit(_, todo) => 2 * |todo| + 2
    case Scan(todo) => 2 * |todo| + 1
    case _ => 0
  }

  lemma {:induction false} DrainIsRescan(ns: NodeState)
    requires ns.phase.Scan?
    ensures Drain(ns) == ns.(box := Rescan(ns.box, ns.phase.todo), phase := Idle)
    decreases |ns.phase.todo|
  {
    var todo := ns.phase.todo;
    if todo != [] {
      var ns' := OnTurn(ns);
      if Ready(todo[0], ns.box.vc) {
        assert Drain(ns) == Drain(ns') == Drain(OnTurn(ns'));
        DrainIsRescan(OnTurn(ns'));
      } else {
        assert Drain(ns) == Drain(ns');
        DrainIsRescan(ns');
      }
    } else {
      assert Drain(ns) == Drain(OnTurn(ns)) == OnTurn(ns);
    }
  }

  /** A turn of the receive loop is exactly a sequence of machine steps at that node. */
  lemma LoopTakesMachineSteps(ns: NodeState, m: Message)
    requires ns.phase == Idle && m.content != "STOP"
    ensures Drain(OnArrive(ns, m)).phase == Idle
    ensures Drain(OnArrive(ns, m)).box == Received(ns.box, m)
  {
    if Ready(m, ns.box.vc) {
      assert Drain(OnArrive(ns, m)) == Drain(OnTurn(OnArrive(ns, m)));
      DrainIsRescan(OnTurn(OnArrive(ns, m)));
    }
  }

  // ---------------------------------------------------------------- happened-before

  /** Direct causality: later on the same node, or the delivery of what was sent. */
  predicate Causes(log: seq<Event>, i: int, j: int) {
    && 0 <= i < j < |log|
    && (log[i].node == log[j].node || (log[i].Sent? && log[j].Delivered? && log[i].msg == log[j].msg))
  }

  predicate IsChain(log: seq<Event>, p: seq<int>) {
    |p| > 1 && forall x :: 0 < x < |p| ==> Causes(log, p[x - 1], p[x])
  }

  ghost predicate HappenedBefore(log: seq<Event>, i: int, j: int) {
    exists p :: IsChain(log, p) && p[0] == i && p[|p| - 1] == j
  }

  // ---------------------------------------------------------------- invariant of clocks and log

  type Clocks = map<NodeId, Clock>

  function Vc(vcs: Clocks, n: NodeId): Clock {
    if n in vcs then vcs[n] else map[]
  }

  /** Has `n` delivered message number `c` of sender `k` among the first `upto` events? */
  predicate Has(log: seq<Event>, upto: nat, n: NodeId, k: NodeId, c: nat) {
    exists j :: 0 <= j < upto && j < |log| && IsDelivery(log[j], n, k, c)
  }

  predicate IsDelivery(e: Event, n: NodeId, k: NodeId, c: nat) {
    e.Delivered? && e.node == n && e.msg.sender == k && e.msg.Number() == c
  }

  predicate SentNumber(log: seq<Event>, k: NodeId, c: nat) {
    exists i :: 0 <= i < |log| && IsSend(log[i], k, c)
  }

  predicate IsSend(e: Event, k: NodeId, c: nat) {
    e.Sent? && e.node == k && e.msg.Number() == c
  }

  ghost predicate ClocksGrow(vcs: Clocks, log: seq<Event>) {
    && (forall i, j :: 0 <= i < j < |log| && log[i].node == log[j].node ==> Leq(log[i].clock, log[j].clock))
    && (forall i :: 0 <= i < |log| ==> Leq(log[i].clock, Vc(vcs, log[i].node)))
  }

  /** Sends carry the sender's clock; deliveries are of messages other nodes sent before. */
  ghost predicate WellFormed(log: seq<Event>, i: nat)
    requires i < |log|
  {
    var e := log[i];
    if e.Sent? then e.msg.sender == e.node && e.msg.vc == e.clock && e.msg.Number() >= 1
    else e.msg.sender != e.node && Leq(e.msg.vc, e.clock) && WasSent(log, i, e.msg)
  }

  ghost predicate AllWellFormed(log: seq<Event>) {
    forall i :: 0 <= i < |log| ==> WellFormed(log, i)
  }

  /** A node's messages are numbered 1, 2, 3, ... in the order it sends them. */
  ghost predicate Increasing(log: seq<Event>) {
    forall i, j :: 0 <= i < j < |log| && log[i].Sent? && log[j].Sent? && log[i].node == log[j].node ==>
      log[i].msg.Number() < log[j].msg.Number()
  }

  ghost predicate Gapless(vcs: Clocks, log: seq<Event>) {
    forall k, c: nat :: 1 <= c <= At(Vc(vcs, k), k) ==> SentNumber(log, k, c)
  }

  /** Nobody knows of more messages from `k` than `k` has sent. */
  ghost predicate KnowledgeBounded(vcs: Clocks) {
    forall n, k :: At(Vc(vcs, n), k) <= At(Vc(vcs, k), k)
  }

  ghost predicate Counted(vcs: Clocks, log: seq<Event>) {
    forall n, k, c: nat :: k != n && c >= 1 ==> (c <= At(Vc(vcs, n), k) <==> Has(log, |log|, n, k, c))
  }

  /** Everything event `j`'s message counts had been delivered before it. */
  ghost predicate Closed(log: seq<Event>, j: nat)
    requires j < |log|
  {
    var e := log[j];
    e.Delivered? ==>
      forall k, c: nat :: k != e.node && 1 <= c <= At(e.msg.vc, k) && (k != e.msg.sender || c < e.msg.Number()) ==>
        Has(log, j, e.node, k, c)
  }

  ghost predicate AllClosed(log: seq<Event>) {
    forall j :: 0 <= j < |log| ==> Closed(log, j)
  }

  ghost predicate DeliveredOnce(log: seq<Event>) {
    forall i, j :: 0 <= i < j < |log| && log[i].Delivered? && log[j].Delivered? && log[i].node == log[j].node ==>
      log[i].msg.sender != log[j].msg.sender || log[i].msg.Number() != log[j].msg.Number()
  }

  /** A message that counts another message was not sent before it. */
  ghost predicate KnownWasSent(log: seq<Event>) {
    forall i, j :: 0 <= i < |log| && 0 <= j < |log| && log[i].Sent? && Counts(log[i].msg, log[j]) ==> j <= i
  }

  predicate Counts(m: Message, e: Event) {
    e.Sent? && e.msg.Number() <= At(m.vc, e.node)
  }

  ghost predicate History(vcs: Clocks, log: seq<Event>) {
    && ClocksGrow(vcs, log) && AllWellFormed(log) && Increasing(log) && Gapless(vcs, log) && KnowledgeBounded(vcs)
    && Counted(vcs, log) && AllClosed(log) && DeliveredOnce(log) && KnownWasSent(log)
  }

  // ---------------------------------------------------------------- what an event does to it

  /** Both kinds of event raise one entry of the node's clock by one: the message's sender. */
  ghost predicate Raises(a: Clock, b: Clock, k: NodeId) {
    forall j :: At(b, j) == if j == k then At(a, j) + 1 else At(a, j)
  }

  ghost predicate Happens(vcs: Clocks, log: seq<Event>, e: Event) {
    && Raises(Vc(vcs, e.node), e.clock, e.msg.sender)
    && (e.Sent? ==> e.msg.sender == e.node && e.msg.vc == e.clock)
    && (e.Delivered? ==>
          e.msg.sender != e.node && WasSent(log, |log|, e.msg) && Ready(e.msg, Vc(vcs, e.node)))
  }

  /** Merging a ready message only counts that message. */
  lemma MergeReady(vc: Clock, m: Message)
    requires Ready(m, vc)
    ensures Raises(vc, Merge(vc, m.vc), m.sender)
  {
    forall k
      ensures At(Merge(vc, m.vc), k) == if k == m.sender then At(vc, k) + 1 else At(vc, k)
    {
      assert k in m.vc && k != m.sender ==> m.vc[k] <= At(vc, k);
    }
  }

  lemma ClockOfSender(vcs: Clocks, log: seq<Event>, m: Message)
    requires WasSent(log, |log|, m) && AllWellFormed(log) && ClocksGrow(vcs, log)
    ensures Leq(m.vc, Vc(vcs, m.sender))
  {
    var i :| 0 <= i < |log| && log[i].Sent? && log[i].msg == m;
    assert WellFormed(log, i);
  }

  lemma KeepsClocksGrow(vcs: Clocks, log: seq<Event>, e: Event)
    requires ClocksGrow(vcs, log) && Happens(vcs, log, e)
    ensures ClocksGrow(vcs[e.node := e.clock], log + [e])
  {
    var vcs', log' := vcs[e.node := e.clock], log + [e];
    forall i | 0 <= i < |log|
      ensures Leq(log[i].clock, Vc(vcs', log[i].node))
    {
      assert Leq(log[i].clock, Vc(vcs, log[i].node));
    }
  }

  lemma WasSentGrows(log: seq<Event>, e: Event, upto: nat, m: Message)
    requires upto <= |log|
    ensures WasSent(log, upto, m) ==> WasSent(log + [e], upto, m) && WasSent(log + [e], |log| + 1, m)
  {
    if i :| 0 <= i < upto && log[i].Sent? && log[i].msg == m {
      assert (log + [e])[i] == log[i];
    }
  }

  lemma KeepsWellFormed(vcs: Clocks, log: seq<Event>, e: Event)
    requires AllWellFormed(log) && Happens(vcs, log, e)
    ensures AllWellFormed(log + [e])
  {
    var log' := log + [e];
    forall i | 0 <= i < |log'|
      ensures WellFormed(log', i)
    {
      if i < |log| {
        assert log'[i] == log[i] && WellFormed(log, i);
        WasSentGrows(log, e, i, log[i].msg);
      } else {
        WasSentGrows(log, e, |log|, e.msg);
        if e.Delivered? {
          assert forall k :: k in e.msg.vc && k != e.msg.sender ==> e.msg.vc[k] <= At(Vc(vcs, e.node), k);
        }
      }
    }
  }

  lemma KeepsIncreasing(vcs: Clocks, log: seq<Event>, e: Event)
    requires Increasing(log) && ClocksGrow(vcs, log) && AllWellFormed(log) && Happens(vcs, log, e)
    ensures Increasing(log + [e])
  {
    forall i | 0 <= i < |log| && log[i].Sent? && e.Sent? && log[i].node == e.node
      ensures log[i].msg.Number() < e.msg.Number()
    {
      assert WellFormed(log, i) && Leq(log[i].clock, Vc(vcs, e.node));
    }
  }

  lemma KeepsGapless(vcs: Clocks, log: seq<Event>, e: Event)
    requires Gapless(vcs, log) && Happens(vcs, log, e)
    ensures Gapless(vcs[e.node := e.clock], log + [e])
  {
    var vcs', log' := vcs[e.node := e.clock], log + [e];
    forall k, c: nat | 1 <= c <= At(Vc(vcs', k), k)
      ensures SentNumber(log', k, c)
    {
      if c <= At(Vc(vcs, k), k) {
        assert SentNumber(log, k, c);
        var i :| 0 <= i < |log| && IsSend(log[i], k, c);
        assert log'[i] == log[i];
      } else {
        assert log'[|log|] == e && IsSend(e, k, c);
      }
    }
  }

  lemma KeepsBounded(vcs: Clocks, log: seq<Event>, e: Event)
    requires KnowledgeBounded(vcs) && ClocksGrow(vcs, log) && AllWellFormed(log) && Happens(vcs, log, e)
    ensures KnowledgeBounded(vcs[e.node := e.clock])
  {
    var vcs' := vcs[e.node := e.clock];
    if e.Delivered? {
      ClockOfSender(vcs, log, e.msg);
    }
    forall n, k
      ensures At(Vc(vcs', n), k) <= At(Vc(vcs', k), k)
    {
      assert At(Vc(vcs, n), k) <= At(Vc(vcs, k), k) <= At(Vc(vcs', k), k);
    }
  }

  lemma HasGrows(log: seq<Event>, e: Event, upto: nat, n: NodeId, k: NodeId, c: nat)
    requires upto <= |log|
    ensures Has(log, upto, n, k, c) ==> Has(log + [e], upto, n, k, c)
    ensures Has(log + [e], |log| + 1, n, k, c) <==> Has(log, |log|, n, k, c) || IsDelivery(e, n, k, c)
  {
    var log' := log + [e];
    assert log'[|log|] == e;
    if j :| 0 <= j < upto && IsDelivery(log[j], n, k, c) {
      assert log'[j] == log[j];
    }
    if j :| 0 <= j < |log| && IsDelivery(log[j], n, k, c) {
      assert log'[j] == log[j];
    }
  }

  lemma KeepsCounted(vcs: Clocks, log: seq<Event>, e: Event)
    requires Counted(vcs, log) && Happens(vcs, log, e)
    ensures Counted(vcs[e.node := e.clock], log + [e])
  {
    var vcs', log' := vcs[e.node := e.clock], log + [e];
    forall n, k, c: nat | k != n && c >= 1
      ensures c <= At(Vc(vcs', n), k) <==> Has(log', |log'|, n, k, c)
    {
      HasGrows(log, e, |log|, n, k, c);
      assert c <= At(Vc(vcs, n), k) <==> Has(log, |log|, n, k, c);
    }
  }

  lemma KeepsClosed(vcs: Clocks, log: seq<Event>, e: Event)
    requires AllClosed(log) && Counted(vcs, log) && Happens(vcs, log, e)
    ensures AllClosed(log + [e])
  {
    var log' := log + [e];
    forall j | 0 <= j < |log'|
      ensures Closed(log', j)
    {
      var d := log'[j];
      if d.Delivered? {
        forall k, c: nat | k != d.node && 1 <= c <= At(d.msg.vc, k) && (k != d.msg.sender || c < d.msg.Number())
          ensures Has(log', j, d.node, k, c)
        {
          HasGrows(log, e, if j < |log| then j else |log|, d.node, k, c);
          if j < |log| {
            assert d == log[j] && Closed(log, j);
          } else {
            assert k in d.msg.vc;
            assert c <= At(Vc(vcs, d.node), k);
          }
        }
      }
    }
  }

  lemma KeepsDeliveredOnce(vcs: Clocks, log: seq<Event>, e: Event)
    requires DeliveredOnce(log) && Counted(vcs, log) && Happens(vcs, log, e)
    ensures DeliveredOnce(log + [e])
  {
    if e.Delivered? {
      assert !Has(log, |log|, e.node, e.msg.sender, e.msg.Number());
      assert forall i :: 0 <= i < |log| ==> !IsDelivery(log[i], e.node, e.msg.sender, e.msg.Number());
    }
  }

  lemma KeepsKnownWasSent(vcs: Clocks, log: seq<Event>, e: Event)
    requires KnownWasSent(log) && KnowledgeBounded(vcs) && ClocksGrow(vcs, log) && AllWellFormed(log)
    requires Happens(vcs, log, e)
    ensures KnownWasSent(log + [e])
  {
    forall i | 0 <= i < |log| && log[i].Sent? && e.Sent?
      ensures !Counts(log[i].msg, e)
    {
      assert WellFormed(log, i) && Leq(log[i].clock, Vc(vcs, log[i].node));
      assert At(log[i].msg.vc, e.node) <= At(Vc(vcs, log[i].node), e.node) <= At(Vc(vcs, e.node), e.node);
    }
  }

  lemma EventKeepsHistory(vcs: Clocks, log: seq<Event>, e: Event)
    requires History(vcs, log) && Happens(vcs, log, e)
    ensures History(vcs[e.node := e.clock], log + [e])
  {
    KeepsClocksGrow(vcs, log, e);
    KeepsWellFormed(vcs, log, e);
    KeepsIncreasing(vcs, log, e);
    KeepsGapless(vcs, log, e);
    KeepsBounded(vcs, log, e);
    KeepsCounted(vcs, log, e);
    KeepsClosed(vcs, log, e);
    KeepsDeliveredOnce(vcs, log, e);
    KeepsKnownWasSent(vcs, log, e);
  }

  // ---------------------------------------------------------------- invariant of the loops

  function ClocksOf(s: State): Clocks {
    map n | n in s.nodes :: s.nodes[n].box.vc
  }

  function Todo(p: Phase): seq<Message> {
    match p
    case Commit(m, todo) => [m] + todo
    case Scan(todo) => todo
    case _ => []
  }

  predicate Foreign(log: seq<Event>, n: NodeId, ms: seq<Message>) {
    forall x :: 0 <= x < |ms| ==> ms[x].sender != n && WasSent(log, |log|, ms[x])
  }

  function DeliveredAt(log: seq<Event>, n: NodeId): seq<Message> {
    if log == [] then []
    else
      var e := log[|log| - 1];
      DeliveredAt(log[..|log| - 1], n) + if e.Delivered? && e.node == n then [e.msg] else []
  }

  /** What a node took from its inbox is delivered or still waits there. */
  ghost predicate NothingLost(ns: NodeState) {
    forall m :: m in ns.arrived && m.content != "STOP" ==>
      m in ns.box.delivered || m in ns.box.pending || m in Todo(ns.phase)
  }

  ghost predicate LoopInv(ns: NodeState, n: NodeId, log: seq<Event>) {
    && Foreign(log, n, ns.box.pending)
    && Foreign(log, n, Todo(ns.phase))
    && (ns.phase.Commit? ==> Ready(ns.phase.msg, ns.box.vc))
    && ns.box.delivered == DeliveredAt(log, n)
    && NothingLost(ns)
  }

  ghost predicate Inv(s: State) {
    && History(ClocksOf(s), s.log)
    && forall n :: n in s.nodes ==> LoopInv(s.nodes[n], n, s.log)
  }

  lemma ForeignGrows(log: seq<Event>, e: Event, n: NodeId, ms: seq<Message>)
    requires Foreign(log, n, ms)
    ensures Foreign(log + [e], n, ms)
  {
    forall x | 0 <= x < |ms|
      ensures WasSent(log + [e], |log| + 1, ms[x])
    {
      WasSentGrows(log, e, |log|, ms[x]);
    }
  }

  /** An event elsewhere, or a send here, leaves a node's loop as sound as it was. */
  lemma LoopGrows(ns: NodeState, n: NodeId, log: seq<Event>, e: Event)
    requires LoopInv(ns, n, log) && (e.node != n || e.Sent?)
    ensures LoopInv(ns, n, log + [e])
  {
    ForeignGrows(log, e, n, ns.box.pending);
    ForeignGrows(log, e, n, Todo(ns.phase));
    assert (log + [e])[..|log|] == log;
  }

  lemma OwnSendKeepsLoop(ns: NodeState, n: NodeId, log: seq<Event>)
    requires LoopInv(ns, n, log)
    ensures LoopInv(ns.(box := ns.box.(vc := Bump(ns.box.vc, n))), n, log)
  {
    if ns.phase.Commit? {
      assert Todo(ns.phase)[0] == ns.phase.msg;
    }
  }

  lemma SendKeepsInv(s: State, s': State, n: NodeId, content: string)
    requires Inv(s) && SendStep(s, s', n, content)
    ensures Inv(s')
  {
    var e := s'.log[|s.log|];
    assert ClocksOf(s') == ClocksOf(s)[n := e.clock];
    EventKeepsHistory(ClocksOf(s), s.log, e);
    forall k | k in s'.nodes
      ensures LoopInv(s'.nodes[k], k, s'.log)
    {
      LoopGrows(s.nodes[k], k, s.log, e);
      OwnSendKeepsLoop(s.nodes[n], n, s.log);
      if k == n {
        LoopGrows(s'.nodes[n], n, s.log, e);
      }
    }
  }

  lemma ArriveKeepsLoop(ns: NodeState, n: NodeId, log: seq<Event>, m: Message)
    requires LoopInv(ns, n, log) && ns.phase == Idle && m.sender != n && WasSent(log, |log|, m)
    ensures LoopInv(OnArrive(ns, m), n, log)
  {
    var ns' := OnArrive(ns, m);
    forall x | x in ns'.arrived && x.content != "STOP"
      ensures x in ns'.box.delivered || x in ns'.box.pending || x in Todo(ns'.phase)
    {
      assert x == m || x in ns.arrived;
    }
  }

  /** A step that changes one node's loop only, and not its clock. */
  lemma LoopChangeKeepsInv(s: State, n: NodeId, ns: NodeState)
    requires Inv(s) && n in s.nodes && ns.box.vc == s.nodes[n].box.vc && LoopInv(ns, n, s.log)
    ensures Inv(s.(nodes := s.nodes[n := ns]))
  {
    assert ClocksOf(s.(nodes := s.nodes[n := ns])) == ClocksOf(s);
  }

  lemma ArriveKeepsInv(s: State, s': State, n: NodeId, m: Message)
    requires Inv(s) && ArriveStep(s, s', n, m)
    ensures Inv(s')
  {
    ArriveKeepsLoop(s.nodes[n], n, s.log, m);
    LoopChangeKeepsInv(s, n, OnArrive(s.nodes[n], m));
  }

  lemma ScanKeepsLoop(ns: NodeState, n: NodeId, log: seq<Event>)
    requires LoopInv(ns, n, log) && ns.phase.Scan?
    ensures LoopInv(OnTurn(ns), n, log) && OnTurn(ns).box.vc == ns.box.vc
  {
    var todo := ns.phase.todo;
    if todo != [] {
      assert todo == [todo[0]] + todo[1..];
    }
  }

  lemma DeliverKeepsLoop(ns: NodeState, n: NodeId, log: seq<Event>)
    requires LoopInv(ns, n, log) && ns.phase.Commit?
    ensures LoopInv(OnTurn(ns), n, log + [Delivered(n, ns.phase.msg, OnTurn(ns).box.vc)])
  {
    var e := Delivered(n, ns.phase.msg, OnTurn(ns).box.vc);
    ForeignGrows(log, e, n, ns.box.pending);
    ForeignGrows(log, e, n, Todo(ns.phase));
    assert Todo(OnTurn(ns).phase) == Todo(ns.phase)[1..];
    assert (log + [e])[..|log|] == log;
  }

  lemma DeliveryHappens(s: State, s': State, n: NodeId)
    requires TurnStep(s, s', n) && s.nodes[n].phase.Commit? && LoopInv(s.nodes[n], n, s.log)
    ensures var e := s'.log[|s.log|];
            ClocksOf(s') == ClocksOf(s)[n := e.clock] && Happens(ClocksOf(s), s.log, e)
  {
    var ns := s.nodes[n];
    CommitIsForeign(ns, n, s.log);
    MergeReady(ns.box.vc, ns.phase.msg);
    assert ClocksOf(s') == ClocksOf(s)[n := s'.log[|s.log|].clock];
  }

  /** The message about to be delivered was sent by somebody else, and is still ready. */
  lemma CommitIsForeign(ns: NodeState, n: NodeId, log: seq<Event>)
    requires LoopInv(ns, n, log) && ns.phase.Commit?
    ensures ns.phase.msg.sender != n && WasSent(log, |log|, ns.phase.msg) && Ready(ns.phase.msg, ns.box.vc)
  {
    assert Todo(ns.phase)[0] == ns.phase.msg;
  }

  lemma DeliverKeepsInv(s: State, s': State, n: NodeId)
    requires Inv(s) && TurnStep(s, s', n) && s.nodes[n].phase.Commit?
    ensures Inv(s')
  {
    var ns, e := s.nodes[n], s'.log[|s.log|];
    assert LoopInv(ns, n, s.log);
    DeliveryHappens(s, s', n);
    EventKeepsHistory(ClocksOf(s), s.log, e);
    forall k | k in s'.nodes
      ensures LoopInv(s'.nodes[k], k, s'.log)
    {
      if k == n {
        DeliverKeepsLoop(ns, n, s.log);
      } else {
        LoopGrows(s.nodes[k], k, s.log, e);
      }
    }
  }

  lemma ScanKeepsInv(s: State, s': State, n: NodeId)
    requires Inv(s) && TurnStep(s, s', n) && s.nodes[n].phase.Scan?
    ensures Inv(s')
  {
    ScanKeepsLoop(s.nodes[n], n, s.log);
    LoopChangeKeepsInv(s, n, OnTurn(s.nodes[n]));
  }

  lemma StepKeepsInv(s: State, s': State)
    requires Inv(s) && Next(s, s')
    ensures Inv(s')
  {
    if n, content :| SendStep(s, s', n, content) {
      SendKeepsInv(s, s', n, content);
    } else if n, m :| ArriveStep(s, s', n, m) {
      ArriveKeepsInv(s, s', n, m);
    } else {
      var n :| TurnStep(s, s', n);
      if s.nodes[n].phase.Commit? {
        DeliverKeepsInv(s, s', n);
      } else {
        ScanKeepsInv(s, s', n);
      }
    }
  }

  lemma {:induction false} RunKeepsInv(run: seq<State>, i: nat)
    requires IsRun(run) && i < |run|
    ensures Inv(run[i])
  {
    if i > 0 {
      RunKeepsInv(run, i - 1);
      StepKeepsInv(run[i - 1], run[i]);
    }
  }

  // ---------------------------------------------------------------- main results

  lemma {:induction false} ChainGrowsClocks(vcs: Clocks, log: seq<Event>, p: seq<int>)
    requires ClocksGrow(vcs, log) && AllWellFormed(log) && IsChain(log, p)
    ensures 0 <= p[0] < p[|p| - 1] < |log| && Leq(log[p[0]].clock, log[p[|p| - 1]].clock)
    decreases |p|
  {
    var x := |p| - 1;
    assert Causes(log, p[x - 1], p[x]);
    assert WellFormed(log, p[x - 1]) && WellFormed(log, p[x]);
    assert Leq(log[p[x - 1]].clock, log[p[x]].clock);
    if |p| > 2 {
      ChainGrowsClocks(vcs, log, p[..x]);
    }
  }

  /** Happened-before is reflected in the clocks: a cause's clock is below its effect's clock. */
  lemma CauseHasSmallerClock(run: seq<State>, s: nat, i: int, j: int)
    requires IsRun(run) && s < |run| && HappenedBefore(run[s].log, i, j)
    ensures 0 <= i < j < |run[s].log| && Leq(run[s].log[i].clock, run[s].log[j].clock)
  {
    RunKeepsInv(run, s);
    var p :| IsChain(run[s].log, p) && p[0] == i && p[|p| - 1] == j;
    ChainGrowsClocks(ClocksOf(run[s]), run[s].log, p);
  }

  lemma SameNumberSameMessage(log: seq<Event>, m: Message, m': Message)
    requires AllWellFormed(log) && Increasing(log)
    requires WasSent(log, |log|, m) && WasSent(log, |log|, m')
    requires m.sender == m'.sender && m.Number() == m'.Number()
    ensures m == m'
  {
    var i :| 0 <= i < |log| && log[i].Sent? && log[i].msg == m;
    var j :| 0 <= j < |log| && log[j].Sent? && log[j].msg == m';
    assert WellFormed(log, i) && WellFormed(log, j);
    assert i == j;
  }

  /**
   Causal delivery: if sending m1 (event i) happened before sending m2 (event j), then any node
   other than m1's sender that has delivered m2 (event d) delivered m1 at an earlier event.
   */
  lemma CausalDelivery(run: seq<State>, s: nat, i: int, j: int, d: int) returns (e: int)
    requires IsRun(run) && s < |run|
    requires HappenedBefore(run[s].log, i, j)
    requires 0 <= d < |run[s].log|
    requires 0 <= i < |run[s].log| && 0 <= j < |run[s].log|
    requires run[s].log[i].Sent? && run[s].log[j].Sent?
    requires run[s].log[d].Delivered? && run[s].log[d].msg == run[s].log[j].msg
    requires run[s].log[d].node != run[s].log[i].node
    ensures 0 <= e < d && run[s].log[e].Delivered?
    ensures run[s].log[e].node == run[s].log[d].node && run[s].log[e].msg == run[s].log[i].msg
  {
    RunKeepsInv(run, s);
    CauseHasSmallerClock(run, s, i, j);
    var log := run[s].log;
    var m1, m2, n := log[i].msg, log[j].msg, log[d].node;
    assert WellFormed(log, i) && WellFormed(log, j) && Closed(log, d);
    assert Has(log, d, n, m1.sender, m1.Number());
    e :| 0 <= e < d && IsDelivery(log[e], n, m1.sender, m1.Number());
    assert WellFormed(log, e);
    SameNumberSameMessage(log, m1, log[e].msg);
  }

  /** No node delivers a message twice. */
  lemma NoDuplicateDelivery(run: seq<State>, s: nat, i: int, j: int)
    requires IsRun(run) && s < |run| && 0 <= i <= j < |run[s].log|
    requires run[s].log[i].Delivered? && run[s].log[j].Delivered?
    requires run[s].log[i].node == run[s].log[j].node && run[s].log[i].msg == run[s].log[j].msg
    ensures i == j
  {
    RunKeepsInv(run, s);
  }

  function FromSender(ms: seq<Message>, k: NodeId): seq<Message> {
    if ms == [] then []
    else FromSender(ms[..|ms| - 1], k) + if ms[|ms| - 1].sender == k then [ms[|ms| - 1]] else []
  }

  lemma FromSenderGrows(ms: seq<Message>, m: Message, k: NodeId)
    ensures FromSender(ms + [m], k) == if m.sender == k then FromSender(ms, k) + [m] else FromSender(ms, k)
  {
    assert (ms + [m])[..|ms|] == ms;
  }

  /** One more event: the list of deliveries from `k` grows by that event's message, if it is one. */
  lemma ListGrows(log: seq<Event>, upto: nat, n: NodeId, k: NodeId)
    requires upto < |log|
    ensures var ms := FromSender(DeliveredAt(log[..upto], n), k);
            var e := log[upto];
            FromSender(DeliveredAt(log[..upto + 1], n), k) ==
              if e.Delivered? && e.node == n && e.msg.sender == k then ms + [e.msg] else ms
  {
    assert log[..upto + 1][..upto] == log[..upto];
    var all, e := DeliveredAt(log[..upto], n), log[upto];
    if e.Delivered? && e.node == n {
      FromSenderGrows(all, e.msg, k);
    } else {
      assert DeliveredAt(log[..upto + 1], n) == all;
    }
  }

  lemma NextInOrder(log: seq<Event>, j: nat, count: nat)
    requires AllWellFormed(log) && DeliveredOnce(log) && j < |log| && log[j].Delivered? && Closed(log, j)
    requires forall c: nat :: 1 <= c ==> (c <= count <==> Has(log, j, log[j].node, log[j].msg.sender, c))
    ensures log[j].msg.Number() == count + 1
  {
    var m, n := log[j].msg, log[j].node;
    assert WellFormed(log, j);
    var i :| 0 <= i < j && log[i].Sent? && log[i].msg == m;
    assert WellFormed(log, i);
    var again, skipped := Has(log, j, n, m.sender, m.Number()), Has(log, j, n, m.sender, count + 1);
    assert !again && !skipped;
  }

  /** `ms` are messages 1, 2, 3, ... of `k`, and exactly those `n` delivered in the first `upto` events. */
  ghost predicate InOrder(ms: seq<Message>, log: seq<Event>, upto: nat, n: NodeId, k: NodeId) {
    && (forall x :: 0 <= x < |ms| ==> ms[x].Number() == x + 1)
    && (forall c: nat :: 1 <= c ==> (c <= |ms| <==> Has(log, upto, n, k, c)))
  }

  lemma InOrderGrows(ms: seq<Message>, log: seq<Event>, j: nat, n: NodeId, k: NodeId)
    requires AllWellFormed(log) && AllClosed(log) && DeliveredOnce(log) && j < |log| && k != n
    requires InOrder(ms, log, j, n, k)
    ensures InOrder(if log[j].Delivered? && log[j].node == n && log[j].msg.sender == k then ms + [log[j].msg] else ms,
                    log, j + 1, n, k)
  {
    var e, upto := log[j], j + 1;
    var ms' := if e.Delivered? && e.node == n && e.msg.sender == k then ms + [e.msg] else ms;
    if ms' != ms {
      assert Closed(log, j);
      NextInOrder(log, j, |ms|);
    }
    forall c: nat | 1 <= c
      ensures c <= |ms'| <==> Has(log, upto, n, k, c)
    {
      assert IsDelivery(log[j], n, k, c) ==> Has(log, upto, n, k, c);
      assert c <= |ms| <==> Has(log, j, n, k, c);
    }
  }

  lemma NothingDelivered(log: seq<Event>, n: NodeId, k: NodeId)
    ensures InOrder(FromSender(DeliveredAt(log[..0], n), k), log, 0, n, k)
  {
    assert log[..0] == [];
  }

  lemma {:induction false} InOrderUpTo(log: seq<Event>, upto: nat, n: NodeId, k: NodeId)
    requires AllWellFormed(log) && AllClosed(log) && DeliveredOnce(log) && upto <= |log| && k != n
    ensures InOrder(FromSender(DeliveredAt(log[..upto], n), k), log, upto, n, k)
    decreases upto
  {
    if upto == 0 {
      NothingDelivered(log, n, k);
    } else {
      var j, e := upto - 1, log[upto - 1];
      var ms := FromSender(DeliveredAt(log[..j], n), k);
      var grown := if e.Delivered? && e.node == n && e.msg.sender == k then ms + [e.msg] else ms;
      InOrderUpTo(log, j, n, k);
      assert FromSender(DeliveredAt(log[..upto], n), k) == grown by {
        ListGrows(log, j, n, k);
      }
      InOrderGrows(ms, log, j, n, k);
    }
  }

  /**
   A node's entry for another node counts what it has delivered from there, and those are that
   node's messages 1, 2, 3, ... in order.
   */
  lemma ClockCountsDeliveries(run: seq<State>, s: nat, n: NodeId, k: NodeId)
    requires IsRun(run) && s < |run| && n in run[s].nodes && k != n
    ensures var ms := FromSender(run[s].nodes[n].box.delivered, k);
            && |ms| == At(run[s].nodes[n].box.vc, k)
            && forall x :: 0 <= x < |ms| ==> ms[x].Number() == x + 1
  {
    RunKeepsInv(run, s);
    var log, vcs := run[s].log, ClocksOf(run[s]);
    assert LoopInv(run[s].nodes[n], n, log);
    CountsMatch(vcs, log, n, k);
  }

  lemma CountsMatch(vcs: Clocks, log: seq<Event>, n: NodeId, k: NodeId)
    requires AllWellFormed(log) && AllClosed(log) && DeliveredOnce(log) && Counted(vcs, log) && k != n
    ensures var ms := FromSender(DeliveredAt(log, n), k);
            && |ms| == At(Vc(vcs, n), k)
            && forall x :: 0 <= x < |ms| ==> ms[x].Number() == x + 1
  {
    InOrderUpTo(log, |log|, n, k);
    assert log[..|log|] == log;
    var ms, v := FromSender(DeliveredAt(log, n), k), At(Vc(vcs, n), k);
    if v >= 1 {
      assert Has(log, |log|, n, k, v);
    }
    if |ms| >= 1 {
      assert Has(log, |log|, n, k, |ms|);
    }
  }

  predicate Undelivered(log: seq<Event>, n: NodeId, i: int) {
    0 <= i < |log| && log[i].Sent? && log[i].node != n && !Has(log, |log|, n, log[i].node, log[i].msg.Number())
  }

  lemma {:induction false} FirstUndelivered(log: seq<Event>, n: NodeId, i: int) returns (j: int)
    requires Undelivered(log, n, i)
    ensures Undelivered(log, n, j) && forall x :: 0 <= x < j ==> !Undelivered(log, n, x)
    decreases i
  {
    if x :| 0 <= x < i && Undelivered(log, n, x) {
      j := FirstUndelivered(log, n, x);
    } else {
      j := i;
    }
  }

  lemma KnownIsDelivered(vcs: Clocks, log: seq<Event>, n: NodeId, j: int, k: NodeId, c: nat)
    requires History(vcs, log)
    requires Undelivered(log, n, j) && forall x :: 0 <= x < j ==> !Undelivered(log, n, x)
    requires k != n && 1 <= c <= At(log[j].msg.vc, k) && (k == log[j].node ==> c < log[j].msg.Number())
    ensures c <= At(Vc(vcs, n), k)
  {
    var m := log[j].msg;
    assert WellFormed(log, j);
    assert Leq(m.vc, Vc(vcs, m.sender));
    assert At(m.vc, k) <= At(Vc(vcs, m.sender), k) <= At(Vc(vcs, k), k);
    assert SentNumber(log, k, c);
    var i :| 0 <= i < |log| && IsSend(log[i], k, c);
    assert Counts(m, log[i]);
    assert i < j && !Undelivered(log, n, i);
    assert Has(log, |log|, n, k, c);
  }

  /** The earliest message a node has not delivered passes the readiness test there. */
  lemma EarliestIsReady(vcs: Clocks, log: seq<Event>, n: NodeId, j: int)
    requires History(vcs, log)
    requires Undelivered(log, n, j) && forall x :: 0 <= x < j ==> !Undelivered(log, n, x)
    ensures Ready(log[j].msg, Vc(vcs, n))
  {
    var m := log[j].msg;
    assert WellFormed(log, j);
    forall k | k in m.vc && k != m.sender
      ensures m.vc[k] <= At(Vc(vcs, n), k)
    {
      if k == n {
        assert Leq(m.vc, Vc(vcs, m.sender));
        assert At(m.vc, n) <= At(Vc(vcs, m.sender), n) <= At(Vc(vcs, n), n);
      } else if m.vc[k] >= 1 {
        KnownIsDelivered(vcs, log, n, j, k, m.vc[k]);
      }
    }
    assert m.Number() > At(Vc(vcs, n), m.sender);
    if m.Number() > 1 {
      KnownIsDelivered(vcs, log, n, j, m.sender, m.Number() - 1);
    }
  }

  lemma MissingMeansUndelivered(log: seq<Event>, n: NodeId, i: int)
    requires AllWellFormed(log) && Increasing(log)
    requires 0 <= i < |log| && log[i].Sent? && log[i].node != n && log[i].msg !in DeliveredAt(log, n)
    ensures Undelivered(log, n, i)
  {
    var m := log[i].msg;
    assert WellFormed(log, i);
    if d :| 0 <= d < |log| && IsDelivery(log[d], n, m.sender, m.Number()) {
      assert WellFormed(log, d);
      var x :| 0 <= x < d && log[x].Sent? && log[x].msg == log[d].msg;
      assert WasSent(log, |log|, log[d].msg);
      SameNumberSameMessage(log, m, log[d].msg);
      DeliveryIsListed(log, d);
      assert false;
    }
  }

  lemma {:induction false} DeliveryIsListed(log: seq<Event>, d: nat)
    requires d < |log| && log[d].Delivered?
    ensures log[d].msg in DeliveredAt(log, log[d].node)
    decreases |log|
  {
    if d < |log| - 1 {
      DeliveryIsListed(log[..|log| - 1], d);
    }
  }

  lemma {:induction false} ListedWasDelivered(log: seq<Event>, n: NodeId, m: Message)
    requires m in DeliveredAt(log, n)
    ensures Has(log, |log|, n, m.sender, m.Number())
    decreases |log|
  {
    var e, rest := log[|log| - 1], log[..|log| - 1];
    assert log == rest + [e];
    HasGrows(rest, e, |rest|, n, m.sender, m.Number());
    if m in DeliveredAt(rest, n) {
      ListedWasDelivered(rest, n, m);
    }
  }

  /**
   If everything the other nodes sent has arrived at an idle node and something is undelivered there,
   a message waiting in its pending list passes the readiness test. Whether the loop looks at it again
   is another matter: it rescans only after a delivery.
   */
  lemma SomePendingIsReady(run: seq<State>, s: nat, n: NodeId, m: Message) returns (r: Message)
    requires IsRun(run) && s < |run| && n in run[s].nodes && run[s].nodes[n].phase == Idle
    requires forall i :: 0 <= i < |run[s].log| && run[s].log[i].Sent? && run[s].log[i].node != n ==>
               run[s].log[i].msg in run[s].nodes[n].arrived && run[s].log[i].msg.content != "STOP"
    requires m.sender != n && WasSent(run[s].log, |run[s].log|, m) && m !in run[s].nodes[n].box.delivered
    ensures r in run[s].nodes[n].box.pending && Ready(r, run[s].nodes[n].box.vc)
  {
    RunKeepsInv(run, s);
    var log, vcs := run[s].log, ClocksOf(run[s]);
    assert LoopInv(run[s].nodes[n], n, log);
    var i :| 0 <= i < |log| && log[i].Sent? && log[i].msg == m;
    assert WellFormed(log, i);
    MissingMeansUndelivered(log, n, i);
    var j := FirstUndelivered(log, n, i);
    EarliestIsReady(vcs, log, n, j);
    r := log[j].msg;
    assert WellFormed(log, j);
    if r in DeliveredAt(log, n) {
      ListedWasDelivered(log, n, r);
      assert false;
    }
  }
}
