/**
 Lamport clocks and the total order built from them. Identifiers of processes are taken as numbers
 in their sorting order; a message's identifier is its sender together with its timestamp.
 */
module LamportOrder {

  type ProcessId = int

  datatype Message = Message(sender: ProcessId, timestamp: nat, content: string) {
    function Id(): (ProcessId, nat) { (sender, timestamp) }
  }

  predicate Before(a: Message, b: Message) {
    a.timestamp < b.timestamp || (a.timestamp == b.timestamp && a.sender < b.sender)
  }

  function Joined(local: nat, timestamp: nat): nat {
    (if local >= timestamp then local else timestamp) + 1
  }

  // ---------------------------------------------------------------- the order of collected messages

  predicate Sorted(r: seq<Message>) {
    forall i, j :: 0 <= i < j < |r| ==> Before(r[i], r[j])
  }

  /** `r` lists, strictly ordered, one message for every identifier in `all`, and nothing else. */
  ghost predicate IsTotalOrder(all: seq<Message>, r: seq<Message>) {
    && Sorted(r)
    && (forall m :: m in r ==> m in all)
    && (forall m :: m in all ==> HasId(r, m.Id()))
  }

  predicate HasId(r: seq<Message>, id: (ProcessId, nat)) {
    exists i :: 0 <= i < |r| && r[i].Id() == id
  }

  predicate IdsAgree(all: seq<Message>) {
    forall m, m' :: m in all && m' in all && m.Id() == m'.Id() ==> m == m'
  }

  function Flatten(lists: seq<seq<Message>>): seq<Message> {
    if lists == [] then [] else Flatten(lists[..|lists| - 1]) + lists[|lists| - 1]
  }

  /** `r` holds messages of these lists only, and for each of theirs one by that sender with that timestamp. */
  ghost predicate DrawnFrom(lists: seq<seq<Message>>, r: seq<Message>) {
    && (forall m :: m in r ==> exists x :: 0 <= x < |lists| && m in lists[x])
    && forall x, m :: 0 <= x < |lists| && m in lists[x] ==>
         exists i :: 0 <= i < |r| && r[i].sender == m.sender && r[i].timestamp == m.timestamp
  }

  lemma {:induction false} FlattenMember(lists: seq<seq<Message>>, m: Message)
    ensures m in Flatten(lists) <==> exists x :: 0 <= x < |lists| && m in lists[x]
    decreases |lists|
  {
    if lists != [] {
      var init, n := lists[..|lists| - 1], |lists| - 1;
      FlattenMember(init, m);
      assert forall x :: 0 <= x < n ==> init[x] == lists[x];
      if x :| 0 <= x < |lists| && m in lists[x] && x < n {
        assert m in init[x];
      }
      assert m in lists[n] ==> exists x :: 0 <= x < |lists| && m in lists[x];
    }
  }

  lemma OrderIsDrawn(lists: seq<seq<Message>>, r: seq<Message>)
    requires IsTotalOrder(Flatten(lists), r)
    ensures DrawnFrom(lists, r)
  {
    forall m
      ensures m in Flatten(lists) <==> exists x :: 0 <= x < |lists| && m in lists[x]
    {
      FlattenMember(lists, m);
    }
    forall m | m in r
      ensures exists x :: 0 <= x < |lists| && m in lists[x]
    {
      assert m in Flatten(lists);
    }
    forall x, m | 0 <= x < |lists| && m in lists[x]
      ensures exists i :: 0 <= i < |r| && r[i].sender == m.sender && r[i].timestamp == m.timestamp
    {
      assert m in Flatten(lists);
      assert HasId(r, m.Id());
    }
  }

  /** Collect every process's messages once per identifier, then sort by timestamp and sender. */
  method GetTotalOrder(lists: seq<seq<Message>>) returns (r: seq<Message>)
    ensures IsTotalOrder(Flatten(lists), r) && DrawnFrom(lists, r)
    ensures forall i, j :: 0 <= i < j < |r| ==>
              r[i].timestamp < r[j].timestamp || (r[i].timestamp == r[j].timestamp && r[i].sender < r[j].sender)
  {
    var found: seq<Message> := [];
    var seen: set<(ProcessId, nat)> := {};
    for i := 0 to |lists|
      invariant Collected(Flatten(lists[..i]), found, seen)
    {
      found, seen := CollectFrom(lists[i], Flatten(lists[..i]), found, seen);
      assert lists[..i + 1][..i] == lists[..i];
    }
    assert lists[..|lists|] == lists;
    r := Sort(found);
    forall m | m in Flatten(lists)
      ensures HasId(r, m.Id())
    {
      var x :| 0 <= x < |found| && found[x].Id() == m.Id();
      assert found[x] in multiset(r);
      var y :| 0 <= y < |r| && r[y] == found[x];
    }
    forall m | m in r
      ensures m in Flatten(lists)
    {
      assert m in multiset(found);
    }
    OrderIsDrawn(lists, r);
  }

  ghost predicate Collected(all: seq<Message>, found: seq<Message>, seen: set<(ProcessId, nat)>) {
    && (forall m :: m in found ==> m in all)
    && (forall id :: id in seen <==> HasId(found, id))
    && (forall m :: m in all ==> m.Id() in seen)
    && (forall i, j :: 0 <= i < j < |found| ==> found[i].Id() != found[j].Id())
  }

  lemma CollectedGrows(all: seq<Message>, found: seq<Message>, seen: set<(ProcessId, nat)>, m: Message)
    requires Collected(all, found, seen)
    ensures m.Id() in seen ==> Collected(all + [m], found, seen)
    ensures m.Id() !in seen ==> Collected(all + [m], found + [m], seen + {m.Id()})
  {
    if m.Id() !in seen {
      var found' := found + [m];
      forall id | id in seen + {m.Id()}
        ensures HasId(found', id)
      {
        if id != m.Id() {
          var i :| 0 <= i < |found| && found[i].Id() == id;
          assert found'[i].Id() == id;
        } else {
          assert found'[|found|].Id() == id;
        }
      }
      forall i | 0 <= i < |found|
        ensures found[i].Id() != m.Id()
      {
        assert HasId(found, found[i].Id());
      }
    }
  }

  method CollectFrom(list: seq<Message>, ghost all: seq<Message>, found0: seq<Message>, seen0: set<(ProcessId, nat)>)
    returns (found: seq<Message>, seen: set<(ProcessId, nat)>)
    requires Collected(all, found0, seen0)
    ensures Collected(all + list, found, seen)
  {
    found, seen := found0, seen0;
    assert all + list[..0] == all;
    for j := 0 to |list|
      invariant Collected(all + list[..j], found, seen)
    {
      var m := list[j];
      CollectedGrows(all + list[..j], found, seen, m);
      assert all + list[..j + 1] == (all + list[..j]) + [m];
      if m.Id() !in seen {
        found := found + [m];
        seen := seen + {m.Id()};
      }
    }
    assert list[..|list|] == list;
  }

  function Insert(m: Message, r: seq<Message>): seq<Message> {
    if r == [] || !Before(r[0], m) then [m] + r else [r[0]] + Insert(m, r[1..])
  }

  lemma {:induction false} InsertKeepsAll(m: Message, r: seq<Message>)
    ensures multiset(Insert(m, r)) == multiset{m} + multiset(r)
    decreases |r|
  {
    if r != [] && Before(r[0], m) {
      InsertKeepsAll(m, r[1..]);
      assert r == [r[0]] + r[1..];
    }
  }

  lemma {:induction false} InsertSorts(m: Message, r: seq<Message>)
    requires Sorted(r) && forall x :: x in r ==> x.Id() != m.Id()
    ensures Sorted(Insert(m, r))
    decreases |r|
  {
    if r != [] && Before(r[0], m) {
      var tail := Insert(m, r[1..]);
      InsertSorts(m, r[1..]);
      InsertKeepsAll(m, r[1..]);
      forall j | 0 <= j < |tail|
        ensures Before(r[0], tail[j])
      {
        assert tail[j] in multiset(tail);
        assert tail[j] == m || tail[j] in r[1..];
      }
      FirstThenSorted(r[0], tail);
    } else {
      forall j | 0 <= j < |r|
        ensures Before(m, r[j])
      {
        assert r[0].Id() != m.Id();
      }
      FirstThenSorted(m, r);
    }
  }

  lemma FirstThenSorted(m: Message, r: seq<Message>)
    requires Sorted(r) && forall j :: 0 <= j < |r| ==> Before(m, r[j])
    ensures Sorted([m] + r)
  {
  }

  lemma SortOneMore(ms: seq<Message>, i: nat, r: seq<Message>)
    requires forall i, j :: 0 <= i < j < |ms| ==> ms[i].Id() != ms[j].Id()
    requires i < |ms| && Sorted(r) && multiset(r) == multiset(ms[..i])
    ensures Sorted(Insert(ms[i], r)) && multiset(Insert(ms[i], r)) == multiset(ms[..i + 1])
  {
    forall x | x in r
      ensures x.Id() != ms[i].Id()
    {
      assert x in multiset(ms[..i]);
    }
    InsertSorts(ms[i], r);
    InsertKeepsAll(ms[i], r);
    assert ms[..i + 1] == ms[..i] + [ms[i]];
  }

  /** Sorting messages with distinct identifiers; any sorting routine gives this result. */
  method Sort(ms: seq<Message>) returns (r: seq<Message>)
    requires forall i, j :: 0 <= i < j < |ms| ==> ms[i].Id() != ms[j].Id()
    ensures Sorted(r) && multiset(r) == multiset(ms)
  {
    r := [];
    for i := 0 to |ms|
      invariant Sorted(r) && multiset(r) == multiset(ms[..i])
    {
      SortOneMore(ms, i, r);
      r := Insert(ms[i], r);
    }
    assert ms[..|ms|] == ms;
  }

  /** A strictly ordered list is determined by what it contains. */
  lemma {:induction false} SortedIsUnique(a: seq<Message>, b: seq<Message>)
    requires Sorted(a) && Sorted(b) && forall m :: m in a <==> m in b
    ensures a == b
    decreases |a|
  {
    if b != [] {
      assert b[0] in a;
    }
    if a != [] {
      assert a[0] in b && b[0] in a;
      var i :| 0 <= i < |b| && b[i] == a[0];
      var j :| 0 <= j < |a| && a[j] == b[0];
      assert a[0] == b[0];
      forall m
        ensures m in a[1..] <==> m in b[1..]
      {
        assert m in a <==> m == a[0] || m in a[1..];
        assert m in b <==> m == b[0] || m in b[1..];
        assert a[0] !in a[1..] && b[0] !in b[1..];
      }
      SortedIsUnique(a[1..], b[1..]);
      assert a == [a[0]] + a[1..] && b == [b[0]] + b[1..];
    }
  }

  /** With one message per identifier, the order depends only on which messages were collected. */
  lemma OrderIsCanonical(all: seq<Message>, all': seq<Message>, r: seq<Message>, r': seq<Message>)
    requires IsTotalOrder(all, r) && IsTotalOrder(all', r')
    requires IdsAgree(all) && forall m :: m in all <==> m in all'
    ensures r == r' && forall m :: m in r <==> m in all
  {
    ListsAll(all, r);
    ListsAll(all', r');
    SortedIsUnique(r, r');
  }

  lemma ListsAll(all: seq<Message>, r: seq<Message>)
    requires IsTotalOrder(all, r) && IdsAgree(all)
    ensures forall m :: m in all ==> m in r
  {
    forall m | m in all
      ensures m in r
    {
      assert HasId(r, m.Id());
      var i :| 0 <= i < |r| && r[i].Id() == m.Id();
      assert r[i] in r;
    }
  }

  // ---------------------------------------------------------------- one process, run alone

  class Process {
    const id: ProcessId
    var clock: nat
    var messages: seq<Message>

    constructor (id: ProcessId)
      ensures this.id == id && clock == 0 && messages == []
    {
      this.id := id;
      clock := 0;
      messages := [];
    }

    method Send(content: string) returns (m: Message)
      modifies this
      ensures clock == old(clock) + 1 && m == Message(id, clock, content)
      ensures messages == old(messages) + [m]
    {
      clock := clock + 1;
      m := Message(id, clock, content);
      messages := messages + [m];
    }

    /** The compare-and-swap loop; alone, its first swap succeeds. */
    method Receive(m: Message)
      modifies this
      ensures clock > old(clock) && clock > m.timestamp
      ensures clock == old(clock) + 1 || clock == m.timestamp + 1
      ensures clock == Joined(old(clock), m.timestamp)
      ensures messages == old(messages) + [m]
    {
      var done := false;
      while !done
        invariant messages == old(messages)
        invariant clock == if done then Joined(old(clock), m.timestamp) else old(clock)
        decreases if done then 0 else 1
      {
        var local := clock;
        var newClock := m.timestamp;
        if local >= newClock {
          newClock := local;
        }
        if clock == local {
          clock := newClock + 1;
          done := true;
        }
      }
      messages := messages + [m];
    }
  }

  // ---------------------------------------------------------------- all interleavings

  datatype ProcState = ProcState(clock: nat, messages: seq<Message>)

  /** A goroutine working for a process: between two atomic operations of a send or a receive. */
  datatype Task =
    | Loading(p: ProcessId, m: Message)
    | Swapping(p: ProcessId, m: Message, local: nat)
    | Appending(p: ProcessId, m: Message)

  /** A tick or a successful swap, with the process's clock after it. */
  datatype Event =
    | Sent(p: ProcessId, m: Message, clock: nat)
    | Received(p: ProcessId, m: Message, clock: nat)

  datatype State = State(procs: map<ProcessId, ProcState>, tasks: multiset<Task>, log: seq<Event>)

  predicate Init(s: State) {
    && s.tasks == multiset{} && s.log == []
    && forall p :: p in s.procs ==> s.procs[p] == ProcState(0, [])
  }

  predicate WasSent(log: seq<Event>, m: Message) {
    exists i :: 0 <= i < |log| && log[i].Sent? && log[i].m == m
  }

  predicate TickStep(s: State, s': State, p: ProcessId, content: string) {
    && p in s.procs
    && var clock := s.procs[p].clock + 1;
    && var m := Message(p, clock, content);
    && s' == State(s.procs[p := s.procs[p].(clock := clock)], s.tasks + multiset{Appending(p, m)},
                   s.log + [Sent(p, m, clock)])
  }

  predicate BeginReceive(s: State, s': State, p: ProcessId, m: Message) {
    p in s.procs && WasSent(s.log, m) && s' == s.(tasks := s.tasks + multiset{Loading(p, m)})
  }

  /** The next atomic operation of a task: load, compare-and-swap, or append under the mutex. */
  predicate TaskStep(s: State, s': State, t: Task) {
    && t in s.tasks && t.p in s.procs
    && var p := s.procs[t.p];
    && var rest := s.tasks - multiset{t};
    && match t
       case Loading(_, m) => s' == s.(tasks := rest + multiset{Swapping(t.p, m, p.clock)})
       case Swapping(_, m, local) =>
         var clock := Joined(local, m.timestamp);
         if p.clock == local
         then s' == State(s.procs[t.p := p.(clock := clock)], rest + multiset{Appending(t.p, m)},
                          s.log + [Received(t.p, m, clock)])
         else s' == s.(tasks := rest + multiset{Loading(t.p, m)})
       case Appending(_, m) => s' == s.(procs := s.procs[t.p := p.(messages := p.messages + [m])], tasks := rest)
  }

  ghost predicate Next(s: State, s': State) {
    || (exists p, content :: TickStep(s, s', p, content))
    || (exists p, m :: BeginReceive(s, s', p, m))
    || (exists t :: TaskStep(s, s', t))
  }

  ghost predicate IsRun(run: seq<State>) {
    && |run| > 0
    && Init(run[0])
    && forall i :: 0 < i < |run| ==> Next(run[i - 1], run[i])
  }

  // ---------------------------------------------------------------- invariant

  function ClockOf(s: State, p: ProcessId): nat {
    if p in s.procs then s.procs[p].clock else 0
  }

  ghost predicate Climbs(s: State) {
    && (forall i, j :: 0 <= i < j < |s.log| && s.log[i].p == s.log[j].p ==> s.log[i].clock < s.log[j].clock)
    && (forall i :: 0 <= i < |s.log| ==> s.log[i].clock <= ClockOf(s, s.log[i].p))
  }

  ghost predicate Stamped(log: seq<Event>) {
    forall i :: 0 <= i < |log| ==>
      if log[i].Sent? then log[i].m.sender == log[i].p && log[i].m.timestamp == log[i].clock
      else log[i].m.timestamp < log[i].clock
  }

  ghost predicate OnlySent(s: State) {
    && (forall t :: t in s.tasks ==> WasSent(s.log, t.m))
    && (forall p, m :: p in s.procs && m in s.procs[p].messages ==> WasSent(s.log, m))
  }

  ghost predicate Inv(s: State) { Climbs(s) && Stamped(s.log) && OnlySent(s) }

  lemma SentStaysSent(log: seq<Event>, e: Event)
    ensures forall m :: WasSent(log, m) ==> WasSent(log + [e], m)
    ensures e.Sent? ==> WasSent(log + [e], e.m)
  {
    forall m | WasSent(log, m)
      ensures WasSent(log + [e], m)
    {
      var i :| 0 <= i < |log| && log[i].Sent? && log[i].m == m;
      assert (log + [e])[i] == log[i];
    }
    assert (log + [e])[|log|] == e;
  }

  /** An event that raises its process's clock keeps the log climbing. */
  lemma EventKeepsClimbing(s: State, s': State, e: Event)
    requires Climbs(s) && Stamped(s.log) && s'.log == s.log + [e] && e.p in s.procs
    requires s'.procs.Keys == s.procs.Keys && s'.procs[e.p].clock == e.clock > s.procs[e.p].clock
    requires forall p :: p in s.procs && p != e.p ==> s'.procs[p] == s.procs[p]
    requires if e.Sent? then e.m.sender == e.p && e.m.timestamp == e.clock else e.m.timestamp < e.clock
    ensures Climbs(s') && Stamped(s'.log)
  {
    forall i | 0 <= i < |s.log|
      ensures s'.log[i] == s.log[i] && s.log[i].clock <= ClockOf(s', s.log[i].p) && (s.log[i].p == e.p ==>
                s.log[i].clock < e.clock)
    {
      assert s.log[i].clock <= ClockOf(s, s.log[i].p);
    }
  }

  lemma TickKeepsInv(s: State, s': State, p: ProcessId, content: string)
    requires Inv(s) && TickStep(s, s', p, content)
    ensures Inv(s')
  {
    var e := s'.log[|s.log|];
    EventKeepsClimbing(s, s', e);
    SentStaysSent(s.log, e);
    forall u | u in s'.tasks
      ensures WasSent(s'.log, u.m)
    {
      assert u in s.tasks || u == Appending(p, e.m);
    }
  }

  lemma SwapKeepsInv(s: State, s': State, t: Task)
    requires Inv(s) && TaskStep(s, s', t) && t.Swapping? && s.procs[t.p].clock == t.local
    ensures Inv(s')
  {
    var e := s'.log[|s.log|];
    EventKeepsClimbing(s, s', e);
    assert WasSent(s.log, t.m);
    SentStaysSent(s.log, e);
    forall u | u in s'.tasks
      ensures WasSent(s'.log, u.m)
    {
      assert u in s.tasks || u == Appending(t.p, t.m);
    }
  }

  lemma AppendKeepsInv(s: State, s': State, t: Task)
    requires Inv(s) && TaskStep(s, s', t) && t.Appending?
    ensures Inv(s')
  {
    assert WasSent(s.log, t.m);
    assert forall p :: ClockOf(s', p) == ClockOf(s, p);
    forall p, m | p in s'.procs && m in s'.procs[p].messages
      ensures WasSent(s'.log, m)
    {
      assert m == t.m || m in s.procs[p].messages;
    }
  }

  /** A step that leaves processes and log alone, and works on with the same message. */
  lemma RetaskKeepsInv(s: State, s': State, t: Task, u: Task)
    requires Inv(s) && t in s.tasks && u.m == t.m
    requires s' == s.(tasks := s.tasks - multiset{t} + multiset{u})
    ensures Inv(s')
  {
    assert WasSent(s.log, t.m);
    forall x | x in s'.tasks
      ensures WasSent(s'.log, x.m)
    {
      assert x in s.tasks || x == u;
    }
    assert forall p :: ClockOf(s', p) == ClockOf(s, p);
  }

  lemma BeginKeepsInv(s: State, s': State, p: ProcessId, m: Message)
    requires Inv(s) && BeginReceive(s, s', p, m)
    ensures Inv(s')
  {
    forall x | x in s'.tasks
      ensures WasSent(s'.log, x.m)
    {
      assert x in s.tasks || x == Loading(p, m);
    }
    assert forall q :: ClockOf(s', q) == ClockOf(s, q);
  }

  lemma TaskKeepsInv(s: State, s': State, t: Task)
    requires Inv(s) && TaskStep(s, s', t)
    ensures Inv(s')
  {
    match t
    case Loading(p, m) => RetaskKeepsInv(s, s', t, Swapping(p, m, s.procs[p].clock));
    case Swapping(p, m, local) =>
      if s.procs[p].clock == local {
        SwapKeepsInv(s, s', t);
      } else {
        RetaskKeepsInv(s, s', t, Loading(p, m));
      }
    case Appending(_, _) => AppendKeepsInv(s, s', t);
  }

  lemma StepKeepsInv(s: State, s': State)
    requires Inv(s) && Next(s, s')
    ensures Inv(s') && s.log <= s'.log
  {
    if p, content :| TickStep(s, s', p, content) {
      TickKeepsInv(s, s', p, content);
    } else if p, m :| BeginReceive(s, s', p, m) {
      BeginKeepsInv(s, s', p, m);
    } else {
      var t :| TaskStep(s, s', t);
      TaskKeepsInv(s, s', t);
    }
  }

  lemma {:induction false} RunKeepsInv(run: seq<State>, i: nat)
    requires IsRun(run) && i < |run|
    ensures Inv(run[i])
  {
    if i > 0 {
      RunKeepsInv(run, i - 1);
      StepKeepsInv(run[i - 1], run[i]);
    }
  }

  lemma {:induction false} LogOnlyGrows(run: seq<State>, i: nat, j: nat)
    requires IsRun(run) && i <= j < |run|
    ensures run[i].log <= run[j].log
    decreases j
  {
    if i < j {
      LogOnlyGrows(run, i, j - 1);
      RunKeepsInv(run, j - 1);
      StepKeepsInv(run[j - 1], run[j]);
    }
  }

  // ---------------------------------------------------------------- happened-before

  /** Direct causality: a later event of the same process, or the receipt of what was sent. */
  predicate Causes(log: seq<Event>, i: int, j: int) {
    && 0 <= i < j < |log|
    && (log[i].p == log[j].p || (log[i].Sent? && log[j].Received? && log[i].m == log[j].m))
  }

  predicate IsChain(log: seq<Event>, c: seq<int>) {
    |c| > 1 && forall x :: 0 < x < |c| ==> Causes(log, c[x - 1], c[x])
  }

  ghost predicate HappenedBefore(log: seq<Event>, i: int, j: int) {
    exists c :: IsChain(log, c) && c[0] == i && c[|c| - 1] == j
  }

  lemma {:induction false} ChainClimbs(s: State, c: seq<int>)
    requires Climbs(s) && Stamped(s.log) && IsChain(s.log, c)
    ensures 0 <= c[0] < c[|c| - 1] < |s.log| && s.log[c[0]].clock < s.log[c[|c| - 1]].clock
    decreases |c|
  {
    var x := |c| - 1;
    assert Causes(s.log, c[x - 1], c[x]);
    if |c| > 2 {
      ChainClimbs(s, c[..x]);
    }
  }

  // ---------------------------------------------------------------- main results

  /** No clock is higher than it need be: an event's clock is one, or one more than that of some cause. */
  ghost predicate Tight(log: seq<Event>) {
    forall i :: 0 <= i < |log| && log[i].clock != 1 ==> HasTightCause(log, i)
  }

  ghost predicate HasTightCause(log: seq<Event>, i: int)
    requires 0 <= i < |log|
  {
    exists h :: Causes(log, h, i) && log[h].clock + 1 == log[i].clock
  }

  /** A process's clock is that of one of its events. */
  ghost predicate ClocksLogged(s: State) {
    forall p :: p in s.procs && s.procs[p].clock != 0 ==> IsLogged(s.log, p, s.procs[p].clock)
  }

  ghost predicate IsLogged(log: seq<Event>, p: ProcessId, clock: nat) {
    exists i :: 0 <= i < |log| && log[i].p == p && log[i].clock == clock
  }

  ghost predicate TightInv(s: State) { Tight(s.log) && ClocksLogged(s) }

  /** An event with the least clock above its causes keeps clocks as low as they were. */
  lemma EventKeepsTight(s: State, s': State, e: Event)
    requires Stamped(s.log) && TightInv(s) && s'.log == s.log + [e] && e.p in s.procs
    requires s'.procs.Keys == s.procs.Keys && s'.procs[e.p].clock == e.clock
    requires forall p :: p in s.procs && p != e.p ==> s'.procs[p] == s.procs[p]
    requires e.clock == s.procs[e.p].clock + 1 ||
             (e.Received? && e.clock == e.m.timestamp + 1 && WasSent(s.log, e.m))
    ensures TightInv(s')
  {
    var n := |s.log|;
    forall i | 0 <= i < n && s'.log[i].clock != 1
      ensures HasTightCause(s'.log, i)
    {
      var h :| Causes(s.log, h, i) && s.log[h].clock + 1 == s.log[i].clock;
      assert Causes(s'.log, h, i);
    }
    if e.clock != 1 {
      var h: int;
      if e.clock == s.procs[e.p].clock + 1 {
        h :| 0 <= h < n && s.log[h].p == e.p && s.log[h].clock == s.procs[e.p].clock;
      } else {
        h :| 0 <= h < n && s.log[h].Sent? && s.log[h].m == e.m;
      }
      assert Causes(s'.log, h, n);
    }
    forall p | p in s'.procs && s'.procs[p].clock != 0
      ensures IsLogged(s'.log, p, s'.procs[p].clock)
    {
      if p == e.p {
        assert s'.log[n] == e;
      } else {
        var i :| 0 <= i < n && s.log[i].p == p && s.log[i].clock == s.procs[p].clock;
        assert s'.log[i] == s.log[i];
      }
    }
  }

  lemma QuietKeepsTight(s: State, s': State)
    requires TightInv(s) && s'.log == s.log
    requires forall p :: p in s'.procs ==> p in s.procs && s'.procs[p].clock == s.procs[p].clock
    ensures TightInv(s')
  {
    forall p | p in s'.procs && s'.procs[p].clock != 0
      ensures IsLogged(s'.log, p, s'.procs[p].clock)
    {
    }
  }

  lemma TaskKeepsTight(s: State, s': State, t: Task)
    requires OnlySent(s) && Stamped(s.log) && TightInv(s) && TaskStep(s, s', t)
    ensures TightInv(s')
  {
    if t.Swapping? && s.procs[t.p].clock == t.local {
      assert WasSent(s.log, t.m);
      EventKeepsTight(s, s', Received(t.p, t.m, Joined(t.local, t.m.timestamp)));
    } else {
      QuietKeepsTight(s, s');
    }
  }

  lemma StepKeepsTight(s: State, s': State)
    requires Inv(s) && TightInv(s) && Next(s, s')
    ensures TightInv(s')
  {
    if p, content :| TickStep(s, s', p, content) {
      EventKeepsTight(s, s', s'.log[|s.log|]);
    } else if p, m :| BeginReceive(s, s', p, m) {
      QuietKeepsTight(s, s');
    } else {
      var t :| TaskStep(s, s', t);
      TaskKeepsTight(s, s', t);
    }
  }

  lemma {:induction false} RunKeepsTight(run: seq<State>, i: nat)
    requires IsRun(run) && i < |run|
    ensures TightInv(run[i])
  {
    if i == 0 {
      assert run[0].log == [];
    } else {
      RunKeepsTight(run, i - 1);
      RunKeepsInv(run, i - 1);
      StepKeepsTight(run[i - 1], run[i]);
    }
  }

  /** A chain of causes that ends with event `j`; the event alone is the shortest one. */
  ghost predicate LeadsTo(log: seq<Event>, c: seq<int>, j: int) {
    |c| > 0 && 0 <= j < |log| && c[|c| - 1] == j && forall x :: 0 < x < |c| ==> Causes(log, c[x - 1], c[x])
  }

  lemma ClockIsPositive(run: seq<State>, i: nat, j: int)
    requires IsRun(run) && i < |run| && 0 <= j < |run[i].log|
    ensures run[i].log[j].clock >= 1
  {
    RunKeepsTight(run, i);
    assert run[i].log[j].clock != 1 ==> HasTightCause(run[i].log, j);
  }

  lemma CauseIsLower(run: seq<State>, i: nat, h: int, j: int)
    requires IsRun(run) && i < |run| && Causes(run[i].log, h, j)
    ensures run[i].log[h].clock < run[i].log[j].clock
  {
    RunKeepsInv(run, i);
  }

  /** No chain to an event has more events than its clock says. */
  lemma {:induction false} ClockBoundsChains(run: seq<State>, i: nat, c: seq<int>, j: int)
    requires IsRun(run) && i < |run| && LeadsTo(run[i].log, c, j)
    ensures |c| <= run[i].log[j].clock
    decreases |c|
  {
    if |c| == 1 {
      ClockIsPositive(run, i, j);
    } else {
      var h := c[|c| - 2];
      assert Causes(run[i].log, h, j);
      CauseIsLower(run, i, h, j);
      ClockBoundsChains(run, i, c[..|c| - 1], h);
    }
  }

  /** And some chain has as many: a Lamport clock is the length of the longest chain of causes. */
  lemma {:induction false} ClockIsReached(run: seq<State>, i: nat, j: int) returns (c: seq<int>)
    requires IsRun(run) && i < |run| && 0 <= j < |run[i].log|
    ensures LeadsTo(run[i].log, c, j) && |c| == run[i].log[j].clock
    decreases j
  {
    if run[i].log[j].clock == 1 {
      c := [j];
    } else {
      var h := TightCause(run, i, j);
      var shorter := ClockIsReached(run, i, h);
      LeadsOn(run[i].log, shorter, h, j);
      c := shorter + [j];
    }
  }

  lemma TightCause(run: seq<State>, i: nat, j: int) returns (h: int)
    requires IsRun(run) && i < |run| && 0 <= j < |run[i].log| && run[i].log[j].clock != 1
    ensures Causes(run[i].log, h, j) && run[i].log[h].clock + 1 == run[i].log[j].clock
  {
    RunKeepsTight(run, i);
    assert HasTightCause(run[i].log, j);
    h :| Causes(run[i].log, h, j) && run[i].log[h].clock + 1 == run[i].log[j].clock;
  }

  lemma LeadsOn(log: seq<Event>, c: seq<int>, h: int, j: int)
    requires LeadsTo(log, c, h) && Causes(log, h, j)
    ensures LeadsTo(log, c + [j], j)
  {
  }

  /** Snapshots of processes' lists, each taken at some point of the run up to `last`. */
  ghost predicate Snapshots(run: seq<State>, last: nat, lists: seq<seq<Message>>) {
    last < |run| && forall x :: 0 <= x < |lists| ==>
      exists i, p :: 0 <= i <= last && p in run[i].procs && run[i].procs[p].messages == lists[x]
  }

  lemma CollectedWasSent(run: seq<State>, last: nat, lists: seq<seq<Message>>, m: Message)
    requires IsRun(run) && Snapshots(run, last, lists) && m in Flatten(lists)
    ensures WasSent(run[last].log, m)
  {
    FlattenMember(lists, m);
    var x :| 0 <= x < |lists| && m in lists[x];
    var i, p :| 0 <= i <= last && p in run[i].procs && run[i].procs[p].messages == lists[x];
    RunKeepsInv(run, i);
    LogOnlyGrows(run, i, last);
    assert m in run[i].procs[p].messages && WasSent(run[i].log, m);
    var k :| 0 <= k < |run[i].log| && run[i].log[k].Sent? && run[i].log[k].m == m;
    assert run[last].log[k] == run[i].log[k];
  }

  lemma SameIdSameMessage(s: State, m: Message, m': Message)
    requires Inv(s) && WasSent(s.log, m) && WasSent(s.log, m') && m.Id() == m'.Id()
    ensures m == m'
  {
    var i :| 0 <= i < |s.log| && s.log[i].Sent? && s.log[i].m == m;
    var j :| 0 <= j < |s.log| && s.log[j].Sent? && s.log[j].m == m';
    assert i == j;
  }

  /**
   The total order of any snapshots of any run lists each collected message exactly once, and is
   the same for any other snapshots, in any order, that collect the same messages.
   */
  lemma TotalOrderIsCanonical(run: seq<State>, last: nat, lists: seq<seq<Message>>, r: seq<Message>,
                              lists': seq<seq<Message>>, r': seq<Message>)
    requires IsRun(run) && Snapshots(run, last, lists)
    requires IsTotalOrder(Flatten(lists), r) && IsTotalOrder(Flatten(lists'), r')
    requires forall m :: m in Flatten(lists) <==> m in Flatten(lists')
    ensures r == r' && (forall m :: m in r <==> m in Flatten(lists))
    ensures forall i, j :: 0 <= i < j < |r| ==> r[i] != r[j]
  {
    RunKeepsInv(run, last);
    forall m, m' | m in Flatten(lists) && m' in Flatten(lists) && m.Id() == m'.Id()
      ensures m == m'
    {
      CollectedWasSent(run, last, lists, m);
      CollectedWasSent(run, last, lists, m');
      SameIdSameMessage(run[last], m, m');
    }
    OrderIsCanonical(Flatten(lists), Flatten(lists'), r, r');
  }

  /** The total order extends happened-before: causes come first. */
  lemma TotalOrderExtendsCausality(run: seq<State>, last: nat, all: seq<Message>, r: seq<Message>, i: int, j: int,
                                   x: nat, y: nat)
    requires IsRun(run) && last < |run| && IsTotalOrder(all, r)
    requires HappenedBefore(run[last].log, i, j)
    requires 0 <= i < |run[last].log| && 0 <= j < |run[last].log|
    requires run[last].log[i].Sent? && run[last].log[j].Sent?
    requires x < |r| && y < |r| && r[x] == run[last].log[i].m && r[y] == run[last].log[j].m
    ensures x < y
  {
    RunKeepsInv(run, last);
    var c :| IsChain(run[last].log, c) && c[0] == i && c[|c| - 1] == j;
    ChainClimbs(run[last], c);
    assert !Before(r[y], r[x]) && r[x] != r[y];
  }
}
