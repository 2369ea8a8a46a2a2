/**
 What one pass over the pending messages achieves. The receive loop passes over them once after each
 delivery from the inbox; here is exactly when that leaves no ready message behind.
 */
module CausalPass {
  import opened CausalBroadcast

  ghost predicate NothingReady(b: Inbox) {
    forall i :: 0 <= i < |b.pending| ==> !Ready(b.pending[i], b.vc)
  }

  // ---------------------------------------------------------------- orders of delivery

  /** These messages can be delivered one after the other. */
  predicate InTurn(vc: Clock, ms: seq<Message>)
    decreases |ms|
  {
    ms == [] || (Ready(ms[0], vc) && InTurn(Merge(vc, ms[0].vc), ms[1..]))
  }

  function ClockAfter(vc: Clock, ms: seq<Message>): Clock
    decreases |ms|
  {
    if ms == [] then vc else ClockAfter(Merge(vc, ms[0].vc), ms[1..])
  }

  /** Some of the messages of `todo`, in the order they have there. */
  predicate Sublist(ms: seq<Message>, todo: seq<Message>)
    decreases |todo|
  {
    ms == [] || (todo != [] && ((ms[0] == todo[0] && Sublist(ms[1..], todo[1..])) || Sublist(ms, todo[1..])))
  }

  ghost predicate Among(ms: seq<Message>, todo: seq<Message>) {
    forall m :: m in ms ==> m in todo
  }

  /** No order of delivering messages of `todo` gets anywhere that delivering `ms` does not. */
  ghost predicate Greatest(vc: Clock, todo: seq<Message>, ms: seq<Message>) {
    forall ns :: Among(ns, todo) && InTurn(vc, ns) ==> Leq(ClockAfter(vc, ns), ClockAfter(vc, ms))
  }

  /** Going through the list once, in its own order, one can deliver as much as in any other order. */
  ghost predicate InListOrder(vc: Clock, todo: seq<Message>) {
    exists ms :: Sublist(ms, todo) && InTurn(vc, ms) && Greatest(vc, todo, ms)
  }

  lemma {:induction false} ClockGrows(vc: Clock, ms: seq<Message>)
    ensures Leq(vc, ClockAfter(vc, ms)) && forall m :: m in ms ==> Leq(m.vc, ClockAfter(vc, ms))
    decreases |ms|
  {
    if ms != [] {
      assert ms == [ms[0]] + ms[1..];
      ClockGrows(Merge(vc, ms[0].vc), ms[1..]);
    }
  }

  lemma {:induction false} OneMore(vc: Clock, ms: seq<Message>, m: Message)
    ensures ClockAfter(vc, ms + [m]) == Merge(ClockAfter(vc, ms), m.vc)
    ensures InTurn(vc, ms) && Ready(m, ClockAfter(vc, ms)) ==> InTurn(vc, ms + [m])
    decreases |ms|
  {
    if ms == [] {
      assert ms + [m] == [m] && [m][1..] == [];
    } else {
      assert (ms + [m])[1..] == ms[1..] + [m];
      OneMore(Merge(vc, ms[0].vc), ms[1..], m);
    }
  }

  /** A message ready at some point is, at any later point, still ready or already counted. */
  lemma ReadyOrCounted(m: Message, c: Clock, vc: Clock)
    requires Ready(m, c) && Leq(c, vc) && !Ready(m, vc)
    ensures Leq(Merge(c, m.vc), vc)
  {
    forall k
      ensures At(m.vc, k) <= At(vc, k)
    {
      assert At(c, k) <= At(vc, k) && At(c, m.sender) <= At(vc, m.sender);
    }
  }

  // ---------------------------------------------------------------- the pass

  /** What the pass delivers. */
  function Passed(vc: Clock, todo: seq<Message>): seq<Message>
    decreases |todo|
  {
    if todo == [] then []
    else if Ready(todo[0], vc) then [todo[0]] + Passed(Merge(vc, todo[0].vc), todo[1..])
    else Passed(vc, todo[1..])
  }

  /** What it leaves pending. */
  function Kept(vc: Clock, todo: seq<Message>): seq<Message>
    decreases |todo|
  {
    if todo == [] then []
    else if Ready(todo[0], vc) then Kept(Merge(vc, todo[0].vc), todo[1..])
    else [todo[0]] + Kept(vc, todo[1..])
  }

  function Reached(vc: Clock, todo: seq<Message>): Clock { ClockAfter(vc, Passed(vc, todo)) }

  lemma {:induction false} RescanIsPass(b: Inbox, todo: seq<Message>)
    ensures Rescan(b, todo)
         == Inbox(Reached(b.vc, todo), b.pending + Kept(b.vc, todo), b.delivered + Passed(b.vc, todo))
    decreases |todo|
  {
    if todo == [] {
      assert b.pending + [] == b.pending && b.delivered + [] == b.delivered;
    } else {
      PassStep(b.vc, todo);
      if Ready(todo[0], b.vc) {
        RescanIsPass(Deliver(b, todo[0]), todo[1..]);
        Regroup(b.delivered, todo[0], Passed(Merge(b.vc, todo[0].vc), todo[1..]));
      } else {
        RescanIsPass(b.(pending := b.pending + [todo[0]]), todo[1..]);
        Regroup(b.pending, todo[0], Kept(b.vc, todo[1..]));
      }
    }
  }

  lemma Regroup(a: seq<Message>, m: Message, c: seq<Message>)
    ensures a + [m] + c == a + ([m] + c)
  {
  }

  lemma {:induction false} PassIsInTurn(vc: Clock, todo: seq<Message>)
    ensures InTurn(vc, Passed(vc, todo)) && Sublist(Passed(vc, todo), todo)
    decreases |todo|
  {
    if todo != [] {
      if Ready(todo[0], vc) {
        var rest := Passed(Merge(vc, todo[0].vc), todo[1..]);
        PassIsInTurn(Merge(vc, todo[0].vc), todo[1..]);
        assert ([todo[0]] + rest)[1..] == rest;
      } else {
        PassIsInTurn(vc, todo[1..]);
      }
    }
  }

  lemma {:induction false} PassedOrKept(vc: Clock, todo: seq<Message>, m: Message)
    ensures m in todo <==> m in Passed(vc, todo) || m in Kept(vc, todo)
    decreases |todo|
  {
    if todo != [] {
      assert todo == [todo[0]] + todo[1..];
      PassedOrKept(if Ready(todo[0], vc) then Merge(vc, todo[0].vc) else vc, todo[1..], m);
    }
  }

  /** The pass is greedy: it gets at least as far as any choice from the list in list order. */
  lemma {:induction false} PassIsGreedy(c: Clock, ms: seq<Message>, vc: Clock, todo: seq<Message>)
    requires Leq(c, vc) && Sublist(ms, todo) && InTurn(c, ms)
    ensures Leq(ClockAfter(c, ms), Reached(vc, todo))
    decreases |todo|
  {
    if ms == [] {
      ClockGrows(vc, Passed(vc, todo));
    } else {
      var t, rest := todo[0], todo[1..];
      var vc' := if Ready(t, vc) then Merge(vc, t.vc) else vc;
      PassStep(vc, todo);
      if ms[0] == t && Sublist(ms[1..], rest) {
        StaysBehind(t, c, vc);
        PassIsGreedy(Merge(c, t.vc), ms[1..], vc', rest);
      } else {
        PassIsGreedy(c, ms, vc', rest);
      }
    }
  }

  lemma StaysBehind(t: Message, c: Clock, vc: Clock)
    requires Leq(c, vc) && Ready(t, c)
    ensures Leq(Merge(c, t.vc), if Ready(t, vc) then Merge(vc, t.vc) else vc)
  {
    if Ready(t, vc) {
      assert forall k :: At(c, k) <= At(vc, k);
    } else {
      ReadyOrCounted(t, c, vc);
    }
  }

  lemma PassStep(vc: Clock, todo: seq<Message>)
    requires todo != []
    ensures Reached(vc, todo) == Reached(if Ready(todo[0], vc) then Merge(vc, todo[0].vc) else vc, todo[1..])
  {
    if Ready(todo[0], vc) {
      var rest := Passed(Merge(vc, todo[0].vc), todo[1..]);
      assert ([todo[0]] + rest)[1..] == rest;
    }
  }

  /** The pass from `vc` leaves nothing ready. */
  ghost predicate Drained(vc: Clock, todo: seq<Message>) {
    forall m :: m in Kept(vc, todo) ==> !Ready(m, Reached(vc, todo))
  }

  /** If it leaves nothing ready, no order of delivery gets farther. */
  lemma {:induction false} NothingBeatsIt(vc: Clock, todo: seq<Message>, c: Clock, ns: seq<Message>)
    requires Drained(vc, todo) && Leq(c, Reached(vc, todo)) && Among(ns, todo) && InTurn(c, ns)
    ensures Leq(ClockAfter(c, ns), Reached(vc, todo))
    decreases |ns|
  {
    if ns != [] {
      var m := ns[0];
      assert m in ns;
      PassedOrKept(vc, todo, m);
      if m in Kept(vc, todo) {
        ReadyOrCounted(m, c, Reached(vc, todo));
      } else {
        ClockGrows(vc, Passed(vc, todo));
      }
      assert Among(ns[1..], todo);
      NothingBeatsIt(vc, todo, Merge(c, m.vc), ns[1..]);
    }
  }

  /** If it leaves something ready, delivering that too gets farther. */
  lemma LeftoverBeatsIt(vc: Clock, todo: seq<Message>, m: Message) returns (ns: seq<Message>)
    requires m in Kept(vc, todo) && Ready(m, Reached(vc, todo))
    ensures Among(ns, todo) && InTurn(vc, ns) && !Leq(ClockAfter(vc, ns), Reached(vc, todo))
  {
    ns := Passed(vc, todo) + [m];
    PassIsInTurn(vc, todo);
    OneMore(vc, Passed(vc, todo), m);
    forall x | x in ns
      ensures x in todo
    {
      PassedOrKept(vc, todo, x);
    }
    assert At(ClockAfter(vc, ns), m.sender) > At(Reached(vc, todo), m.sender);
  }

  lemma DrainedIffInListOrder(vc: Clock, todo: seq<Message>)
    ensures Drained(vc, todo) <==> InListOrder(vc, todo)
  {
    var passed := Passed(vc, todo);
    PassIsInTurn(vc, todo);
    if Drained(vc, todo) {
      ClockGrows(vc, passed);
      forall ns | Among(ns, todo) && InTurn(vc, ns)
        ensures Leq(ClockAfter(vc, ns), ClockAfter(vc, passed))
      {
        NothingBeatsIt(vc, todo, vc, ns);
      }
      assert Greatest(vc, todo, passed);
    } else {
      var m :| m in Kept(vc, todo) && Ready(m, Reached(vc, todo));
      var ns := LeftoverBeatsIt(vc, todo, m);
      forall ms | Sublist(ms, todo) && InTurn(vc, ms)
        ensures !Greatest(vc, todo, ms)
      {
        PassIsGreedy(vc, ms, vc, todo);
        if Leq(ClockAfter(vc, ns), ClockAfter(vc, ms)) {
          LeqChains(ClockAfter(vc, ns), ClockAfter(vc, ms), Reached(vc, todo));
        }
      }
    }
  }

  lemma LeqChains(a: Clock, b: Clock, c: Clock)
    requires Leq(a, b) && Leq(b, c)
    ensures Leq(a, c)
  {
    forall k
      ensures At(a, k) <= At(c, k)
    {
      assert At(a, k) <= At(b, k) <= At(c, k);
    }
  }

  /**
   Receiving a message leaves nothing ready exactly when, if the message is delivered, what it sets free
   stands in the pending list in an order in which it can be delivered, and otherwise when nothing was
   ready before.
   */
  lemma OnePassSufficesIff(b: Inbox, m: Message)
    ensures NothingReady(Received(b, m))
       <==> if Ready(m, b.vc) then InListOrder(Merge(b.vc, m.vc), b.pending) else NothingReady(b)
  {
    if Ready(m, b.vc) {
      ReceivedIsPass(b, m);
      DrainedIffInListOrder(Merge(b.vc, m.vc), b.pending);
    } else {
      var pending := Received(b, m).pending;
      assert pending[|b.pending|] == m && forall i :: 0 <= i < |b.pending| ==> pending[i] == b.pending[i];
    }
  }

  lemma ReceivedIsPass(b: Inbox, m: Message)
    requires Ready(m, b.vc)
    ensures NothingReady(Received(b, m)) <==> Drained(Merge(b.vc, m.vc), b.pending)
  {
    var r, vc := Received(b, m), Merge(b.vc, m.vc);
    RescanIsPass(Deliver(b, m).(pending := []), b.pending);
    assert r.vc == Reached(vc, b.pending) && r.pending == [] + Kept(vc, b.pending) == Kept(vc, b.pending);
  }

  // ---------------------------------------------------------------- lists without two copies of a message

  /** Some order of delivering messages of `todo` gets to `m`. */
  ghost predicate Deliverable(vc: Clock, todo: seq<Message>, m: Message) {
    exists ns :: Among(ns, todo) && InTurn(vc, ns) && m in ns
  }

  /** The message knows of `d`, or of something later from `d`'s sender. */
  predicate DependsOn(m: Message, d: Message) {
    d.Number() <= At(m.vc, d.sender)
  }

  /** No deliverable message stands before a deliverable one it depends on. */
  ghost predicate CausesFirst(vc: Clock, all: seq<Message>, todo: seq<Message>) {
    forall i, j :: 0 <= i < j < |todo| && Deliverable(vc, all, todo[i]) && Deliverable(vc, all, todo[j]) ==>
      !DependsOn(todo[i], todo[j])
  }

  predicate Same(m: Message, d: Message) { m.sender == d.sender && m.Number() == d.Number() }

  predicate NoCopies(todo: seq<Message>) {
    forall i, j :: 0 <= i < j < |todo| ==> !Same(todo[i], todo[j])
  }

  /** Delivering a message makes nothing ready but what depends on it. */
  lemma StaysUnready(m: Message, d: Message, vc: Clock)
    requires Ready(d, vc) && !Ready(m, vc) && !DependsOn(m, d)
    ensures !Ready(m, Merge(vc, d.vc))
  {
    var vc' := Merge(vc, d.vc);
    assert forall k :: k != d.sender ==> At(vc', k) == At(vc, k);
    assert At(vc', d.sender) == d.Number();
  }

  lemma DeliverableNext(vc: Clock, all: seq<Message>, done: seq<Message>, m: Message)
    requires Among(done, all) && InTurn(vc, done) && m in all && Ready(m, ClockAfter(vc, done))
    ensures Deliverable(vc, all, m) && Among(done + [m], all) && InTurn(vc, done + [m])
    ensures ClockAfter(vc, done + [m]) == Merge(ClockAfter(vc, done), m.vc)
  {
    OneMore(vc, done, m);
    var ns := done + [m];
    assert m in ns && Among(ns, all) && InTurn(vc, ns);
  }

  /** `kept` was passed over and is not ready; it depends on nothing deliverable that is still to come. */
  ghost predicate Settled(vc: Clock, all: seq<Message>, kept: seq<Message>, now: Clock, todo: seq<Message>) {
    && Among(kept, all) && Among(todo, all)
    && (forall p :: p in kept ==> !Ready(p, now))
    && (forall p, t :: p in kept && t in todo && Deliverable(vc, all, p) && Deliverable(vc, all, t) ==>
          !DependsOn(p, t))
  }

  lemma DeliveryKeepsSettled(vc: Clock, all: seq<Message>, done: seq<Message>, d: Message, p: Message)
    requires Among(done, all) && InTurn(vc, done) && d in all && Ready(d, ClockAfter(vc, done))
    requires p in all && !Ready(p, ClockAfter(vc, done))
    requires Deliverable(vc, all, p) && Deliverable(vc, all, d) ==> !DependsOn(p, d)
    ensures !Ready(p, Merge(ClockAfter(vc, done), d.vc))
  {
    DeliverableNext(vc, all, done, d);
    if Ready(p, Merge(ClockAfter(vc, done), d.vc)) {
      DeliverableNext(vc, all, done + [d], p);
      StaysUnready(p, d, ClockAfter(vc, done));
    }
  }

  lemma {:induction false} PassSettles(vc: Clock, all: seq<Message>, done: seq<Message>, kept: seq<Message>,
                                       todo: seq<Message>)
    requires Among(done, all) && InTurn(vc, done) && CausesFirst(vc, all, todo)
    requires Settled(vc, all, kept, ClockAfter(vc, done), todo)
    ensures forall p :: p in kept + Kept(ClockAfter(vc, done), todo) ==> !Ready(p, Reached(ClockAfter(vc, done), todo))
    decreases |todo|
  {
    var now := ClockAfter(vc, done);
    if todo == [] {
      assert kept + [] == kept;
    } else {
      var d, rest := todo[0], todo[1..];
      assert d in todo;
      PassStep(now, todo);
      if Ready(d, now) {
        DeliverOne(vc, all, done, kept, todo);
        PassSettles(vc, all, done + [d], kept, rest);
      } else {
        KeepOne(vc, all, kept, now, todo);
        PassSettles(vc, all, done, kept + [d], rest);
        assert kept + [d] + Kept(now, rest) == kept + ([d] + Kept(now, rest));
      }
    }
  }

  lemma DeliverOne(vc: Clock, all: seq<Message>, done: seq<Message>, kept: seq<Message>, todo: seq<Message>)
    requires Among(done, all) && InTurn(vc, done) && todo != [] && Ready(todo[0], ClockAfter(vc, done))
    requires Settled(vc, all, kept, ClockAfter(vc, done), todo) && CausesFirst(vc, all, todo)
    ensures Among(done + [todo[0]], all) && InTurn(vc, done + [todo[0]]) && CausesFirst(vc, all, todo[1..])
    ensures ClockAfter(vc, done + [todo[0]]) == Merge(ClockAfter(vc, done), todo[0].vc)
    ensures Settled(vc, all, kept, ClockAfter(vc, done + [todo[0]]), todo[1..])
  {
    var d := todo[0];
    assert d in todo;
    DeliverableNext(vc, all, done, d);
    forall p | p in kept
      ensures !Ready(p, Merge(ClockAfter(vc, done), d.vc))
    {
      DeliveryKeepsSettled(vc, all, done, d, p);
    }
  }

  lemma KeepOne(vc: Clock, all: seq<Message>, kept: seq<Message>, now: Clock, todo: seq<Message>)
    requires todo != [] && CausesFirst(vc, all, todo) && Settled(vc, all, kept, now, todo) && !Ready(todo[0], now)
    ensures Settled(vc, all, kept + [todo[0]], now, todo[1..]) && CausesFirst(vc, all, todo[1..])
  {
    var d, rest := todo[0], todo[1..];
    assert d in todo;
    forall t | t in rest && Deliverable(vc, all, d) && Deliverable(vc, all, t)
      ensures !DependsOn(d, t)
    {
      var j :| 0 <= j < |rest| && rest[j] == t;
      assert todo[j + 1] == t;
    }
  }

  /** Whatever the clock has come to count on the way was delivered on the way. */
  lemma {:induction false} CountedWasDelivered(vc: Clock, ms: seq<Message>, s: NodeId, n: nat) returns (m: Message)
    requires InTurn(vc, ms) && At(vc, s) < n <= At(ClockAfter(vc, ms), s)
    ensures m in ms && m.sender == s && m.Number() == n
    decreases |ms|
  {
    if ms[0].sender == s && ms[0].Number() == n {
      m := ms[0];
    } else {
      m := CountedWasDelivered(Merge(vc, ms[0].vc), ms[1..], s, n);
    }
  }

  lemma {:induction false} DeliverableIsNew(vc: Clock, ns: seq<Message>, m: Message)
    requires InTurn(vc, ns) && m in ns
    ensures At(vc, m.sender) < m.Number()
    decreases |ns|
  {
    if m != ns[0] {
      DeliverableIsNew(Merge(vc, ns[0].vc), ns[1..], m);
    }
  }

  /** A message not ready when its place comes up is not delivered: what is stands elsewhere. */
  lemma {:induction false} PassedElsewhere(vc: Clock, a: seq<Message>, d: Message, c: seq<Message>, m: Message)
    requires !Ready(d, Reached(vc, a)) && m in Passed(vc, a + [d] + c)
    ensures m in a || m in c
    decreases |a|
  {
    var todo := a + [d] + c;
    if a == [] {
      assert todo[1..] == c;
      PassedOrKept(vc, c, m);
    } else {
      assert todo[1..] == a[1..] + [d] + c;
      PassStep(vc, a);
      var vc' := if Ready(a[0], vc) then Merge(vc, a[0].vc) else vc;
      if m != a[0] {
        PassedElsewhere(vc', a[1..], d, c, m);
      }
    }
  }

  /** In a list without copies, everything deliverable must be delivered where it stands. */
  lemma DrainedDeliversThere(vc: Clock, a: seq<Message>, d: Message, c: seq<Message>)
    requires var todo := a + [d] + c; Drained(vc, todo) && NoCopies(todo) && Deliverable(vc, todo, d)
    ensures Ready(d, Reached(vc, a))
  {
    var m := CopyIsDelivered(vc, a + [d] + c, d);
    if !Ready(d, Reached(vc, a)) {
      PassedElsewhere(vc, a, d, c, m);
      NoOtherCopy(a, d, c, m);
    }
  }

  lemma CopyIsDelivered(vc: Clock, todo: seq<Message>, d: Message) returns (m: Message)
    requires Drained(vc, todo) && Deliverable(vc, todo, d)
    ensures m in Passed(vc, todo) && Same(m, d)
  {
    var ns :| Among(ns, todo) && InTurn(vc, ns) && d in ns;
    DeliverableIsNew(vc, ns, d);
    ClockGrows(vc, Passed(vc, todo));
    NothingBeatsIt(vc, todo, vc, ns);
    ClockGrows(vc, ns);
    LeqChains(d.vc, ClockAfter(vc, ns), Reached(vc, todo));
    PassIsInTurn(vc, todo);
    m := CountedWasDelivered(vc, Passed(vc, todo), d.sender, d.Number());
  }

  lemma NoOtherCopy(a: seq<Message>, d: Message, c: seq<Message>, m: Message)
    requires NoCopies(a + [d] + c) && (m in a || m in c)
    ensures !Same(m, d)
  {
    var todo := a + [d] + c;
    assert todo[|a|] == d;
    if m in a {
      var k :| 0 <= k < |a| && a[k] == m;
      assert todo[k] == m;
    } else {
      var k :| 0 <= k < |c| && c[k] == m;
      assert todo[|a| + 1 + k] == m;
    }
  }

  lemma NoCopyAcross(a: seq<Message>, d: Message, c: seq<Message>, m: Message, e: Message)
    requires NoCopies(a + [d] + c) && m in a && e in c
    ensures !Same(m, e)
  {
    var todo := a + [d] + c;
    var k :| 0 <= k < |a| && a[k] == m;
    var l :| 0 <= l < |c| && c[l] == e;
    assert todo[k] == m && todo[|a| + 1 + l] == e;
  }

  lemma CauseIsCounted(d: Message, e: Message, vc: Clock)
    requires Ready(d, vc) && DependsOn(d, e) && !Same(d, e)
    ensures e.Number() <= At(vc, e.sender)
  {
  }

  /** A message delivered where it stands depends on nothing new that comes after it. */
  lemma CausesStandAhead(vc: Clock, a: seq<Message>, d: Message, c: seq<Message>, e: Message)
    requires Ready(d, Reached(vc, a)) && NoCopies(a + [d] + c) && e in c && At(vc, e.sender) < e.Number()
    ensures !DependsOn(d, e)
  {
    if DependsOn(d, e) {
      NoOtherCopy(a, d, c, e);
      CauseIsCounted(d, e, Reached(vc, a));
      PassIsInTurn(vc, a);
      var m := CountedWasDelivered(vc, Passed(vc, a), e.sender, e.Number());
      PassedOrKept(vc, a, m);
      NoCopyAcross(a, d, c, m, e);
    }
  }

  lemma OrderedIsDrained(vc: Clock, todo: seq<Message>)
    requires CausesFirst(vc, todo, todo)
    ensures Drained(vc, todo)
  {
    PassSettles(vc, todo, [], [], todo);
    assert [] + Kept(vc, todo) == Kept(vc, todo);
  }

  lemma SplitAt(todo: seq<Message>, i: nat, j: nat)
    requires i < j < |todo|
    ensures todo == todo[..i] + [todo[i]] + todo[i + 1..] && todo[j] in todo[i + 1..]
  {
    assert todo[j] == todo[i + 1..][j - i - 1];
  }

  lemma DeliverableInListIsNew(vc: Clock, todo: seq<Message>, m: Message)
    requires Deliverable(vc, todo, m)
    ensures At(vc, m.sender) < m.Number()
  {
    var ns :| Among(ns, todo) && InTurn(vc, ns) && m in ns;
    DeliverableIsNew(vc, ns, m);
  }

  lemma DrainedIsOrdered(vc: Clock, todo: seq<Message>)
    requires Drained(vc, todo) && NoCopies(todo)
    ensures CausesFirst(vc, todo, todo)
  {
    forall i, j | 0 <= i < j < |todo| && Deliverable(vc, todo, todo[i]) && Deliverable(vc, todo, todo[j])
      ensures !DependsOn(todo[i], todo[j])
    {
      SplitAt(todo, i, j);
      DrainedDeliversThere(vc, todo[..i], todo[i], todo[i + 1..]);
      DeliverableInListIsNew(vc, todo, todo[j]);
      CausesStandAhead(vc, todo[..i], todo[i], todo[i + 1..], todo[j]);
    }
  }

  /**
   When no two pending messages are copies of one another, delivering a message leaves nothing ready
   exactly when no deliverable message stands before a deliverable one it depends on.
   */
  lemma OnePassSufficesIffCausesFirst(b: Inbox, m: Message)
    requires Ready(m, b.vc) && NoCopies(b.pending)
    ensures NothingReady(Received(b, m)) <==> CausesFirst(Merge(b.vc, m.vc), b.pending, b.pending)
  {
    var vc := Merge(b.vc, m.vc);
    ReceivedIsPass(b, m);
    if CausesFirst(vc, b.pending, b.pending) {
      OrderedIsDrained(vc, b.pending);
    } else if Drained(vc, b.pending) {
      DrainedIsOrdered(vc, b.pending);
    }
  }

  // ---------------------------------------------------------------- a pass that leaves something

  /** Message `n` of sender "s", which knows of nobody else. */
  function Nth(n: nat): Message { Message("s", "", map["s" := n]) }

  lemma NthReady(n: nat, vc: Clock)
    ensures Ready(Nth(n), vc) <==> n == At(vc, "s") + 1
    ensures At(Merge(vc, Nth(n).vc), "s") == if At(vc, "s") >= n then At(vc, "s") else n
  {
  }

  /**
   One pass can leave a ready message behind, and the loop does not look at it again before another
   message is delivered: messages 3, 2, 1 arrive at a node that has nothing of "s".
   */
  lemma OnePassCanLeaveReady(vc: Clock)
    requires At(vc, "s") == 0
    ensures var b := Received(Received(Received(Inbox(vc, [], []), Nth(3)), Nth(2)), Nth(1));
            b.delivered == [Nth(1), Nth(2)] && b.pending == [Nth(3)] && Ready(Nth(3), b.vc)
  {
    TwoWait(vc);
    NthReady(1, vc);
    LeavesThird(Deliver(Inbox(vc, [], []), Nth(1)));
  }

  lemma TwoWait(vc: Clock)
    requires At(vc, "s") == 0
    ensures Received(Received(Inbox(vc, [], []), Nth(3)), Nth(2)) == Inbox(vc, [Nth(3), Nth(2)], [])
  {
    NthReady(3, vc);
    NthReady(2, vc);
    assert [] + [Nth(3)] + [Nth(2)] == [Nth(3), Nth(2)];
  }

  lemma LeavesThird(b: Inbox)
    requires At(b.vc, "s") == 1 && b.pending == []
    ensures var r := Rescan(b, [Nth(3), Nth(2)]);
            r.delivered == b.delivered + [Nth(2)] && r.pending == [Nth(3)] && Ready(Nth(3), r.vc)
  {
    NthReady(3, b.vc);
    NthReady(2, b.vc);
    var b2 := b.(pending := [Nth(3)]);
    assert [Nth(3), Nth(2)][1..] == [Nth(2)];
    assert Rescan(b, [Nth(3), Nth(2)]) == Rescan(b2, [Nth(2)]);
    assert [Nth(2)][1..] == [];
    assert Rescan(b2, [Nth(2)]) == Deliver(b2, Nth(2));
    NthReady(3, Deliver(b2, Nth(2)).vc);
  }
}
