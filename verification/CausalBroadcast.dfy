/**
 Causal broadcast with vector clocks.

 A clock is a map in which a missing entry reads as zero. `Node` is one node's code: its sender and
 its receive loop, which holds messages back until their causes have been delivered.
 */
module CausalBroadcast {

  type NodeId = string
  type Clock = map<NodeId, nat>

  datatype Message = Message(sender: NodeId, content: string, vc: Clock) {
    /** The message's position among its sender's messages, counting from one. */
    function Number(): nat { At(vc, sender) }
  }

  function At(c: Clock, k: NodeId): nat {
    if k in c then c[k] else 0
  }

  ghost predicate Leq(a: Clock, b: Clock) {
    forall k :: At(a, k) <= At(b, k)
  }

  function Bump(c: Clock, id: NodeId): Clock {
    c[id := At(c, id) + 1]
  }

  /** Entrywise maximum; an entry is created only to raise it above zero. */
  function Merge(a: Clock, b: Clock): (c: Clock)
    ensures forall k :: At(c, k) == if At(a, k) >= At(b, k) then At(a, k) else At(b, k)
  {
    map k | k in a.Keys + b.Keys && (k in a || b[k] > 0) :: if At(a, k) >= At(b, k) then At(a, k) else At(b, k)
  }

  /** Merging one more entry of `b` is one turn of the merge loop. */
  lemma MergeStep(a: Clock, b: Clock, keys: set<NodeId>, k: NodeId)
    requires k in keys && keys <= b.Keys
    ensures var c := Merge(a, b - keys);
            Merge(a, b - (keys - {k})) == if b[k] > At(c, k) then c[k := b[k]] else c
  {
    var c, d := Merge(a, b - keys), Merge(a, b - (keys - {k}));
    var e := if b[k] > At(c, k) then c[k := b[k]] else c;
    assert forall j :: j in d.Keys <==> j in e.Keys;
    assert forall j :: j in d.Keys ==> d[j] == e[j];
  }

  /** The next message from its sender, and nothing it depends on is missing. */
  predicate Ready(m: Message, vc: Clock) {
    && m.Number() == At(vc, m.sender) + 1
    && forall k :: k in m.vc && k != m.sender ==> m.vc[k] <= At(vc, k)
  }

  // ---------------------------------------------------------------- one node's code

  /** What a node's receive loop works on. */
  datatype Inbox = Inbox(vc: Clock, pending: seq<Message>, delivered: seq<Message>)

  function Deliver(b: Inbox, m: Message): Inbox {
    b.(vc := Merge(b.vc, m.vc), delivered := b.delivered + [m])
  }

  /** One pass over `todo` in order: deliver what is ready by then, keep the rest. */
  function Rescan(b: Inbox, todo: seq<Message>): Inbox
    decreases |todo|
  {
    if todo == [] then b
    else if Ready(todo[0], b.vc) then Rescan(Deliver(b, todo[0]), todo[1..])
    else Rescan(b.(pending := b.pending + [todo[0]]), todo[1..])
  }

  /** The effect of one message from the inbox when no send interrupts the loop. */
  function Received(b: Inbox, m: Message): Inbox {
    if Ready(m, b.vc) then Rescan(Deliver(b, m).(pending := []), b.pending)
    else b.(pending := b.pending + [m])
  }

  // ---------------------------------------------------------------- nothing is lost

  lemma {:induction false} RescanConserves(b: Inbox, todo: seq<Message>)
    ensures var r := Rescan(b, todo);
            && multiset(r.pending) + multiset(r.delivered)
               == multiset(b.pending) + multiset(b.delivered) + multiset(todo)
            && b.delivered <= r.delivered && Leq(b.vc, r.vc)
    decreases |todo|
  {
    if todo != [] {
      assert todo == [todo[0]] + todo[1..];
      if Ready(todo[0], b.vc) {
        RescanConserves(Deliver(b, todo[0]), todo[1..]);
      } else {
        RescanConserves(b.(pending := b.pending + [todo[0]]), todo[1..]);
      }
    }
  }

  /** Receiving a message neither loses nor duplicates any: it is delivered or waits. */
  lemma ReceivedConserves(b: Inbox, m: Message)
    ensures var r := Received(b, m);
            && multiset(r.pending) + multiset(r.delivered) == multiset(b.pending) + multiset(b.delivered) + multiset{m}
            && b.delivered <= r.delivered && Leq(b.vc, r.vc)
  {
    if Ready(m, b.vc) {
      RescanConserves(Deliver(b, m).(pending := []), b.pending);
    }
  }

  class Node {
    const id: NodeId
    var vc: Clock
    var pending: seq<Message>
    var delivered: seq<Message>

    ghost function View(): Inbox reads this { Inbox(vc, pending, delivered) }

    constructor (id: NodeId, ids: set<NodeId>)
      ensures this.id == id && vc == (map k | k in ids :: 0) && pending == [] && delivered == []
    {
      this.id := id;
      this.vc := map k | k in ids :: 0;
      this.pending := [];
      this.delivered := [];
    }

    /** The sender's critical section: count the message and stamp it with a copy of the clock. */
    method SendMessage(content: string) returns (m: Message)
      modifies this`vc
      ensures vc == Bump(old(vc), id) == old(vc)[id := (if id in old(vc) then old(vc)[id] else 0) + 1]
      ensures m.sender == id && m.content == content && m.vc == vc && !Ready(m, vc)
    {
      vc := vc[id := At(vc, id) + 1];
      m := Message(id, content, vc);
    }

    method IsCausallyReady(m: Message) returns (ready: bool)
      ensures ready == Ready(m, vc)
      ensures ready <==> && At(m.vc, m.sender) == At(vc, m.sender) + 1
                         && forall k :: k in m.vc && k != m.sender ==> m.vc[k] <= At(vc, k)
    {
      if At(m.vc, m.sender) != At(vc, m.sender) + 1 {
        return false;
      }
      var keys := m.vc.Keys;
      while keys != {}
        invariant keys <= m.vc.Keys
        invariant forall k :: k in m.vc && k !in keys && k != m.sender ==> m.vc[k] <= At(vc, k)
      {
        var k :| k in keys;
        if k != m.sender && m.vc[k] > At(vc, k) {
          return false;
        }
        keys := keys - {k};
      }
      return true;
    }

    /** The delivering critical section: raise the clock entry by entry, then append. */
    method DeliverNow(m: Message)
      modifies this`vc, this`delivered
      ensures View() == Deliver(old(View()), m) && delivered == old(delivered) + [m]
      ensures forall k :: At(vc, k) == if At(old(vc), k) >= At(m.vc, k) then At(old(vc), k) else At(m.vc, k)
    {
      var keys := m.vc.Keys;
      while keys != {}
        invariant keys <= m.vc.Keys && delivered == old(delivered)
        invariant vc == Merge(old(vc), m.vc - keys)
      {
        var k :| k in keys;
        MergeStep(old(vc), m.vc, keys, k);
        if m.vc[k] > At(vc, k) {
          vc := vc[k := m.vc[k]];
        }
        keys := keys - {k};
      }
      assert m.vc - keys == m.vc;
      delivered := delivered + [m];
    }

    /** One turn of the receive loop; a "STOP" message ends the loop and changes nothing. */
    method ProcessMessage(m: Message) returns (stop: bool)
      modifies this
      ensures stop <==> m.content == "STOP"
      ensures View() == if stop then old(View()) else Received(old(View()), m)
      ensures !stop && !Ready(m, old(vc)) ==>
                pending == old(pending) + [m] && delivered == old(delivered) && vc == old(vc)
      ensures !stop && Ready(m, old(vc)) ==> old(delivered) + [m] <= delivered
      ensures !stop ==>
                multiset(pending) + multiset(delivered) == old(multiset(pending) + multiset(delivered)) + multiset{m}
    {
      ReceivedConserves(View(), m);
      if Ready(m, vc) {
        RescanConserves(Deliver(View(), m).(pending := []), pending);
      }
      if m.content == "STOP" {
        return true;
      }
      var ready := IsCausallyReady(m);
      if !ready {
        pending := pending + [m];
        return false;
      }
      DeliverNow(m);
      ghost var start := View().(pending := []);
      var newPending: seq<Message> := [];
      for i := 0 to |pending|
        invariant pending == old(pending)
        invariant Rescan(start, pending) == Rescan(Inbox(vc, newPending, delivered), pending[i..])
      {
        assert pending[i..][0] == pending[i] && pending[i..][1..] == pending[i + 1..];
        var again := IsCausallyReady(pending[i]);
        if again {
          DeliverNow(pending[i]);
        } else {
          newPending := newPending + [pending[i]];
        }
      }
      pending := newPending;
      return false;
    }
  }
}
