/**
 The sequence-number buffer: messages of a partition are delivered in number order, later numbers
 wait, and a timer skips over a number that does not come.
 */
module ReorderBuffer {
  import FiniteSets

  type Key = string

  datatype Message = Message(key: Key, number: int, content: string)

  const MAX_BUFFER_SIZE := 100
  const TIMEOUT := 500

  /** `next` is the number expected next, `last` the time of the last delivery. */
  datatype Partition = Partition(next: int, pending: map<int, Message>, last: int)

  /** A partition's new state and what it put on the delivery channel. */
  datatype Effect = Effect(p: Partition, sent: seq<Message>)

  function Fresh(now: int): Partition { Partition(1, map[], now) }

  /** Deliver from the buffer for as long as the next number is there. */
  function Drain(p: Partition, now: int): Effect
    decreases p.pending.Keys
  {
    if p.next in p.pending then
      var rest := Drain(Partition(p.next + 1, p.pending - {p.next}, now), now);
      Effect(rest.p, [p.pending[p.next]] + rest.sent)
    else Effect(p, [])
  }

  /** An arrival: deliver and drain, keep for later, or drop as old. */
  function Add(p: Partition, m: Message, now: int): Effect {
    if m.number == p.next then
      var rest := Drain(Partition(p.next + 1, p.pending, now), now);
      Effect(rest.p, [m] + rest.sent)
    else if m.number > p.next then Effect(p.(pending := p.pending[m.number := m]), [])
    else Effect(p, [])
  }

  /**
   What an arrival does. The number that is due is delivered, and after it the waiting messages with the
   numbers that follow on without a gap, each as it was buffered; these wait no longer. A later number
   waits, in place of an earlier copy. An older one changes nothing.
   */
  ghost predicate Arrived(p: Partition, m: Message, now: int, p': Partition, sent: seq<Message>) {
    if m.number == p.next then
      && |sent| > 0 && sent[0] == m && p'.next == p.next + |sent| && p'.last == now
      && (forall n :: p.next < n < p'.next ==> n in p.pending && sent[n - p.next] == p.pending[n])
      && p'.next !in p.pending
      && p'.pending == map n | n in p.pending && !(p.next < n < p'.next) :: p.pending[n]
    else if m.number > p.next then
      && sent == [] && p'.next == p.next && p'.last == p.last
      && p'.pending == p.pending[m.number := m]
    else p' == p && sent == []
  }

  /** What waits without a gap from `next` on has been delivered, as it was buffered. */
  ghost predicate DrainedTo(p: Partition, now: int, e: Effect) {
    && e.p.next == p.next + |e.sent| && e.p.next !in p.pending
    && e.p.last == (if e.sent == [] then p.last else now)
    && (forall n :: p.next <= n < e.p.next ==> n in p.pending && e.sent[n - p.next] == p.pending[n])
    && e.p.pending == map n | n in p.pending && !(p.next <= n < e.p.next) :: p.pending[n]
  }

  lemma {:induction false} DrainDelivers(p: Partition, now: int)
    ensures DrainedTo(p, now, Drain(p, now))
    decreases p.pending.Keys
  {
    if p.next in p.pending {
      var p' := Partition(p.next + 1, p.pending - {p.next}, now);
      DrainDelivers(p', now);
      var e, rest := Drain(p, now), Drain(p', now);
      forall n | p.next < n < e.p.next
        ensures n in p.pending && e.sent[n - p.next] == p.pending[n]
      {
        assert n in p'.pending && e.sent[n - p.next] == rest.sent[n - p'.next];
      }
    }
  }

  lemma AddDelivers(p: Partition, m: Message, now: int)
    ensures var e := Add(p, m, now); Arrived(p, m, now, e.p, e.sent)
  {
    if m.number == p.next {
      var p' := Partition(p.next + 1, p.pending, now);
      DrainDelivers(p', now);
      var e, rest := Add(p, m, now), Drain(p', now);
      forall n | p.next < n < e.p.next
        ensures n in p.pending && e.sent[n - p.next] == p.pending[n]
      {
        assert n in p'.pending && e.sent[n - p.next] == rest.sent[n - p'.next];
      }
    }
  }

  lemma HasLeast(s: set<int>)
    requires s != {}
    ensures exists n :: n in s && forall x :: x in s ==> n <= x
  {
    var y := FiniteSets.Pick(s);
    if s != {y} {
      HasLeast(s - {y});
      var n :| n in s - {y} && forall x :: x in s - {y} ==> n <= x;
      var m := if y <= n then y else n;
      assert forall x :: x in s ==> x == y || x in s - {y};
      assert m in s && forall x :: x in s ==> m <= x;
    }
  }

  ghost function Least(s: set<int>): (n: int)
    requires s != {}
    ensures n in s && forall x :: x in s ==> n <= x
  {
    HasLeast(s);
    var n :| n in s && forall x :: x in s ==> n <= x;
    n
  }

  predicate Overdue(p: Partition, now: int) {
    now - p.last > TIMEOUT && |p.pending| > 0
  }

  /** The timer's first half: jump to the least waiting number and deliver that one message. */
  ghost function Skip(p: Partition, now: int): Effect {
    if Overdue(p, now) then
      assert p.pending.Keys != {};
      var n := Least(p.pending.Keys);
      Effect(Partition(n + 1, p.pending - {n}, now), [p.pending[n]])
    else Effect(p, [])
  }

  /** The timer's second half: an overfull buffer drops its older part. */
  function Trim(p: Partition): Partition {
    if |p.pending| > MAX_BUFFER_SIZE
    then p.(pending := map n | n in p.pending && n >= p.next + MAX_BUFFER_SIZE / 2 :: p.pending[n])
    else p
  }

  ghost function Timer(p: Partition, now: int): Effect {
    var e := Skip(p, now);
    Effect(Trim(e.p), e.sent)
  }

  /**
   What a timer turn does. More than 500 milliseconds after the last delivery it delivers the least waiting
   message and goes on behind it. Of more than 100 messages that then wait it keeps those 50 or more ahead.
   */
  ghost predicate TimedOut(p: Partition, now: int, p': Partition, sent: seq<Message>) {
    && (now - p.last <= 500 || p.pending == map[] ==>
          sent == [] && p'.next == p.next && p'.last == p.last && Thinned(p.pending, p.next, p'.pending))
    && (now - p.last > 500 && p.pending != map[] ==>
          exists n :: n in p.pending && (forall x :: x in p.pending ==> n <= x)
            && sent == [p.pending[n]] && p'.next == n + 1 && p'.last == now
            && Thinned(p.pending - {n}, n + 1, p'.pending))
  }

  ghost predicate Thinned(pending: map<int, Message>, next: int, after: map<int, Message>) {
    if |pending| <= 100 then after == pending
    else after == map n | n in pending && n >= next + 50 :: pending[n]
  }

  lemma TimerTimesOut(p: Partition, now: int)
    ensures var e := Timer(p, now); TimedOut(p, now, e.p, e.sent)
  {
  }

  // ---------------------------------------------------------------- without timeouts

  /**
   After the numbers in `arrived`: exactly 1..next-1 were delivered, in order; `next` has not
   arrived; and exactly the later arrivals wait.
   */
  ghost predicate Exact(p: Partition, sent: seq<Message>, arrived: set<int>) {
    && p.next >= 1 && |sent| == p.next - 1
    && (forall i :: 0 <= i < |sent| ==> sent[i].number == i + 1)
    && (forall n :: 1 <= n < p.next ==> n in arrived)
    && p.next !in arrived
    && (forall n :: n in p.pending <==> n in arrived && n > p.next)
    && (forall n :: n in p.pending ==> p.pending[n].number == n)
  }

  /** As `Exact`, before the buffer is drained: `next` itself may already be waiting. */
  ghost predicate Draining(p: Partition, sent: seq<Message>, arrived: set<int>) {
    && p.next >= 1 && |sent| == p.next - 1
    && (forall i :: 0 <= i < |sent| ==> sent[i].number == i + 1)
    && (forall n :: 1 <= n < p.next ==> n in arrived)
    && (forall n :: n in p.pending <==> n in arrived && n >= p.next)
    && (forall n :: n in p.pending ==> p.pending[n].number == n)
  }

  lemma {:induction false} DrainIsExact(p: Partition, sent: seq<Message>, arrived: set<int>, now: int)
    requires Draining(p, sent, arrived)
    ensures Exact(Drain(p, now).p, sent + Drain(p, now).sent, arrived)
    decreases p.pending.Keys
  {
    if p.next in p.pending {
      var p', m := Partition(p.next + 1, p.pending - {p.next}, now), p.pending[p.next];
      DrainIsExact(p', sent + [m], arrived, now);
      assert sent + [m] + Drain(p', now).sent == sent + Drain(p, now).sent;
    } else {
      assert sent + [] == sent;
    }
  }

  lemma AddIsExact(p: Partition, sent: seq<Message>, arrived: set<int>, m: Message, now: int)
    requires Exact(p, sent, arrived)
    ensures var e := Add(p, m, now); Exact(e.p, sent + e.sent, arrived + {m.number})
  {
    if m.number == p.next {
      var p' := Partition(p.next + 1, p.pending, now);
      DrainIsExact(p', sent + [m], arrived + {m.number}, now);
      assert sent + [m] + Drain(p', now).sent == sent + Add(p, m, now).sent;
    } else {
      assert sent + [] == sent;
    }
  }

  // ---------------------------------------------------------------- with timeouts

  predicate Increasing(sent: seq<Message>) {
    forall i, j :: 0 <= i < j < |sent| ==> sent[i].number < sent[j].number
  }

  /** Deliveries so far climb, and the last one was the number before `next`. */
  ghost predicate Ahead(p: Partition, sent: seq<Message>) {
    && Increasing(sent)
    && p.next >= 1 && (p.next > 1 ==> sent != [])
    && (sent != [] ==> sent[|sent| - 1].number == p.next - 1)
    && (forall n :: n in p.pending ==> n > 1 && p.pending[n].number == n)
  }

  /** A number already passed is still waiting. */
  ghost predicate Stale(p: Partition) {
    exists n :: n in p.pending && n < p.next
  }

  /** A second copy of the number that is due, while the first copy still waits after a skip. */
  predicate Repeats(p: Partition, m: Message) {
    m.number == p.next && p.next in p.pending
  }

  lemma AheadGrows(sent: seq<Message>, m: Message)
    requires Increasing(sent) && (sent != [] ==> sent[|sent| - 1].number < m.number)
    ensures Increasing(sent + [m])
  {
    var all := sent + [m];
    forall i, j | 0 <= i < j < |all|
      ensures all[i].number < all[j].number
    {
      assert i < |sent| - 1 ==> sent[i].number < sent[|sent| - 1].number;
    }
  }

  lemma {:induction false} DrainStaysAhead(p: Partition, sent: seq<Message>, now: int)
    requires Ahead(p, sent)
    ensures Ahead(Drain(p, now).p, sent + Drain(p, now).sent)
    decreases p.pending.Keys
  {
    if p.next in p.pending {
      var p', m := Partition(p.next + 1, p.pending - {p.next}, now), p.pending[p.next];
      AheadGrows(sent, m);
      DrainStaysAhead(p', sent + [m], now);
      assert sent + [m] + Drain(p', now).sent == sent + Drain(p, now).sent;
    } else {
      assert sent + [] == sent;
    }
  }

  /** Draining only looks upwards: what lies below `next` stays as it is. */
  lemma {:induction false} DrainKeepsBelow(p: Partition, n: int, now: int)
    requires n < p.next
    ensures var q := Drain(p, now).p; n < q.next && (n in q.pending <==> n in p.pending)
    ensures n in p.pending ==> Drain(p, now).p.pending[n] == p.pending[n]
    decreases p.pending.Keys
  {
    if p.next in p.pending {
      DrainKeepsBelow(Partition(p.next + 1, p.pending - {p.next}, now), n, now);
    }
  }

  /** It leaves nothing behind: all that waits afterwards waited before, and is new only above. */
  lemma {:induction false} DrainLeavesNothing(p: Partition, n: int, now: int)
    requires n in Drain(p, now).p.pending
    ensures n in p.pending && Drain(p, now).p.pending[n] == p.pending[n]
    ensures n < Drain(p, now).p.next ==> n < p.next
    decreases p.pending.Keys
  {
    if p.next in p.pending {
      DrainLeavesNothing(Partition(p.next + 1, p.pending - {p.next}, now), n, now);
    }
  }

  lemma DrainKeepsStale(p: Partition, now: int)
    ensures Stale(Drain(p, now).p) <==> Stale(p)
    ensures Drain(p, now).p.pending.Keys <= p.pending.Keys
  {
    var q := Drain(p, now).p;
    forall n | n in q.pending
      ensures n in p.pending && (n < q.next ==> n < p.next)
    {
      DrainLeavesNothing(p, n, now);
    }
    if Stale(p) {
      var n :| n in p.pending && n < p.next;
      DrainKeepsBelow(p, n, now);
    }
  }

  /**
   No arrival breaks the order. It leaves a passed number waiting exactly when one waited before, or
   when it repeats a waiting number that is due.
   */
  lemma ArrivalStaysAhead(p: Partition, sent: seq<Message>, m: Message, now: int)
    requires Ahead(p, sent)
    ensures var e := Add(p, m, now); Ahead(e.p, sent + e.sent) && (Stale(e.p) <==> Stale(p) || Repeats(p, m))
    ensures Add(p, m, now).p.pending.Keys <= p.pending.Keys + {m.number}
  {
    if m.number == p.next {
      DueStaysAhead(p, sent, m, now);
      DrainKeepsStale(Partition(p.next + 1, p.pending, now), now);
      PassOne(p, now);
    } else {
      assert sent + [] == sent;
      AddedAbove(p, m, now);
    }
  }

  lemma DueStaysAhead(p: Partition, sent: seq<Message>, m: Message, now: int)
    requires Ahead(p, sent) && m.number == p.next
    ensures var e := Add(p, m, now); Ahead(e.p, sent + e.sent)
  {
    var p' := Partition(p.next + 1, p.pending, now);
    AheadGrows(sent, m);
    DrainStaysAhead(p', sent + [m], now);
    assert sent + [m] + Drain(p', now).sent == sent + Add(p, m, now).sent;
  }

  lemma PassOne(p: Partition, now: int)
    ensures Stale(Partition(p.next + 1, p.pending, now)) <==> Stale(p) || p.next in p.pending
  {
    var p' := Partition(p.next + 1, p.pending, now);
    if Stale(p) {
      var n :| n in p.pending && n < p.next;
      assert n in p'.pending && n < p'.next;
    }
    if p.next in p.pending {
      assert p.next in p'.pending && p.next < p'.next;
    }
  }

  lemma AddedAbove(p: Partition, m: Message, now: int)
    requires m.number != p.next
    ensures Stale(Add(p, m, now).p) <==> Stale(p)
  {
    var q := Add(p, m, now).p;
    if Stale(p) {
      var n :| n in p.pending && n < p.next;
      assert n in q.pending && n < q.next;
    }
  }

  /** A timer turn breaks the order exactly when it is overdue and a passed number still waits. */
  lemma TurnBreaksIffStale(p: Partition, sent: seq<Message>, now: int)
    requires Ahead(p, sent)
    ensures var e := Timer(p, now);
            && (Increasing(sent + e.sent) <==> !(Overdue(p, now) && Stale(p)))
            && (Increasing(sent + e.sent) ==> Ahead(e.p, sent + e.sent))
            && (Stale(e.p) ==> Stale(p)) && e.p.pending.Keys <= p.pending.Keys
  {
    if Overdue(p, now) {
      SkipBreaksIffStale(p, sent, now);
    } else {
      assert sent + [] == sent;
    }
    TrimKeepsAhead(Skip(p, now).p, sent + Skip(p, now).sent);
  }

  lemma SkipBreaksIffStale(p: Partition, sent: seq<Message>, now: int)
    requires Ahead(p, sent) && Overdue(p, now)
    ensures var e := Skip(p, now);
            && (Increasing(sent + e.sent) <==> !Stale(p))
            && (Increasing(sent + e.sent) ==> Ahead(e.p, sent + e.sent))
            && !Stale(e.p)
  {
    var e, n := Skip(p, now), Least(p.pending.Keys);
    var all := sent + e.sent;
    if n < p.next {
      assert all[|sent| - 1].number == p.next - 1 && all[|sent|].number == n;
    } else {
      AheadGrows(sent, p.pending[n]);
    }
  }

  lemma TrimKeepsAhead(p: Partition, sent: seq<Message>)
    ensures Ahead(p, sent) ==> Ahead(Trim(p), sent)
    ensures (Stale(Trim(p)) ==> Stale(p)) && Trim(p).pending.Keys <= p.pending.Keys
  {
  }

  /** After such a repeat the next timeout delivers that number a second time. */
  lemma RepeatIsDeliveredTwice(p: Partition, sent: seq<Message>, m: Message, now: int, later: int)
    requires Ahead(p, sent) && !Stale(p) && Repeats(p, m)
    requires Overdue(Add(p, m, now).p, later)
    ensures var e := Add(p, m, now);
            var t := Timer(e.p, later);
            && m in e.sent && |t.sent| == 1 && t.sent[0].number == m.number
            && !Increasing(sent + e.sent + t.sent)
  {
    var e := Add(p, m, now);
    var p' := Partition(p.next + 1, p.pending, now);
    DrainKeepsBelow(p', p.next, now);
    forall n | n in e.p.pending
      ensures n >= p.next
    {
      DrainLeavesNothing(p', n, now);
    }
    var t := Timer(e.p, later);
    assert Least(e.p.pending.Keys) == p.next;
    var all := sent + e.sent + t.sent;
    assert all[|sent|].number == p.next == all[|all| - 1].number;
  }

  /** A partition in that state, reached by arrivals 3 and 4 and one timeout. */
  lemma RepeatCanHappen()
    ensures var m3, m4 := Message("k", 3, "c"), Message("k", 4, "d");
            var p := Timer(Add(Add(Fresh(0), m3, 0).p, m4, 0).p, 501).p;
            Ahead(p, [m3]) && !Stale(p) && Repeats(p, m4) && Overdue(Add(p, m4, 502).p, 1003)
  {
    var m3, m4 := Message("k", 3, "c"), Message("k", 4, "d");
    var p0 := Add(Fresh(0), m3, 0).p;
    assert p0 == Partition(1, map[3 := m3], 0);
    var p1 := Add(p0, m4, 0).p;
    assert p1 == Partition(1, map[3 := m3, 4 := m4], 0);
    assert 3 in p1.pending.Keys && 4 in p1.pending.Keys;
    var p := Timer(p1, 501).p;
    assert Least(p1.pending.Keys) == 3;
    assert p == Partition(4, map[4 := m4], 501);
    var q := Add(p, m4, 502).p;
    assert q == Partition(5, map[4 := m4], 502);
    assert 4 in q.pending;
  }

  // ---------------------------------------------------------------- whole runs of one partition

  datatype Input = Arrive(m: Message, at: int) | Tick(at: int)

  ghost function Step(p: Partition, i: Input): Effect {
    match i
    case Arrive(m, at) => Add(p, m, at)
    case Tick(at) => Timer(p, at)
  }

  /** The partition and everything it has sent, after a sequence of inputs. */
  ghost function After(p: Partition, inputs: seq<Input>): Effect {
    if inputs == [] then Effect(p, [])
    else
      var e := After(p, inputs[..|inputs| - 1]);
      var f := Step(e.p, inputs[|inputs| - 1]);
      Effect(f.p, e.sent + f.sent)
  }

  function Numbers(inputs: seq<Input>): set<int> {
    set i | 0 <= i < |inputs| && inputs[i].Arrive? :: inputs[i].m.number
  }

  lemma NumbersGrow(inputs: seq<Input>)
    requires inputs != []
    ensures var last := inputs[|inputs| - 1];
            Numbers(inputs) == Numbers(inputs[..|inputs| - 1]) + if last.Arrive? then {last.m.number} else {}
  {
    var init, last := inputs[..|inputs| - 1], inputs[|inputs| - 1];
    forall n | n in Numbers(inputs)
      ensures n in Numbers(init) + if last.Arrive? then {last.m.number} else {}
    {
      var i :| 0 <= i < |inputs| && inputs[i].Arrive? && inputs[i].m.number == n;
      if i < |init| {
        assert init[i] == inputs[i];
      }
    }
    forall n | n in Numbers(init)
      ensures n in Numbers(inputs)
    {
      var i :| 0 <= i < |init| && init[i].Arrive? && init[i].m.number == n;
      assert inputs[i] == init[i];
    }
  }

  /**
   Any arrivals, reordered and duplicated at will, without timeouts: the partition has delivered
   exactly 1..k in order, where k+1 is the least number still missing, and the later ones wait.
   */
  lemma {:induction false} DeliversLongestPrefix(inputs: seq<Input>, start: int)
    requires forall i :: 0 <= i < |inputs| ==> inputs[i].Arrive?
    ensures var e := After(Fresh(start), inputs); Exact(e.p, e.sent, Numbers(inputs))
    decreases |inputs|
  {
    if inputs != [] {
      var init, last := inputs[..|inputs| - 1], inputs[|inputs| - 1];
      DeliversLongestPrefix(init, start);
      NumbersGrow(inputs);
      var e := After(Fresh(start), init);
      AddIsExact(e.p, e.sent, Numbers(init), last.m, last.at);
    }
  }

  // What is delivered, and what waits, is what arrived: the message itself, not only its number.

  ghost predicate Came(inputs: seq<Input>, m: Message) {
    exists i :: 0 <= i < |inputs| && inputs[i].Arrive? && inputs[i].m == m
  }

  lemma CameGrows(inputs: seq<Input>, i: Input, m: Message)
    requires Came(inputs, m) || (i.Arrive? && i.m == m)
    ensures Came(inputs + [i], m)
  {
    var all := inputs + [i];
    if Came(inputs, m) {
      var x :| 0 <= x < |inputs| && inputs[x].Arrive? && inputs[x].m == m;
      assert all[x] == inputs[x];
    } else {
      assert all[|inputs|] == i;
    }
  }

  lemma StepHandsOn(p: Partition, i: Input, m: Message)
    requires m in Step(p, i).sent || m in Step(p, i).p.pending.Values
    ensures m in p.pending.Values || (i.Arrive? && i.m == m)
  {
    var e := Step(p, i);
    if i.Arrive? {
      AddDelivers(p, i.m, i.at);
      if m in e.sent && m != i.m {
        var x :| 0 <= x < |e.sent| && e.sent[x] == m;
        assert p.next + x in p.pending;
      }
    } else {
      TimerTimesOut(p, i.at);
    }
  }

  /** Every message delivered or waiting is one that arrived, in any run. */
  lemma {:induction false} DeliveredCame(inputs: seq<Input>, start: int, m: Message)
    requires var e := After(Fresh(start), inputs); m in e.sent || m in e.p.pending.Values
    ensures Came(inputs, m)
    decreases |inputs|
  {
    var init, last := inputs[..|inputs| - 1], inputs[|inputs| - 1];
    var e := After(Fresh(start), init);
    if m in e.sent || m in e.p.pending.Values {
      DeliveredCame(init, start, m);
    } else {
      StepHandsOn(e.p, last, m);
    }
    CameGrows(init, last, m);
    assert init + [last] == inputs;
  }

  /** The number due when input `i` came. */
  ghost function DueAt(inputs: seq<Input>, start: int, i: nat): int
    requires i <= |inputs|
  {
    After(Fresh(start), inputs[..i]).p.next
  }

  predicate ArrivalOf(inputs: seq<Input>, i: int, n: int) {
    0 <= i < |inputs| && inputs[i].Arrive? && inputs[i].m.number == n
  }

  /** Arrival `i` is the last one of number `n`. */
  ghost predicate LatestOf(inputs: seq<Input>, i: int, n: int) {
    ArrivalOf(inputs, i, n) && forall j :: ArrivalOf(inputs, j, n) ==> j <= i
  }

  predicate KeptAs(i: Input, p: Partition, n: int) {
    i.Arrive? && i.m.number == n && n > p.next
  }

  lemma StepKeepsWaiting(p: Partition, i: Input, n: int)
    requires n in Step(p, i).p.pending
    ensures if KeptAs(i, p, n) then Step(p, i).p.pending[n] == i.m
            else n in p.pending && Step(p, i).p.pending[n] == p.pending[n]
  {
    if i.Arrive? {
      AddDelivers(p, i.m, i.at);
    } else {
      TimerTimesOut(p, i.at);
    }
  }

  /** What waits under a number is the last arrival of it that was ahead of the number due. */
  lemma {:induction false} WaitingIsLastKept(inputs: seq<Input>, start: int, n: int) returns (i: nat)
    requires n in After(Fresh(start), inputs).p.pending
    ensures ArrivalOf(inputs, i, n) && After(Fresh(start), inputs).p.pending[n] == inputs[i].m
    ensures DueAt(inputs, start, i) < n
    ensures forall j: nat :: ArrivalOf(inputs, j, n) && DueAt(inputs, start, j) < n ==> j <= i
    decreases |inputs|
  {
    var init, last := inputs[..|inputs| - 1], inputs[|inputs| - 1];
    var p := After(Fresh(start), init).p;
    StepKeepsWaiting(p, last, n);
    if KeptAs(last, p, n) {
      i := |init|;
    } else {
      i := WaitingIsLastKept(init, start, n);
      assert inputs[..i] == init[..i] && ArrivalOf(init, i, n);
    }
    forall j: nat | ArrivalOf(inputs, j, n) && DueAt(inputs, start, j) < n
      ensures j <= i
    {
      if j < |init| {
        assert inputs[..j] == init[..j] && ArrivalOf(init, j, n);
      } else {
        assert inputs[..j] == init && KeptAs(last, p, n);
      }
    }
  }

  /** So it is the latest arrival of all exactly when that one was ahead of the number due. */
  lemma WaitingIsLatestIffAhead(inputs: seq<Input>, start: int, n: int, latest: nat) returns (i: nat)
    requires n in After(Fresh(start), inputs).p.pending && LatestOf(inputs, latest, n)
    ensures ArrivalOf(inputs, i, n) && After(Fresh(start), inputs).p.pending[n] == inputs[i].m
    ensures i == latest <==> DueAt(inputs, start, latest) < n
  {
    i := WaitingIsLastKept(inputs, start, n);
    assert i <= latest;
  }

  /** Without timeouts it always is the latest arrival. */
  lemma WaitingIsLatest(inputs: seq<Input>, start: int, n: int) returns (i: nat)
    requires forall i :: 0 <= i < |inputs| ==> inputs[i].Arrive?
    requires n in After(Fresh(start), inputs).p.pending
    ensures LatestOf(inputs, i, n) && After(Fresh(start), inputs).p.pending[n] == inputs[i].m
  {
    i := WaitingIsLastKept(inputs, start, n);
    DeliversLongestPrefix(inputs, start);
    forall j | ArrivalOf(inputs, j, n)
      ensures DueAt(inputs, start, j) < n
    {
      var init := inputs[..j];
      DeliversLongestPrefix(init, start);
      assert Numbers(init) <= Numbers(inputs);
    }
  }

  /** With them it need not be: a repeat of the number due is delivered at once, and the older copy stays. */
  lemma WaitingCanBeOlder()
    ensures var m3, m4, again := Message("k", 3, "c"), Message("k", 4, "d"), Message("k", 4, "e");
            var inputs := [Arrive(m3, 0), Arrive(m4, 0), Tick(501), Arrive(again, 502)];
            var e := After(Fresh(0), inputs);
            LatestOf(inputs, 3, 4) && e.sent == [m3, again] && e.p.pending == map[4 := m4]
  {
    var m3, m4, again := Message("k", 3, "c"), Message("k", 4, "d"), Message("k", 4, "e");
    var inputs := [Arrive(m3, 0), Arrive(m4, 0), Tick(501), Arrive(again, 502)];
    var one, two, three := inputs[..1], inputs[..2], inputs[..3];
    assert one[..0] == [] && two[..1] == one && three[..2] == two;
    assert After(Fresh(0), []) == Effect(Fresh(0), []);
    assert After(Fresh(0), one) == Effect(Partition(1, map[3 := m3], 0), []);
    var p := Partition(1, map[3 := m3, 4 := m4], 0);
    assert After(Fresh(0), two) == Effect(p, []);
    assert 3 in p.pending.Keys && 4 in p.pending.Keys;
    assert Least(p.pending.Keys) == 3;
    assert p.pending - {3} == map[4 := m4];
    assert Timer(p, 501) == Effect(Partition(4, map[4 := m4], 501), [m3]);
    assert After(Fresh(0), three) == Effect(Partition(4, map[4 := m4], 501), [m3]);
    assert Add(Partition(4, map[4 := m4], 501), again, 502) == Effect(Partition(5, map[4 := m4], 502), [again]);
    assert inputs[..3] == three;
  }

  ghost predicate NeverRepeats(inputs: seq<Input>, start: int) {
    forall i :: 0 <= i < |inputs| && inputs[i].Arrive? ==> !Repeats(After(Fresh(start), inputs[..i]).p, inputs[i].m)
  }

  /** Some timer turn of the run was overdue while a passed number still waited. */
  ghost predicate SkipsBack(inputs: seq<Input>, start: int) {
    exists i :: 0 <= i < |inputs| && SkipsBackAt(inputs, start, i)
  }

  ghost predicate SkipsBackAt(inputs: seq<Input>, start: int, i: nat)
    requires i < |inputs|
  {
    var p := After(Fresh(start), inputs[..i]).p;
    inputs[i].Tick? && Overdue(p, inputs[i].at) && Stale(p)
  }

  lemma SkipsBackGrows(inputs: seq<Input>, start: int)
    requires inputs != []
    ensures var n := |inputs| - 1;
            SkipsBack(inputs, start) <==> SkipsBack(inputs[..n], start) || SkipsBackAt(inputs, start, n)
  {
    var n := |inputs| - 1;
    var init := inputs[..n];
    forall i | 0 <= i < n
      ensures SkipsBackAt(init, start, i) <==> SkipsBackAt(inputs, start, i)
    {
      assert init[..i] == inputs[..i];
    }
  }

  lemma PrefixIncreasing(a: seq<Message>, b: seq<Message>)
    requires Increasing(a + b)
    ensures Increasing(a)
  {
    forall i, j | 0 <= i < j < |a|
      ensures a[i].number < a[j].number
    {
      assert (a + b)[i] == a[i] && (a + b)[j] == a[j];
    }
  }

  /**
   The exact price of timeouts: over any run, with reordering, duplicates, skips and drops, deliveries
   are strictly increasing exactly when no timer turn was overdue while a passed number still waited.
   */
  lemma {:induction false} IncreasingIffNoSkipBack(inputs: seq<Input>, start: int)
    ensures var e := After(Fresh(start), inputs);
            && (Increasing(e.sent) <==> !SkipsBack(inputs, start))
            && (Increasing(e.sent) ==> Ahead(e.p, e.sent))
    decreases |inputs|
  {
    if inputs != [] {
      var init, last := inputs[..|inputs| - 1], inputs[|inputs| - 1];
      IncreasingIffNoSkipBack(init, start);
      SkipsBackGrows(inputs, start);
      var e := After(Fresh(start), init);
      if !Increasing(e.sent) {
        if Increasing(After(Fresh(start), inputs).sent) {
          PrefixIncreasing(e.sent, Step(e.p, last).sent);
        }
      } else if last.Arrive? {
        ArrivalStaysAhead(e.p, e.sent, last.m, last.at);
      } else {
        TurnBreaksIffStale(e.p, e.sent, last.at);
      }
    }
  }

  // No number twice: what waits although its number was passed has itself been delivered before.

  ghost predicate NoneTwice(sent: seq<Message>) {
    forall i, j :: 0 <= i < j < |sent| ==> sent[i].number != sent[j].number
  }

  ghost predicate WasSent(sent: seq<Message>, n: int) {
    exists i :: 0 <= i < |sent| && sent[i].number == n
  }

  /** Every passed number that still waits was delivered. */
  ghost predicate StaleWereSent(p: Partition, sent: seq<Message>) {
    forall n :: n in p.pending && n < p.next ==> WasSent(sent, n)
  }

  lemma WasSentGrows(a: seq<Message>, b: seq<Message>, n: int)
    requires WasSent(a, n) || WasSent(b, n)
    ensures WasSent(a + b, n)
  {
    if WasSent(a, n) {
      var i :| 0 <= i < |a| && a[i].number == n;
      assert (a + b)[i] == a[i];
    } else {
      var i :| 0 <= i < |b| && b[i].number == n;
      assert (a + b)[|a| + i] == b[i];
    }
  }

  lemma ArrivalKeepsSent(p: Partition, sent: seq<Message>, m: Message, now: int)
    requires StaleWereSent(p, sent)
    ensures StaleWereSent(Add(p, m, now).p, sent + Add(p, m, now).sent)
  {
    var e := Add(p, m, now);
    forall n | n in e.p.pending && n < e.p.next
      ensures WasSent(sent + e.sent, n)
    {
      if m.number == p.next {
        DrainLeavesNothing(Partition(p.next + 1, p.pending, now), n, now);
        assert n == p.next ==> e.sent[0].number == n;
      }
      WasSentGrows(sent, e.sent, n);
    }
  }

  lemma TurnKeepsSent(p: Partition, sent: seq<Message>, now: int)
    requires StaleWereSent(p, sent)
    ensures StaleWereSent(Timer(p, now).p, sent + Timer(p, now).sent)
  {
    var e := Timer(p, now);
    forall n | n in e.p.pending && n < e.p.next
      ensures WasSent(sent + e.sent, n)
    {
      WasSentGrows(sent, e.sent, n);
    }
  }

  lemma {:induction false} RunKeepsSent(inputs: seq<Input>, start: int)
    ensures var e := After(Fresh(start), inputs); StaleWereSent(e.p, e.sent)
    decreases |inputs|
  {
    if inputs != [] {
      var init, last := inputs[..|inputs| - 1], inputs[|inputs| - 1];
      RunKeepsSent(init, start);
      var e := After(Fresh(start), init);
      if last.Arrive? {
        ArrivalKeepsSent(e.p, e.sent, last.m, last.at);
      } else {
        TurnKeepsSent(e.p, e.sent, last.at);
      }
    }
  }

  /** The turn that goes back delivers a number a second time. */
  lemma SkipBackRepeats(p: Partition, sent: seq<Message>, now: int)
    requires Overdue(p, now) && Stale(p) && StaleWereSent(p, sent)
    requires forall n :: n in p.pending ==> p.pending[n].number == n
    ensures !NoneTwice(sent + Timer(p, now).sent)
  {
    var n := Least(p.pending.Keys);
    var i :| 0 <= i < |sent| && sent[i].number == n;
    var all := sent + Timer(p, now).sent;
    assert all[i].number == all[|sent|].number;
  }

  lemma PrefixNoneTwice(a: seq<Message>, b: seq<Message>)
    requires NoneTwice(a + b)
    ensures NoneTwice(a)
  {
    forall i, j | 0 <= i < j < |a|
      ensures a[i].number != a[j].number
    {
      assert (a + b)[i] == a[i] && (a + b)[j] == a[j];
    }
  }

  lemma {:induction false} SkipsBackRepeats(inputs: seq<Input>, start: int)
    requires SkipsBack(inputs, start)
    ensures !NoneTwice(After(Fresh(start), inputs).sent)
    decreases |inputs|
  {
    var init, last := inputs[..|inputs| - 1], inputs[|inputs| - 1];
    var e := After(Fresh(start), init);
    SkipsBackGrows(inputs, start);
    if SkipsBack(init, start) {
      SkipsBackRepeats(init, start);
      if NoneTwice(e.sent + Step(e.p, last).sent) {
        PrefixNoneTwice(e.sent, Step(e.p, last).sent);
      }
    } else {
      IncreasingIffNoSkipBack(init, start);
      RunKeepsSent(init, start);
      SkipBackRepeats(e.p, e.sent, last.at);
    }
  }

  /** Over any run no number is delivered twice under the very same condition. */
  lemma NoneTwiceIffNoSkipBack(inputs: seq<Input>, start: int)
    ensures NoneTwice(After(Fresh(start), inputs).sent) <==> !SkipsBack(inputs, start)
  {
    if SkipsBack(inputs, start) {
      SkipsBackRepeats(inputs, start);
    } else {
      IncreasingIffNoSkipBack(inputs, start);
    }
  }

  /** A passed number waits only if some arrival repeated a waiting number that was due. */
  lemma {:induction false} NothingStaleWithoutRepeats(inputs: seq<Input>, start: int)
    requires NeverRepeats(inputs, start)
    ensures var e := After(Fresh(start), inputs);
            Ahead(e.p, e.sent) && !Stale(e.p) && e.p.pending.Keys <= Numbers(inputs)
    decreases |inputs|
  {
    if inputs != [] {
      var init, last := inputs[..|inputs| - 1], inputs[|inputs| - 1];
      assert forall i :: 0 <= i < |init| ==> init[..i] == inputs[..i];
      NothingStaleWithoutRepeats(init, start);
      NumbersGrow(inputs);
      var e := After(Fresh(start), init);
      if last.Arrive? {
        ArrivalStaysAhead(e.p, e.sent, last.m, last.at);
      } else {
        TurnBreaksIffStale(e.p, e.sent, last.at);
      }
    }
  }

  ghost predicate NumbersDistinct(inputs: seq<Input>) {
    forall i, j :: 0 <= i < j < |inputs| && inputs[i].Arrive? && inputs[j].Arrive? ==>
              inputs[i].m.number != inputs[j].m.number
  }

  lemma LastIsNew(inputs: seq<Input>)
    requires NumbersDistinct(inputs) && inputs != []
    ensures var init, last := inputs[..|inputs| - 1], inputs[|inputs| - 1];
            NumbersDistinct(init) && (last.Arrive? ==> last.m.number !in Numbers(init))
  {
  }

  lemma {:induction false} DistinctNeverRepeats(inputs: seq<Input>, start: int)
    requires NumbersDistinct(inputs)
    ensures NeverRepeats(inputs, start)
    decreases |inputs|
  {
    if inputs != [] {
      var init, last := inputs[..|inputs| - 1], inputs[|inputs| - 1];
      LastIsNew(inputs);
      DistinctNeverRepeats(init, start);
      NothingStaleWithoutRepeats(init, start);
      forall i | 0 <= i < |inputs| && inputs[i].Arrive?
        ensures !Repeats(After(Fresh(start), inputs[..i]).p, inputs[i].m)
      {
        if i < |init| {
          assert init[..i] == inputs[..i] && init[i] == inputs[i];
        }
      }
    }
  }

  /** If no number arrives twice, deliveries are strictly increasing, timeouts and drops included. */
  lemma ClimbsWhenNumbersDistinct(inputs: seq<Input>, start: int)
    requires NumbersDistinct(inputs)
    ensures Increasing(After(Fresh(start), inputs).sent)
  {
    DistinctNeverRepeats(inputs, start);
    NothingStaleWithoutRepeats(inputs, start);
  }

  // ---------------------------------------------------------------- the code

  /** What the channel carried for one key. */
  function For(channel: seq<Message>, k: Key): seq<Message> {
    if channel == [] then []
    else For(channel[..|channel| - 1], k) + if channel[|channel| - 1].key == k then [channel[|channel| - 1]] else []
  }

  lemma {:induction false} ForConcat(a: seq<Message>, b: seq<Message>, k: Key)
    ensures For(a + b, k) == For(a, k) + For(b, k)
    decreases |b|
  {
    if b == [] {
      assert a + b == a;
    } else {
      assert (a + b)[..|a + b| - 1] == a + b[..|b| - 1];
      ForConcat(a, b[..|b| - 1], k);
    }
  }

  lemma {:induction false} ForOwn(b: seq<Message>, owner: Key, k: Key)
    requires forall i :: 0 <= i < |b| ==> b[i].key == owner
    ensures For(b, k) == if k == owner then b else []
    decreases |b|
  {
    if b != [] {
      ForOwn(b[..|b| - 1], owner, k);
      assert b == b[..|b| - 1] + [b[|b| - 1]];
    }
  }

  /** Everything a partition holds belongs to its key and carries a positive number. */
  predicate Owned(p: Partition, k: Key) {
    p.next >= 1 && forall n :: n in p.pending ==> n >= 1 && p.pending[n].key == k
  }

  lemma {:induction false} DrainStaysOwned(p: Partition, k: Key, now: int)
    requires Owned(p, k)
    ensures Owned(Drain(p, now).p, k) && forall i :: 0 <= i < |Drain(p, now).sent| ==> Drain(p, now).sent[i].key == k
    decreases p.pending.Keys
  {
    if p.next in p.pending {
      DrainStaysOwned(Partition(p.next + 1, p.pending - {p.next}, now), k, now);
    }
  }

  lemma StepStaysOwned(p: Partition, k: Key, i: Input)
    requires Owned(p, k) && (i.Arrive? ==> i.m.key == k)
    ensures var e := Step(p, i); Owned(e.p, k) && forall x :: 0 <= x < |e.sent| ==> e.sent[x].key == k
  {
    if i.Arrive? && i.m.number == p.next {
      DrainStaysOwned(Partition(p.next + 1, p.pending, i.at), k, i.at);
    }
  }

  /** A partition's past: when it was created and what happened to it since. */
  datatype Past = Past(start: int, inputs: seq<Input>) {
    ghost function Now(): Effect { After(Fresh(start), inputs) }

    ghost function Plus(i: Input): Past { Past(start, inputs + [i]) }
  }

  lemma PastGrows(past: Past, i: Input)
    ensures var e := past.Now();
            past.Plus(i).Now() == Effect(Step(e.p, i).p, e.sent + Step(e.p, i).sent)
  {
    assert (past.inputs + [i])[..|past.inputs|] == past.inputs;
  }

  /** Each partition is where its own inputs lead, and the channel carried exactly what they sent. */
  ghost predicate Follows(p: Partition, past: Past, channel: seq<Message>, k: Key) {
    Owned(p, k) && past.Now() == Effect(p, For(channel, k))
  }

  ghost predicate Consistent(buffers: map<Key, Partition>, pasts: map<Key, Past>, channel: seq<Message>) {
    && pasts.Keys == buffers.Keys
    && (forall k :: k in buffers ==> Follows(buffers[k], pasts[k], channel, k))
    && (forall k :: k !in buffers ==> For(channel, k) == [])
  }

  predicate AllFor(sent: seq<Message>, k: Key) {
    forall i :: 0 <= i < |sent| ==> sent[i].key == k
  }

  lemma ChannelGrows(channel: seq<Message>, sent: seq<Message>, k: Key, x: Key)
    requires AllFor(sent, k)
    ensures For(channel + sent, x) == if x == k then For(channel, x) + sent else For(channel, x)
  {
    ForConcat(channel, sent, x);
    ForOwn(sent, k, x);
  }

  lemma OwnKeyFollows(past: Past, i: Input, p: Partition, channel: seq<Message>, sent: seq<Message>, k: Key)
    requires past.Now().sent == For(channel, k) && Owned(past.Now().p, k) && (i.Arrive? ==> i.m.key == k)
    requires Step(past.Now().p, i) == Effect(p, sent)
    ensures AllFor(sent, k) && Follows(p, past.Plus(i), channel + sent, k)
  {
    PastGrows(past, i);
    StepStaysOwned(past.Now().p, k, i);
    ChannelGrows(channel, sent, k, k);
  }

  lemma OtherKeyFollows(p: Partition, past: Past, channel: seq<Message>, sent: seq<Message>, k: Key, x: Key)
    requires Follows(p, past, channel, x) && AllFor(sent, k) && x != k
    ensures Follows(p, past, channel + sent, x)
  {
    ChannelGrows(channel, sent, k, x);
  }

  lemma CommitKeepsConsistent(buffers: map<Key, Partition>, pasts: map<Key, Past>, channel: seq<Message>,
                              k: Key, p: Partition, sent: seq<Message>, past: Past, i: Input)
    requires Consistent(buffers, pasts, channel) && (i.Arrive? ==> i.m.key == k)
    requires past.Now().sent == For(channel, k) && Owned(past.Now().p, k)
    requires Step(past.Now().p, i) == Effect(p, sent)
    ensures Consistent(buffers[k := p], pasts[k := past.Plus(i)], channel + sent)
  {
    OwnKeyFollows(past, i, p, channel, sent, k);
    StoreKeepsConsistent(buffers, pasts, channel, k, p, past.Plus(i), sent);
  }

  /** One key's new state is stored; the others see nothing of what was sent. */
  lemma StoreKeepsConsistent(buffers: map<Key, Partition>, pasts: map<Key, Past>, channel: seq<Message>,
                             k: Key, p: Partition, past: Past, sent: seq<Message>)
    requires Consistent(buffers, pasts, channel) && AllFor(sent, k) && Follows(p, past, channel + sent, k)
    ensures Consistent(buffers[k := p], pasts[k := past], channel + sent)
  {
    var buffers', pasts', channel' := buffers[k := p], pasts[k := past], channel + sent;
    forall x | x in buffers'
      ensures Follows(buffers'[x], pasts'[x], channel', x)
    {
      if x != k {
        OtherKeyFollows(buffers[x], pasts[x], channel, sent, k, x);
      }
    }
    forall x | x !in buffers'
      ensures For(channel', x) == []
    {
      ChannelGrows(channel, sent, k, x);
    }
  }

  ghost predicate Untimed(buffers: map<Key, Partition>, channel: seq<Message>, buffers': map<Key, Partition>,
                          channel': seq<Message>, k: Key) {
    k in buffers && k in buffers' && buffers'[k] == buffers[k] && For(channel', k) == For(channel, k)
  }

  /** For one key, a timer turn did what it does, and put on the channel what it sent. */
  ghost predicate TickedFor(buffers: map<Key, Partition>, channel: seq<Message>, buffers': map<Key, Partition>,
                            channel': seq<Message>, now: int, k: Key) {
    && k in buffers && k in buffers' && For(channel, k) <= For(channel', k)
    && TimedOut(buffers[k], now, buffers'[k], For(channel', k)[|For(channel, k)|..])
  }

  ghost predicate TickedBut(buffers: map<Key, Partition>, channel: seq<Message>, buffers': map<Key, Partition>,
                            channel': seq<Message>, now: int, todo: set<Key>) {
    && buffers'.Keys == buffers.Keys
    && forall k :: k in buffers ==>
         if k in todo then Untimed(buffers, channel, buffers', channel', k)
         else TickedFor(buffers, channel, buffers', channel', now, k)
  }

  /** The partition of `k` and nothing else had its turn. */
  ghost predicate TickedOnly(buffers: map<Key, Partition>, channel: seq<Message>, buffers': map<Key, Partition>,
                             channel': seq<Message>, now: int, k: Key) {
    && buffers'.Keys == buffers.Keys && TickedFor(buffers, channel, buffers', channel', now, k)
    && forall x :: x in buffers && x != k ==> Untimed(buffers, channel, buffers', channel', x)
  }

  lemma TickOneMore(b0: map<Key, Partition>, c0: seq<Message>, b: map<Key, Partition>, c: seq<Message>,
                    b': map<Key, Partition>, c': seq<Message>, now: int, todo: set<Key>, k: Key)
    requires TickedBut(b0, c0, b, c, now, todo) && k in todo && k in b && TickedOnly(b, c, b', c', now, k)
    ensures TickedBut(b0, c0, b', c', now, todo - {k})
  {
    forall x | x in b0
      ensures if x in todo - {k} then Untimed(b0, c0, b', c', x) else TickedFor(b0, c0, b', c', now, x)
    {
      assert x != k ==> Untimed(b, c, b', c', x);
    }
  }

  lemma TimerTicks(buffers: map<Key, Partition>, channel: seq<Message>, k: Key, p: Partition, sent: seq<Message>,
                   now: int)
    requires k in buffers && AllFor(sent, k) && TimedOut(buffers[k], now, p, sent)
    ensures TickedOnly(buffers, channel, buffers[k := p], channel + sent, now, k)
  {
    var buffers', channel' := buffers[k := p], channel + sent;
    assert TickedFor(buffers, channel, buffers', channel', now, k) by {
      ChannelGrows(channel, sent, k, k);
      assert For(channel', k)[|For(channel, k)|..] == sent;
    }
    forall x | x in buffers && x != k
      ensures Untimed(buffers, channel, buffers', channel', x)
    {
      ChannelGrows(channel, sent, k, x);
    }
  }

  class OrderedBuffer {
    var buffers: map<Key, Partition>
    var channel: seq<Message>
    ghost var pasts: map<Key, Past>

    ghost predicate Valid()
      reads this
    {
      Consistent(buffers, pasts, channel)
    }

    constructor ()
      ensures Valid() && buffers == map[] && channel == []
    {
      buffers, channel, pasts := map[], [], map[];
    }

    method AddMessage(m: Message, now: int)
      requires Valid()
      modifies this
      ensures Valid()
      ensures var past := if m.key in old(pasts) then old(pasts)[m.key] else Past(now, []);
              pasts == old(pasts)[m.key := past.Plus(Arrive(m, now))]
      ensures buffers.Keys == old(buffers).Keys + {m.key}
      ensures forall k :: k in old(buffers) && k != m.key ==> buffers[k] == old(buffers)[k]
      ensures var p := if m.key in old(buffers) then old(buffers)[m.key] else Partition(1, map[], now);
              old(channel) <= channel && Arrived(p, m, now, buffers[m.key], channel[|old(channel)|..])
    {
      var p := if m.key in buffers then buffers[m.key] else Fresh(now);
      ghost var past := if m.key in buffers then pasts[m.key] else Past(now, []);
      assert m.key in buffers ==> Follows(p, past, channel, m.key);
      var sent;
      p, sent := OnArrival(p, m, now);
      Commit(m.key, p, sent, past, Arrive(m, now));
    }

    /** The work of an arrival on its partition. */
    static method OnArrival(p0: Partition, m: Message, now: int) returns (p: Partition, sent: seq<Message>)
      ensures Effect(p, sent) == Add(p0, m, now) && Arrived(p0, m, now, p, sent)
    {
      AddDelivers(p0, m, now);
      p, sent := p0, [];
      if m.number == p.next {
        p, sent := DrainFrom(Partition(p.next + 1, p.pending, now), [m], now);
      } else if m.number > p.next {
        p := p.(pending := p.pending[m.number := m]);
      }
    }

    static method DrainFrom(p0: Partition, first: seq<Message>, now: int) returns (p: Partition, sent: seq<Message>)
      ensures p == Drain(p0, now).p && sent == first + Drain(p0, now).sent
    {
      p, sent := p0, first;
      while p.next in p.pending
        invariant Drain(p0, now).p == Drain(p, now).p && first + Drain(p0, now).sent == sent + Drain(p, now).sent
        decreases p.pending.Keys
      {
        ghost var rest := Drain(Partition(p.next + 1, p.pending - {p.next}, now), now);
        assert sent + ([p.pending[p.next]] + rest.sent) == (sent + [p.pending[p.next]]) + rest.sent;
        sent := sent + [p.pending[p.next]];
        p := Partition(p.next + 1, p.pending - {p.next}, now);
      }
      assert sent + [] == sent;
    }

    /** Store the partition and emit what it sent. */
    method Commit(k: Key, p: Partition, sent: seq<Message>, ghost past: Past, ghost i: Input)
      requires Valid() && (i.Arrive? ==> i.m.key == k)
      requires past.Now().sent == For(channel, k) && Owned(past.Now().p, k)
      requires Step(past.Now().p, i) == Effect(p, sent)
      modifies this
      ensures Valid() && buffers == old(buffers)[k := p] && channel == old(channel) + sent
      ensures pasts == old(pasts)[k := past.Plus(i)]
    {
      CommitKeepsConsistent(buffers, pasts, channel, k, p, sent, past, i);
      buffers := buffers[k := p];
      channel := channel + sent;
      pasts := pasts[k := past.Plus(i)];
    }

    /** The loop that looks for the least waiting number; -1 stands for none found yet. */
    static method MinPending(pending: map<int, Message>) returns (minSeq: int)
      requires forall n :: n in pending ==> n >= 1
      ensures minSeq == if pending == map[] then -1 else Least(pending.Keys)
    {
      minSeq := -1;
      var todo := pending.Keys;
      while todo != {}
        invariant todo <= pending.Keys
        invariant minSeq == -1 ==> todo == pending.Keys
        invariant minSeq != -1 ==> minSeq in pending
        invariant minSeq != -1 ==> forall n :: n in pending && n !in todo ==> minSeq <= n
      {
        var n := FiniteSets.Take(todo);
        if minSeq == -1 || n < minSeq {
          minSeq := n;
        }
        todo := todo - {n};
      }
    }

    /** The timer's work on one partition. */
    static method OnTimer(p0: Partition, ghost k: Key, now: int) returns (p: Partition, sent: seq<Message>)
      requires Owned(p0, k)
      ensures Effect(p, sent) == Timer(p0, now)
    {
      p, sent := p0, [];
      if now - p.last > TIMEOUT && |p.pending| > 0 {
        var minSeq := MinPending(p.pending);
        if minSeq != -1 {
          sent := [p.pending[minSeq]];
          p := Partition(minSeq + 1, p.pending - {minSeq}, now);
        }
      }
      if |p.pending| > MAX_BUFFER_SIZE {
        p := p.(pending := map n | n in p.pending && n >= p.next + MAX_BUFFER_SIZE / 2 :: p.pending[n]);
      }
    }

    method TimeOne(k: Key, now: int)
      requires Valid() && k in buffers
      modifies this
      ensures Valid() && TickedOnly(old(buffers), old(channel), buffers, channel, now, k)
      ensures pasts == old(pasts)[k := old(pasts)[k].Plus(Tick(now))]
    {
      assert Follows(buffers[k], pasts[k], channel, k);
      var p, sent := OnTimer(buffers[k], k, now);
      TimerTimesOut(buffers[k], now);
      OwnKeyFollows(pasts[k], Tick(now), p, channel, sent, k);
      TimerTicks(buffers, channel, k, p, sent, now);
      Commit(k, p, sent, pasts[k], Tick(now));
    }

    /** One turn of the timer: every partition once, in any order. */
    method CheckTimeouts(now: int)
      requires Valid()
      modifies this
      ensures Valid() && buffers.Keys == old(buffers).Keys
      ensures forall k :: k in buffers ==> pasts[k] == old(pasts)[k].Plus(Tick(now))
      ensures TickedBut(old(buffers), old(channel), buffers, channel, now, {})
    {
      var todo := buffers.Keys;
      while todo != {}
        invariant Valid() && todo <= buffers.Keys == old(buffers).Keys
        invariant forall k :: k in buffers ==>
                  pasts[k] == if k in todo then old(pasts)[k] else old(pasts)[k].Plus(Tick(now))
        invariant TickedBut(old(buffers), old(channel), buffers, channel, now, todo)
      {
        var k := FiniteSets.Take(todo);
        ghost var b, c := buffers, channel;
        TimeOne(k, now);
        TickOneMore(old(buffers), old(channel), b, c, buffers, channel, now, todo, k);
        todo := todo - {k};
      }
    }
  }

  /** The channel of a valid buffer: without timeouts, each key's messages 1..k in order. */
  lemma ChannelInOrder(b: OrderedBuffer, k: Key)
    requires b.Valid() && k in b.buffers
    requires forall i :: 0 <= i < |b.pasts[k].inputs| ==> b.pasts[k].inputs[i].Arrive?
    ensures Exact(b.buffers[k], For(b.channel, k), Numbers(b.pasts[k].inputs))
  {
    assert Follows(b.buffers[k], b.pasts[k], b.channel, k);
    DeliversLongestPrefix(b.pasts[k].inputs, b.pasts[k].start);
  }

  /** With or without timeouts, what the channel carried for a key arrived for it, message by message. */
  lemma ChannelCarriesArrivals(b: OrderedBuffer, k: Key, m: Message)
    requires b.Valid() && k in b.buffers
    ensures m in For(b.channel, k) || m in b.buffers[k].pending.Values ==> Came(b.pasts[k].inputs, m)
  {
    assert Follows(b.buffers[k], b.pasts[k], b.channel, k);
    if m in For(b.channel, k) || m in b.buffers[k].pending.Values {
      DeliveredCame(b.pasts[k].inputs, b.pasts[k].start, m);
    }
  }

  /** With timeouts, each key's deliveries climb as long as no number of that key came twice. */
  lemma ChannelClimbs(b: OrderedBuffer, k: Key)
    requires b.Valid() && k in b.buffers && NumbersDistinct(b.pasts[k].inputs)
    ensures Increasing(For(b.channel, k))
  {
    assert Follows(b.buffers[k], b.pasts[k], b.channel, k);
    ClimbsWhenNumbersDistinct(b.pasts[k].inputs, b.pasts[k].start);
  }

  /**
   In full generality: each key's deliveries climb, and each key's numbers come no more than once,
   exactly when that key's timer never skipped back.
   */
  lemma ChannelClimbsIffNoSkipBack(b: OrderedBuffer, k: Key)
    requires b.Valid() && k in b.buffers
    ensures Increasing(For(b.channel, k)) <==> !SkipsBack(b.pasts[k].inputs, b.pasts[k].start)
    ensures NoneTwice(For(b.channel, k)) <==> !SkipsBack(b.pasts[k].inputs, b.pasts[k].start)
  {
    assert Follows(b.buffers[k], b.pasts[k], b.channel, k);
    IncreasingIffNoSkipBack(b.pasts[k].inputs, b.pasts[k].start);
    NoneTwiceIffNoSkipBack(b.pasts[k].inputs, b.pasts[k].start);
  }
}
