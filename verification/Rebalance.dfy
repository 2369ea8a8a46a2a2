/**
 Reassigning partitions in a consumer group. Consumers and topics are visited in an arbitrary order;
 a topic's partitions are collected once for every subscription, so the lists hold repetitions and
 later assignments overwrite earlier ones.
 */
module Rebalance {
  import FiniteSets

  type Topic = string
  type ConsumerId = string

  datatype Consumer = Consumer(topics: seq<Topic>, active: bool)

  type Consumers = map<ConsumerId, Consumer>
  type Assignment = map<nat, ConsumerId>

  predicate Subscribed(consumers: Consumers, t: Topic) {
    exists c :: c in consumers && consumers[c].active && t in consumers[c].topics
  }

  // ---------------------------------------------------------------- what the collected lists look like

  /** Partition numbers below `n`, the last `n` of them being 0, 1, ..., n-1. */
  predicate EndsWithCopy(list: seq<nat>, n: nat) {
    && |list| >= n > 0
    && (forall j :: 0 <= j < |list| ==> list[j] < n)
    && (forall j :: |list| - n <= j < |list| ==> list[j] == j - (|list| - n))
  }

  ghost predicate ListsSound(lists: map<Topic, seq<nat>>, sizes: map<Topic, nat>) {
    forall t :: t in lists ==> t in sizes && EndsWithCopy(lists[t], sizes[t])
  }

  // ---------------------------------------------------------------- taking turns

  /** Whose turn number `j` is among `k`, counting round and round: the remainder. */
  function Turn(j: nat, k: nat): nat
    requires k > 0
  {
    if j < k then j else Turn(j - k, k)
  }

  /** How many full rounds `n` turns make: the quotient. */
  function Rounds(n: nat, k: nat): nat
    requires k > 0
  {
    if n < k then 0 else Rounds(n - k, k) + 1
  }

  lemma {:induction false} TurnInRange(j: nat, k: nat)
    requires k > 0
    ensures Turn(j, k) < k && Turn(j, k) <= j
  {
    if j >= k {
      TurnInRange(j - k, k);
    }
  }

  /** Turns and rounds are what `%` and `/` compute. */
  lemma {:induction false} TurnIsRemainder(j: nat, k: nat)
    requires k > 0
    ensures Turn(j, k) == j % k && Rounds(j, k) == j / k
  {
    if j < k {
      WithinRound(j, k);
    } else {
      TurnIsRemainder(j - k, k);
      OneRoundMore(j - k, k);
    }
  }

  /** A multiple that is not zero is at least one whole factor away from zero. */
  lemma MultipleIsFar(d: int, k: nat)
    ensures (d >= 1 ==> d * k >= k) && (d <= -1 ==> d * k + k <= 0)
  {
    if d >= 1 {
      assert (d - 1) * k >= 0;
    } else if d <= -1 {
      assert (-d - 1) * k >= 0;
    }
  }

  lemma OneRoundMore(a: nat, k: nat)
    requires k > 0
    ensures (a + k) / k == a / k + 1 && (a + k) % k == a % k
  {
    var d := (a + k) / k - a / k - 1;
    assert a == (a / k) * k + a % k;
    assert a + k == ((a + k) / k) * k + (a + k) % k;
    assert d * k == a % k - (a + k) % k;
    MultipleIsFar(d, k);
  }

  lemma WithinRound(a: nat, k: nat)
    requires a < k
    ensures a / k == 0 && a % k == a
  {
    assert a == (a / k) * k + a % k;
    MultipleIsFar(a / k, k);
  }

  /** The consumer whose turn it is `x` places after the start of the rotation. */
  function InTurn(active: seq<ConsumerId>, start: nat, x: nat): ConsumerId
    requires |active| > 0
  {
    TurnInRange(start + x, |active|);
    active[Turn(start + x, |active|)]
  }

  /** Partition `i` belongs to the consumer at position `start + i`, counting round and round. */
  ghost predicate RoundRobin(a: Assignment, active: seq<ConsumerId>, n: nat, start: nat) {
    && |active| > 0
    && (forall i: nat :: i in a <==> i < n)
    && (forall i: nat :: i < n ==> i in a && a[i] == InTurn(active, start, i))
  }

  /** Each topic's partitions go round the active consumers from some start on. */
  ghost predicate Rotated(assignments: map<Topic, Assignment>, active: seq<ConsumerId>, sizes: map<Topic, nat>) {
    forall t :: t in assignments ==>
      t in sizes && exists start: nat :: RoundRobin(assignments[t], active, sizes[t], start)
  }

  // ---------------------------------------------------------------- how long the collected lists are

  function Length(lists: map<Topic, seq<nat>>, t: Topic): nat {
    if t in lists then |lists[t]| else 0
  }

  function Occurs(topics: seq<Topic>, t: Topic): set<nat> {
    set i: nat | i < |topics| && topics[i] == t
  }

  /** Each time one of these consumers, being active, lists the topic. */
  function Listings(consumers: Consumers, ids: set<ConsumerId>, t: Topic): set<(ConsumerId, nat)> {
    set c, i | c in ids && c in consumers && consumers[c].active && i in Occurs(consumers[c].topics, t) :: (c, i)
  }

  function Pairs(c: ConsumerId, s: set<nat>): set<(ConsumerId, nat)> {
    set i | i in s :: (c, i)
  }

  lemma {:induction false} PairsSize(c: ConsumerId, s: set<nat>)
    ensures |Pairs(c, s)| == |s|
  {
    if s != {} {
      var x := FiniteSets.Pick(s);
      PairsSize(c, s - {x});
      assert Pairs(c, s) == Pairs(c, s - {x}) + {(c, x)} && (c, x) !in Pairs(c, s - {x});
    }
  }

  lemma ListingsGrow(consumers: Consumers, ids: set<ConsumerId>, c: ConsumerId, t: Topic)
    requires c in consumers && c !in ids
    ensures |Listings(consumers, ids + {c}, t)| == |Listings(consumers, ids, t)|
            + if consumers[c].active then |Occurs(consumers[c].topics, t)| else 0
  {
    var before, after := Listings(consumers, ids, t), Listings(consumers, ids + {c}, t);
    if consumers[c].active {
      var added := Pairs(c, Occurs(consumers[c].topics, t));
      PairsSize(c, Occurs(consumers[c].topics, t));
      assert after == before + added && before !! added;
    } else {
      assert after == before;
    }
  }

  lemma OccursGrow(topics: seq<Topic>, j: nat, t: Topic)
    requires j < |topics|
    ensures |Occurs(topics[..j + 1], t)| == |Occurs(topics[..j], t)| + if topics[j] == t then 1 else 0
  {
    assert Occurs(topics[..j + 1], t) == Occurs(topics[..j], t) + if topics[j] == t then {j} else {};
  }

  /** The lists grew by one copy of a topic's partitions for each of these listings. */
  ghost predicate GrewBy(lists: map<Topic, seq<nat>>, lists': map<Topic, seq<nat>>, sizes: map<Topic, nat>,
                         topics: seq<Topic>) {
    forall t :: t in sizes ==> Length(lists', t) == Length(lists, t) + sizes[t] * |Occurs(topics, t)|
  }

  lemma GrewByOneMore(lists0: map<Topic, seq<nat>>, lists: map<Topic, seq<nat>>, lists': map<Topic, seq<nat>>,
                      sizes: map<Topic, nat>, topics: seq<Topic>, j: nat)
    requires j < |topics| && GrewBy(lists0, lists, sizes, topics[..j])
    requires forall t :: t in sizes ==> Length(lists', t) == Length(lists, t) + if topics[j] == t then sizes[t] else 0
    ensures GrewBy(lists0, lists', sizes, topics[..j + 1])
  {
    forall t | t in sizes
      ensures Length(lists', t) == Length(lists0, t) + sizes[t] * |Occurs(topics[..j + 1], t)|
    {
      OccursGrow(topics, j, t);
    }
  }

  /** One copy of a topic's partitions for every listing by one of these consumers. */
  ghost predicate CopyPerListing(lists: map<Topic, seq<nat>>, sizes: map<Topic, nat>, consumers: Consumers,
                                 ids: set<ConsumerId>) {
    forall t :: t in sizes ==> Length(lists, t) == sizes[t] * |Listings(consumers, ids, t)|
  }

  lemma CollectOneMore(lists: map<Topic, seq<nat>>, lists': map<Topic, seq<nat>>, sizes: map<Topic, nat>,
                       consumers: Consumers, ids: set<ConsumerId>, c: ConsumerId)
    requires CopyPerListing(lists, sizes, consumers, ids) && c in consumers && c !in ids
    requires if consumers[c].active then GrewBy(lists, lists', sizes, consumers[c].topics) else lists' == lists
    ensures CopyPerListing(lists', sizes, consumers, ids + {c})
  {
    forall t | t in sizes
      ensures Length(lists', t) == sizes[t] * |Listings(consumers, ids + {c}, t)|
    {
      ListingsGrow(consumers, ids, c, t);
      var k, n := |Listings(consumers, ids, t)|, |Occurs(consumers[c].topics, t)|;
      assert sizes[t] * (k + n) == sizes[t] * k + sizes[t] * n;
    }
  }

  /** The turns taken by these topics, one for each entry of their lists. */
  function Turns(lists: map<Topic, seq<nat>>, order: seq<Topic>): nat {
    if order == [] then 0 else Turns(lists, order[..|order| - 1]) + Length(lists, order[|order| - 1])
  }

  /**
   The topics are worked off in some order, and the rotation goes on from one to the next: the last `n` turns
   of a topic with `n` partitions are the ones that count.
   */
  ghost predicate GoesOn(assignments: map<Topic, Assignment>, active: seq<ConsumerId>, sizes: map<Topic, nat>,
                         lists: map<Topic, seq<nat>>, order: seq<Topic>) {
    && (forall t :: t in assignments <==> t in order)
    && (forall x, y :: 0 <= x < y < |order| ==> order[x] != order[y])
    && (forall x :: 0 <= x < |order| ==> InItsTurn(assignments, active, sizes, lists, order, x))
  }

  ghost predicate InItsTurn(assignments: map<Topic, Assignment>, active: seq<ConsumerId>, sizes: map<Topic, nat>,
                            lists: map<Topic, seq<nat>>, order: seq<Topic>, x: nat)
    requires x < |order|
  {
    var t := order[x];
    && t in assignments && t in sizes && Length(lists, t) >= sizes[t]
    && RoundRobin(assignments[t], active, sizes[t], Turns(lists, order[..x]) + Length(lists, t) - sizes[t])
  }

  lemma GoesOnOneMore(assignments: map<Topic, Assignment>, active: seq<ConsumerId>, sizes: map<Topic, nat>,
                      lists: map<Topic, seq<nat>>, order: seq<Topic>, t: Topic, a: Assignment)
    requires GoesOn(assignments, active, sizes, lists, order) && t !in order && t in sizes
    requires Length(lists, t) >= sizes[t]
    requires RoundRobin(a, active, sizes[t], Turns(lists, order) + Length(lists, t) - sizes[t])
    ensures GoesOn(assignments[t := a], active, sizes, lists, order + [t])
    ensures Turns(lists, order + [t]) == Turns(lists, order) + Length(lists, t)
  {
    var all, longer := order + [t], assignments[t := a];
    assert all[..|order|] == order;
    forall x: nat | x < |all|
      ensures InItsTurn(longer, active, sizes, lists, all, x)
    {
      if x < |order| {
        StaysInItsTurn(assignments, active, sizes, lists, order, t, a, x);
      }
    }
  }

  lemma StaysInItsTurn(assignments: map<Topic, Assignment>, active: seq<ConsumerId>, sizes: map<Topic, nat>,
                       lists: map<Topic, seq<nat>>, order: seq<Topic>, t: Topic, a: Assignment, x: nat)
    requires x < |order| && order[x] != t && InItsTurn(assignments, active, sizes, lists, order, x)
    ensures InItsTurn(assignments[t := a], active, sizes, lists, order + [t], x)
  {
    assert (order + [t])[..x] == order[..x];
  }

  class ConsumerGroup {
    var consumers: Consumers
    var assignments: map<Topic, Assignment>
    var generation: nat

    constructor ()
      ensures consumers == map[] && assignments == map[] && generation == 0
    {
      consumers, assignments, generation := map[], map[], 0;
    }

    method Join(id: ConsumerId, topics: seq<Topic>)
      modifies this`consumers
      ensures consumers == old(consumers)[id := Consumer(topics, true)]
    {
      consumers := consumers[id := Consumer(topics, true)];
    }

    /** All partitions of all existing topics the active consumers list, once per listing. */
    method Collect(sizes: map<Topic, nat>) returns (lists: map<Topic, seq<nat>>)
      ensures ListsSound(lists, sizes)
      ensures forall t :: t in lists <==> Subscribed(consumers, t) && t in sizes && sizes[t] > 0
      ensures CopyPerListing(lists, sizes, consumers, consumers.Keys)
    {
      lists := map[];
      var todo := consumers.Keys;
      while todo != {}
        invariant todo <= consumers.Keys && ListsSound(lists, sizes)
        invariant forall t :: t in lists <==>
          && t in sizes && sizes[t] > 0
          && exists c :: c in consumers && c !in todo && consumers[c].active && t in consumers[c].topics
        invariant CopyPerListing(lists, sizes, consumers, consumers.Keys - todo)
      {
        var id := FiniteSets.Take(todo);
        ghost var before := lists;
        if consumers[id].active {
          lists := CollectFrom(consumers[id].topics, sizes, lists);
        }
        CollectOneMore(before, lists, sizes, consumers, consumers.Keys - todo, id);
        assert consumers.Keys - (todo - {id}) == consumers.Keys - todo + {id};
        todo := todo - {id};
      }
      assert consumers.Keys - todo == consumers.Keys;
    }

    static method CollectFrom(topics: seq<Topic>, sizes: map<Topic, nat>, lists0: map<Topic, seq<nat>>)
      returns (lists: map<Topic, seq<nat>>)
      requires ListsSound(lists0, sizes)
      ensures ListsSound(lists, sizes)
      ensures forall t :: t in lists <==> t in lists0 || (t in topics && t in sizes && sizes[t] > 0)
      ensures GrewBy(lists0, lists, sizes, topics)
    {
      lists := lists0;
      for j := 0 to |topics|
        invariant ListsSound(lists, sizes)
        invariant forall t :: t in lists <==> t in lists0 || (t in topics[..j] && t in sizes && sizes[t] > 0)
        invariant GrewBy(lists0, lists, sizes, topics[..j])
      {
        var t := topics[j];
        ghost var before := lists;
        if t in sizes && sizes[t] > 0 {
          var list := if t in lists then lists[t] else [];
          assert forall i :: 0 <= i < |list| ==> list[i] < sizes[t];
          list := AppendCopy(list, sizes[t]);
          lists := lists[t := list];
        }
        GrewByOneMore(lists0, before, lists, sizes, topics, j);
        assert topics[..j + 1] == topics[..j] + [t];
      }
      assert topics[..|topics|] == topics;
    }

    static method AppendCopy(list0: seq<nat>, n: nat) returns (list: seq<nat>)
      requires n > 0 && forall j :: 0 <= j < |list0| ==> list0[j] < n
      ensures EndsWithCopy(list, n) && |list| == |list0| + n
    {
      list := list0;
      for i := 0 to n
        invariant |list| == |list0| + i
        invariant forall j :: 0 <= j < |list| ==> list[j] == if j < |list0| then list0[j] else j - |list0|
      {
        list := list + [i];
      }
    }

    method ActiveConsumers() returns (active: seq<ConsumerId>)
      ensures forall c :: c in active <==> c in consumers && consumers[c].active
      ensures forall i, j :: 0 <= i < j < |active| ==> active[i] != active[j]
    {
      active := [];
      var todo := consumers.Keys;
      while todo != {}
        invariant todo <= consumers.Keys
        invariant forall c :: c in active <==> c in consumers && c !in todo && consumers[c].active
        invariant forall i, j :: 0 <= i < j < |active| ==> active[i] != active[j]
      {
        var id := FiniteSets.Take(todo);
        if consumers[id].active {
          active := active + [id];
        }
        todo := todo - {id};
      }
    }

    /** One topic: every listed partition to the next consumer in turn, later entries winning. */
    static method AssignTopic(list: seq<nat>, active: seq<ConsumerId>, index0: nat, n: nat)
      returns (a: Assignment, index: nat)
      requires EndsWithCopy(list, n) && |active| > 0
      ensures index == index0 + |list|
      ensures RoundRobin(a, active, n, index0 + |list| - n)
    {
      a, index := map[], index0;
      ghost var start := index0 + |list| - n;
      for j := 0 to |list|
        invariant index == index0 + j
        invariant forall i: nat :: i in a ==> i < n
        invariant forall i: nat :: i < n && start + i < index ==> i in a && a[i] == InTurn(active, start, i)
      {
        var p := list[j];
        TurnIsRemainder(index, |active|);
        a := a[p := active[index % |active|]];
        index := index + 1;
      }
    }

    /**
     With an active consumer: exactly the partitions of the non-empty existing topics that some
     active consumer lists are assigned, each topic's round-robin over the active consumers.
     Without one, nothing but the generation changes.
     */
    method Rebalance(sizes: map<Topic, nat>)
      returns (active: seq<ConsumerId>, ghost lists: map<Topic, seq<nat>>, ghost order: seq<Topic>)
      modifies this`assignments, this`generation
      ensures generation == old(generation) + 1
      ensures forall c :: c in active <==> c in consumers && consumers[c].active
      ensures forall i, j :: 0 <= i < j < |active| ==> active[i] != active[j]
      ensures active == [] ==> assignments == old(assignments)
      ensures active != [] ==> forall t :: t in assignments <==> Subscribed(consumers, t) && t in sizes && sizes[t] > 0
      ensures active != [] ==> Rotated(assignments, active, sizes)
      ensures active != [] ==> GoesOn(assignments, active, sizes, lists, order)
      ensures CopyPerListing(lists, sizes, consumers, consumers.Keys)
    {
      generation := generation + 1;
      order := [];
      var collected := Collect(sizes);
      lists := collected;
      active := ActiveConsumers();
      if |active| == 0 {
        return;
      }
      assignments, order := AssignAll(collected, sizes, active);
    }

    /** All topics in an arbitrary order; the rotation goes on from one to the next. */
    static method AssignAll(lists: map<Topic, seq<nat>>, sizes: map<Topic, nat>, active: seq<ConsumerId>)
      returns (assignments: map<Topic, Assignment>, ghost order: seq<Topic>)
      requires ListsSound(lists, sizes) && |active| > 0
      ensures assignments.Keys == lists.Keys && Rotated(assignments, active, sizes)
      ensures GoesOn(assignments, active, sizes, lists, order)
    {
      assignments, order := map[], [];
      var index: nat := 0;
      var todo := lists.Keys;
      while todo != {}
        invariant todo <= lists.Keys && assignments.Keys == lists.Keys - todo
        invariant Rotated(assignments, active, sizes)
        invariant GoesOn(assignments, active, sizes, lists, order) && index == Turns(lists, order)
      {
        var t := FiniteSets.Take(todo);
        assert EndsWithCopy(lists[t], sizes[t]);
        var start := index + |lists[t]| - sizes[t];
        var a: Assignment;
        a, index := AssignTopic(lists[t], active, index, sizes[t]);
        assert RoundRobin(a, active, sizes[t], start);
        GoesOnOneMore(assignments, active, sizes, lists, order, t, a);
        order := order + [t];
        assignments := assignments[t := a];
        todo := todo - {t};
      }
    }
  }

  // ---------------------------------------------------------------- fairness

  /** How many of the `n` turns from `lo` on are those of `x`, among `k`. */
  function Hits(lo: nat, n: nat, k: nat, x: nat): nat
    requires k > 0
  {
    if n == 0 then 0 else Hits(lo, n - 1, k, x) + if Turn(lo + n - 1, k) == x then 1 else 0
  }

  lemma {:induction false} HitsSplit(lo: nat, m: nat, n: nat, k: nat, x: nat)
    requires k > 0
    ensures Hits(lo, m + n, k, x) == Hits(lo, m, k, x) + Hits(lo + m, n, k, x)
    decreases n
  {
    if n > 0 {
      HitsSplit(lo, m, n - 1, k, x);
      assert lo + (m + n) - 1 == lo + m + n - 1;
    }
  }

  lemma {:induction false} FirstRound(n: nat, k: nat, x: nat)
    requires x < k && n <= k
    ensures Hits(0, n, k, x) == if x < n then 1 else 0
    decreases n
  {
    if n > 0 {
      FirstRound(n - 1, k, x);
    }
  }

  /** In any `k` consecutive turns everybody has one. */
  lemma {:induction false} EveryRound(lo: nat, k: nat, x: nat)
    requires x < k
    ensures Hits(lo, k, k, x) == 1
    decreases lo
  {
    if lo == 0 {
      FirstRound(k, k, x);
    } else {
      EveryRound(lo - 1, k, x);
      RoundShifts(lo - 1, k, x);
    }
  }

  lemma SingleTurn(lo: nat, k: nat, x: nat)
    requires k > 0
    ensures Hits(lo, 1, k, x) == if Turn(lo, k) == x then 1 else 0
  {
    assert Hits(lo, 0, k, x) == 0;
  }

  lemma RoundShifts(lo: nat, k: nat, x: nat)
    requires x < k
    ensures Hits(lo + 1, k, k, x) == Hits(lo, k, k, x)
  {
    HitsSplit(lo, 1, k, k, x);
    HitsSplit(lo, k, 1, k, x);
    SingleTurn(lo, k, x);
    SingleTurn(lo + k, k, x);
    assert Turn(lo + k, k) == Turn(lo, k);
    assert 1 + k == k + 1;
  }

  lemma {:induction false} HitsAreFair(lo: nat, n: nat, k: nat, x: nat)
    requires x < k
    ensures Rounds(n, k) <= Hits(lo, n, k, x) <= Rounds(n, k) + 1
    ensures Turn(n, k) == 0 ==> Hits(lo, n, k, x) == Rounds(n, k)
    decreases n
  {
    if n < k {
      EveryRound(lo, k, x);
      HitsSplit(lo, n, k - n, k, x);
    } else {
      HitsAreFair(lo, n - k, k, x);
      HitsSplit(lo, n - k, k, k, x);
      EveryRound(lo + (n - k), k, x);
    }
  }

  /** The partitions a consumer owns. */
  function Owned(a: Assignment, n: nat, c: ConsumerId): set<nat> {
    set i: nat | i < n && i in a && a[i] == c
  }

  lemma {:induction false} OwnedCount(a: Assignment, active: seq<ConsumerId>, total: nat, start: nat, n: nat, x: nat)
    requires RoundRobin(a, active, total, start) && n <= total && x < |active|
    requires forall i, j :: 0 <= i < j < |active| ==> active[i] != active[j]
    ensures |Owned(a, n, active[x])| == Hits(start, n, |active|, x)
    decreases n
  {
    if n > 0 {
      OwnedCount(a, active, total, start, n - 1, x);
      TurnInRange(start + (n - 1), |active|);
      assert a[n - 1] == InTurn(active, start, n - 1);
      OwnedOneMore(a, n - 1, active[x]);
      assert start + n - 1 == start + (n - 1);
    }
  }

  lemma OwnedOneMore(a: Assignment, n: nat, c: ConsumerId)
    requires n in a
    ensures |Owned(a, n + 1, c)| == |Owned(a, n, c)| + if a[n] == c then 1 else 0
  {
    assert Owned(a, n + 1, c) == if a[n] == c then Owned(a, n, c) + {n} else Owned(a, n, c);
  }

  /**
   Balance: after a rebalance every active consumer owns the rounded-down or rounded-up share of
   each assigned topic's partitions, and the exact share when it divides evenly.
   */
  lemma SharesAreBalanced(a: Assignment, active: seq<ConsumerId>, n: nat, start: nat, x: nat)
    requires RoundRobin(a, active, n, start) && x < |active|
    requires forall i, j :: 0 <= i < j < |active| ==> active[i] != active[j]
    ensures n / |active| <= |Owned(a, n, active[x])| <= n / |active| + 1
    ensures n % |active| == 0 ==> |Owned(a, n, active[x])| == n / |active|
  {
    OwnedCount(a, active, n, start, n, x);
    HitsAreFair(start, n, |active|, x);
    TurnIsRemainder(n, |active|);
  }

  /** Every partition has one owner, and it is an active consumer. */
  lemma OwnersAreActive(a: Assignment, active: seq<ConsumerId>, n: nat, start: nat, i: nat)
    requires RoundRobin(a, active, n, start) && i < n
    ensures i in a && a[i] in active
  {
    TurnInRange(start + i, |active|);
    assert a[i] == InTurn(active, start, i);
  }

  predicate Lists(consumers: Consumers, c: ConsumerId, t: Topic) {
    c in consumers && t in consumers[c].topics
  }

  lemma {:induction false} TurnsRepeat(start: nat, i: nat, k: nat)
    requires k > 0
    ensures Turn(start + i, k) == Turn(start + Turn(i, k), k)
    decreases i
  {
    if i >= k {
      TurnsRepeat(start, i - k, k);
      assert Turn(start + i, k) == Turn(start + i - k, k);
    }
  }

  lemma OwnersTurn(a: Assignment, active: seq<ConsumerId>, n: nat, start: nat, i: nat) returns (x: nat)
    requires RoundRobin(a, active, n, start) && i < n
    ensures x < n && x < |active| && a[i] == InTurn(active, start, x)
  {
    x := Turn(i, |active|);
    TurnInRange(i, |active|);
    TurnsRepeat(start, i, |active|);
    assert a[i] == InTurn(active, start, i);
  }

  /**
   The turns pay no heed to who subscribed. For one assignment and any number of partitions, every
   owner lists the topic exactly when those whose turn comes up do.
   */
  lemma OwnersSubscribeIffTurnsDo(a: Assignment, active: seq<ConsumerId>, n: nat, start: nat, consumers: Consumers,
                                  t: Topic)
    requires RoundRobin(a, active, n, start)
    ensures (forall i: nat :: i < n ==> Lists(consumers, a[i], t))
       <==> (forall x: nat :: x < n && x < |active| ==> Lists(consumers, InTurn(active, start, x), t))
  {
    if forall x: nat :: x < n && x < |active| ==> Lists(consumers, InTurn(active, start, x), t) {
      forall i: nat | i < n
        ensures Lists(consumers, a[i], t)
      {
        var x := OwnersTurn(a, active, n, start, i);
      }
    }
    if forall i: nat :: i < n ==> Lists(consumers, a[i], t) {
      forall x: nat | x < n && x < |active|
        ensures Lists(consumers, InTurn(active, start, x), t)
      {
        assert a[x] == InTurn(active, start, x);
      }
    }
  }

  /**
   Where the rotation starts depends on the other topics and on the order of iteration. Whatever the
   number of partitions, owners are sure to list the topic exactly when every active consumer does.
   */
  lemma OwnersSubscribeIffAllDo(active: seq<ConsumerId>, n: nat, consumers: Consumers, t: Topic)
    requires |active| > 0 && n > 0
    ensures (forall start: nat, i: nat :: i < n ==> Lists(consumers, InTurn(active, start, i), t))
       <==> (forall c :: c in active ==> Lists(consumers, c, t))
  {
    forall c | c in active
      ensures exists x: nat :: x < |active| && InTurn(active, x, 0) == c
    {
      var x :| 0 <= x < |active| && active[x] == c;
      assert InTurn(active, x, 0) == c;
    }
    forall start: nat, i: nat
      ensures InTurn(active, start, i) in active
    {
      TurnInRange(start + i, |active|);
      assert active[Turn(start + i, |active|)] in active;
    }
  }

  /** With at least as many partitions as consumers it takes all of them in any single assignment. */
  lemma OwnersSubscribeWhenPlenty(a: Assignment, active: seq<ConsumerId>, n: nat, start: nat, consumers: Consumers,
                                  t: Topic)
    requires RoundRobin(a, active, n, start) && n >= |active|
    requires forall i, j :: 0 <= i < j < |active| ==> active[i] != active[j]
    ensures (forall i: nat :: i < n ==> Lists(consumers, a[i], t))
       <==> (forall c :: c in active ==> Lists(consumers, c, t))
  {
    if forall i: nat :: i < n ==> Lists(consumers, a[i], t) {
      forall c | c in active
        ensures Lists(consumers, c, t)
      {
        var i := OwnsOne(a, active, n, start, c);
      }
    }
    forall i: nat | i < n
      ensures a[i] in active
    {
      OwnersAreActive(a, active, n, start, i);
    }
  }

  lemma OwnsOne(a: Assignment, active: seq<ConsumerId>, n: nat, start: nat, c: ConsumerId) returns (i: nat)
    requires RoundRobin(a, active, n, start) && n >= |active| && c in active
    requires forall i, j :: 0 <= i < j < |active| ==> active[i] != active[j]
    ensures i < n && a[i] == c
  {
    var x :| 0 <= x < |active| && active[x] == c;
    var owned := Owned(a, n, c);
    assert |owned| > 0 by {
      OwnedCount(a, active, n, start, n, x);
      HitsAreFair(start, n, |active|, x);
    }
    i := FiniteSets.Pick(owned);
  }

  /** Two consumers join, one of which lists the topic; the rebalance gives the other a partition of it. */
  method OwnerNeedNotSubscribe() returns (g: ConsumerGroup, i: nat)
    ensures "t" in g.assignments && i in g.assignments["t"]
    ensures g.assignments["t"][i] in g.consumers && !Lists(g.consumers, g.assignments["t"][i], "t")
  {
    g := new ConsumerGroup();
    g.Join("x", ["t"]);
    g.Join("y", []);
    var active, _, _ := g.Rebalance(map["t" := 2]);
    YOwnsOne(g.consumers, g.assignments, active);
    i := if g.assignments["t"][0] == "y" then 0 else 1;
  }

  lemma YOwnsOne(consumers: Consumers, assignments: map<Topic, Assignment>, active: seq<ConsumerId>)
    requires consumers == map["x" := Consumer(["t"], true), "y" := Consumer([], true)]
    requires forall i, j :: 0 <= i < j < |active| ==> active[i] != active[j]
    requires forall c :: c in active <==> c in consumers && consumers[c].active
    requires active != [] ==> Rotated(assignments, active, map["t" := 2])
    requires active != [] && Subscribed(consumers, "t") ==> "t" in assignments
    ensures "t" in assignments && 0 in assignments["t"] && 1 in assignments["t"]
    ensures assignments["t"][0] == "y" || assignments["t"][1] == "y"
  {
    assert "y" in active && "t" in consumers["x"].topics;
    assert Subscribed(consumers, "t");
    var start: nat :| RoundRobin(assignments["t"], active, 2, start);
    OneOfTwoIs(assignments["t"], active, start);
  }

  lemma OneOfTwoIs(a: Assignment, active: seq<ConsumerId>, start: nat)
    requires RoundRobin(a, active, 2, start)
    requires forall i, j :: 0 <= i < j < |active| ==> active[i] != active[j]
    requires forall c :: c in active <==> c == "x" || c == "y"
    ensures a[0] == "y" || a[1] == "y"
  {
    TwoActive(active);
    assert "y" in active;
    var i := OwnsOne(a, active, 2, start, "y");
  }

  lemma TwoActive(active: seq<ConsumerId>)
    requires forall i, j :: 0 <= i < j < |active| ==> active[i] != active[j]
    requires forall c :: c in active <==> c == "x" || c == "y"
    ensures |active| == 2
  {
    assert "x" in active && "y" in active;
    var x :| 0 <= x < |active| && active[x] == "x";
    var y :| 0 <= y < |active| && active[y] == "y";
    if |active| > 2 {
      NoThird(active, x, y, 0);
      NoThird(active, x, y, 1);
      NoThird(active, x, y, 2);
    }
  }

  lemma NoThird(active: seq<ConsumerId>, x: nat, y: nat, i: nat)
    requires x < |active| && y < |active| && i < |active| && active[x] == "x" && active[y] == "y"
    requires forall i, j :: 0 <= i < j < |active| ==> active[i] != active[j]
    requires forall c :: c in active <==> c == "x" || c == "y"
    ensures i == x || i == y
  {
    assert active[i] in active;
  }
}
