/**
 The partitioned log with consumer groups: appending, consuming with retries, the dead-letter queue
 and committed offsets. What a message handler answers is not known in advance and may differ from
 attempt to attempt.
 */
module MessageBus {

  type Topic = string
  type Group = string
  type TaskId = nat

  const MAX_RETRIES := 3

  datatype Message = Message(topic: Topic, partition: nat, offset: nat, key: string, value: string)

  datatype Partition = Partition(messages: seq<Message>, offset: nat)

  type Topics = map<Topic, seq<Partition>>

  /** A place in the log as one group sees it. */
  datatype Slot = Slot(group: Group, topic: Topic, partition: nat)
  datatype Entry = Entry(slot: Slot, offset: nat)

  predicate Exists(topics: Topics, t: Topic, p: nat) {
    t in topics && p < |topics[t]|
  }

  function Append(q: Partition, t: Topic, p: nat, key: string, value: string): Partition {
    Partition(q.messages + [Message(t, p, q.offset, key, value)], q.offset + 1)
  }

  function Sent(topics: Topics, t: Topic, p: nat, key: string, value: string): Topics
    requires Exists(topics, t, p)
  {
    topics[t := topics[t][p := Append(topics[t][p], t, p, key, value)]]
  }

  /** Message `i` of a partition has offset `i`, and the partition counts its messages. */
  ghost predicate Indexed(topics: Topics) {
    forall t, p: nat :: Exists(topics, t, p) ==>
      && topics[t][p].offset == |topics[t][p].messages|
      && forall i :: 0 <= i < |topics[t][p].messages| ==>
           var m := topics[t][p].messages[i];
           m.offset == i && m.topic == t && m.partition == p
  }

  lemma SendKeepsIndexed(topics: Topics, t: Topic, p: nat, key: string, value: string)
    requires Indexed(topics) && Exists(topics, t, p)
    ensures Indexed(Sent(topics, t, p, key, value))
  {
    var topics' := Sent(topics, t, p, key, value);
    forall u, q: nat | Exists(topics', u, q)
      ensures topics'[u][q].offset == |topics'[u][q].messages|
      ensures forall i :: 0 <= i < |topics'[u][q].messages| ==>
                var m := topics'[u][q].messages[i]; m.offset == i && m.topic == u && m.partition == q
    {
      assert Exists(topics, u, q);
    }
  }

  /** The messages at or after an offset, found by scanning the whole partition. */
  function From(ms: seq<Message>, last: nat): seq<Message> {
    if ms == [] then []
    else From(ms[..|ms| - 1], last) + if ms[|ms| - 1].offset >= last then [ms[|ms| - 1]] else []
  }

  lemma {:induction false} FromIsSuffix(ms: seq<Message>, last: nat)
    requires forall i :: 0 <= i < |ms| ==> ms[i].offset == i
    ensures From(ms, last) == if last <= |ms| then ms[last..] else []
    decreases |ms|
  {
    if ms != [] {
      FromIsSuffix(ms[..|ms| - 1], last);
      assert last < |ms| ==> ms[last..] == ms[..|ms| - 1][last..] + [ms[|ms| - 1]];
    }
  }

  /** A keyed message goes where its hash says; an unkeyed one where the clock says. */
  function SelectPartition(key: string, partitions: nat, hash: string -> nat, nanos: nat): (p: nat)
    requires partitions > 0
    ensures p < partitions
  {
    if key == "" then nanos % partitions else hash(key) % partitions
  }

  /** One key, one partition, whatever the clock says; without a key the clock alone decides. */
  lemma SameKeySamePartition(key: string, partitions: nat, hash: string -> nat, hash': string -> nat, nanos: nat,
                             nanos': nat)
    requires partitions > 0
    ensures key != "" ==>
              SelectPartition(key, partitions, hash, nanos) == SelectPartition(key, partitions, hash, nanos')
              == hash(key) % partitions
    ensures key == "" ==>
              SelectPartition(key, partitions, hash, nanos) == SelectPartition(key, partitions, hash', nanos)
              == nanos % partitions
  {
  }

  // ---------------------------------------------------------------- the code

  datatype SendResult = Stored(partition: nat) | TopicNotFound | DivisionByZero

  /** What a group's work on a partition accounts for. */
  ghost predicate Accounted(done: set<Entry>, dead: set<Entry>, slot: Slot, upto: nat) {
    forall o: nat :: o < upto ==> Entry(slot, o) in done || Entry(slot, o) in dead
  }

  /**
   How the handler answers attempt `a` at a message: success, or an error, a panic or a timeout.
   */
  type Handler = (Message, nat) -> bool

  ghost predicate Handled(handle: Handler, m: Message) {
    exists a: nat :: a < MAX_RETRIES && handle(m, a)
  }

  ghost function Commit(committed: map<Slot, nat>, slot: Slot, m: Message, handle: Handler): map<Slot, nat> {
    if Handled(handle, m) then committed[slot := m.offset + 1] else committed
  }

  /** The group's offset after working through these messages. */
  ghost function Commits(committed: map<Slot, nat>, slot: Slot, ms: seq<Message>, handle: Handler): map<Slot, nat> {
    if ms == [] then committed
    else Commit(Commits(committed, slot, ms[..|ms| - 1], handle), slot, ms[|ms| - 1], handle)
  }

  ghost function Refused(ms: seq<Message>, handle: Handler): seq<Message> {
    if ms == [] then []
    else Refused(ms[..|ms| - 1], handle) + if Handled(handle, ms[|ms| - 1]) then [] else [ms[|ms| - 1]]
  }

  lemma BatchGrows(committed: map<Slot, nat>, slot: Slot, ms: seq<Message>, i: nat, handle: Handler)
    requires i < |ms|
    ensures Refused(ms[..i + 1], handle) == Refused(ms[..i], handle) + if Handled(handle, ms[i]) then [] else [ms[i]]
    ensures Commits(committed, slot, ms[..i + 1], handle)
         == Commit(Commits(committed, slot, ms[..i], handle), slot, ms[i], handle)
  {
    assert ms[..i + 1][..i] == ms[..i];
  }

  ghost predicate Climbing(ms: seq<Message>) {
    forall i, j :: 0 <= i < j < |ms| ==> ms[i].offset < ms[j].offset
  }

  /** The dead letters are exactly the messages no attempt succeeded on, in their order. */
  lemma {:induction false} RefusedInOrder(ms: seq<Message>, handle: Handler)
    ensures forall m :: m in Refused(ms, handle) <==> m in ms && !Handled(handle, m)
    ensures Climbing(ms) ==> Climbing(Refused(ms, handle))
  {
    if ms != [] {
      var init, m := ms[..|ms| - 1], ms[|ms| - 1];
      RefusedInOrder(init, handle);
      assert forall x :: x in ms <==> x in init || x == m;
      if Climbing(ms) {
        RefusedClimbs(Refused(init, handle), init, m);
      }
    }
  }

  lemma RefusedClimbs(refused: seq<Message>, init: seq<Message>, m: Message)
    requires Climbing(init + [m]) && (Climbing(init) ==> Climbing(refused))
    requires forall x :: x in refused ==> x in init
    ensures Climbing(refused) && Climbing(refused + [m])
  {
    assert forall i :: 0 <= i < |init| ==> (init + [m])[i] == init[i] && init[i].offset < (init + [m])[|init|].offset;
    forall i | 0 <= i < |refused|
      ensures refused[i].offset < m.offset
    {
      assert refused[i] in init;
    }
  }

  /** The group's offset ends up past the last message some attempt succeeded on, or stays if there is none. */
  lemma {:induction false} OffsetPastLast(committed: map<Slot, nat>, slot: Slot, ms: seq<Message>, handle: Handler,
                                          end: nat)
    requires end <= |ms| && (end > 0 ==> Handled(handle, ms[end - 1]))
    requires forall i :: end <= i < |ms| ==> !Handled(handle, ms[i])
    ensures Commits(committed, slot, ms, handle) ==
            if end == 0 then committed else committed[slot := ms[end - 1].offset + 1]
  {
    if ms != [] {
      var init := ms[..|ms| - 1];
      if end < |ms| {
        OffsetPastLast(committed, slot, init, handle, end);
      } else {
        CommitsElsewhere(committed, slot, init, handle, ms[end - 1].offset + 1);
      }
    }
  }

  lemma {:induction false} CommitsElsewhere(committed: map<Slot, nat>, slot: Slot, ms: seq<Message>, handle: Handler,
                                            o: nat)
    ensures Commits(committed, slot, ms, handle)[slot := o] == committed[slot := o]
  {
    if ms != [] {
      CommitsElsewhere(committed, slot, ms[..|ms| - 1], handle, o);
    }
  }

  function LogOf(topics: Topics, slot: Slot): seq<Message> {
    if Exists(topics, slot.topic, slot.partition) then topics[slot.topic][slot.partition].messages else []
  }

  /** What the bus holds, and what has been done about it. */
  datatype Ledger = Ledger(
    topics: Topics, committed: map<Slot, nat>, dlq: seq<Message>, done: set<Entry>, dead: set<Entry>)

  /** Below a committed offset everything was handled or dead-lettered for that group. */
  ghost predicate Sound(b: Ledger) {
    && Indexed(b.topics)
    && (forall s :: s in b.committed ==>
          b.committed[s] <= |LogOf(b.topics, s)| && Accounted(b.done, b.dead, s, b.committed[s]))
    && (forall e :: e in b.dead ==>
          e.offset < |LogOf(b.topics, e.slot)| && LogOf(b.topics, e.slot)[e.offset] in b.dlq)
  }

  /** Logs, accounts and the dead-letter queue only ever grow. */
  ghost predicate Grew(b: Ledger, b': Ledger) {
    && (forall t, p: nat :: Exists(b.topics, t, p) ==> Exists(b'.topics, t, p))
    && (forall slot :: LogOf(b.topics, slot) <= LogOf(b'.topics, slot))
    && b.done <= b'.done && b.dead <= b'.dead && (forall m :: m in b.dlq ==> m in b'.dlq)
  }

  lemma GrewOn(a: Ledger, b: Ledger, c: Ledger)
    requires Grew(a, b) && Grew(b, c)
    ensures Grew(a, c)
  {
    forall slot
      ensures LogOf(a.topics, slot) <= LogOf(c.topics, slot)
    {
      assert LogOf(a.topics, slot) <= LogOf(b.topics, slot) <= LogOf(c.topics, slot);
    }
  }

  /** Message `m` stands in the log, and everything before it is accounted for. */
  ghost predicate UpTo(b: Ledger, slot: Slot, m: Message) {
    && m.offset < |LogOf(b.topics, slot)| && LogOf(b.topics, slot)[m.offset] == m
    && Accounted(b.done, b.dead, slot, m.offset)
  }

  lemma UpToGrows(b: Ledger, b': Ledger, slot: Slot, m: Message)
    requires UpTo(b, slot, m) && Grew(b, b')
    ensures UpTo(b', slot, m)
  {
    assert LogOf(b.topics, slot) <= LogOf(b'.topics, slot);
  }

  function MarkDone(b: Ledger, slot: Slot, m: Message): Ledger {
    b.(done := b.done + {Entry(slot, m.offset)})
  }

  function Bury(b: Ledger, slot: Slot, m: Message): Ledger {
    b.(dlq := b.dlq + [m], dead := b.dead + {Entry(slot, m.offset)})
  }

  lemma MarksKeepSound(b: Ledger, slot: Slot, m: Message)
    requires Sound(b) && UpTo(b, slot, m)
    ensures Sound(MarkDone(b, slot, m)) && Grew(b, MarkDone(b, slot, m))
    ensures Sound(Bury(b, slot, m)) && Grew(b, Bury(b, slot, m))
  {
  }

  lemma CommitKeepsSound(b: Ledger, slot: Slot, m: Message)
    requires Sound(b) && UpTo(b, slot, m) && Entry(slot, m.offset) in b.done
    ensures var b' := b.(committed := b.committed[slot := m.offset + 1]); Sound(b') && Grew(b, b')
  {
  }

  /** With nobody else at work: the offset and the dead letters after these messages. */
  ghost predicate Worked(b0: Ledger, b: Ledger, slot: Slot, ms: seq<Message>, handle: Handler) {
    && b.topics == b0.topics && b.dlq == b0.dlq + Refused(ms, handle)
    && b.committed == Commits(b0.committed, slot, ms, handle)
  }

  ghost predicate WorkedOn(b0: Ledger, b: Ledger, slot: Slot, m: Message, handle: Handler) {
    && b.topics == b0.topics && b.dlq == b0.dlq + (if Handled(handle, m) then [] else [m])
    && b.committed == Commit(b0.committed, slot, m, handle)
  }

  lemma WorkedOneMore(b0: Ledger, b: Ledger, b': Ledger, slot: Slot, ms: seq<Message>, i: nat, handle: Handler)
    requires i < |ms| && Worked(b0, b, slot, ms[..i], handle) && WorkedOn(b, b', slot, ms[i], handle)
    ensures Worked(b0, b', slot, ms[..i + 1], handle)
  {
    BatchGrows(b0.committed, slot, ms, i, handle);
  }

  /** The first `a` attempts at `m` have failed; after the last one it is dead-lettered. */
  ghost predicate Trying(b0: Ledger, b: Ledger, slot: Slot, m: Message, handle: Handler, a: nat) {
    && Grew(b0, b) && UpTo(b, slot, m)
    && (forall x: nat :: x < a ==> !handle(m, x))
    && (a == MAX_RETRIES ==> Entry(slot, m.offset) in b.dead && m in b.dlq)
  }

  /** The message is accounted for: done if some attempt succeeded, dead-lettered if none did. */
  ghost predicate SeenTo(b0: Ledger, b: Ledger, slot: Slot, m: Message, handle: Handler) {
    && Grew(b0, b) && Accounted(b.done, b.dead, slot, m.offset + 1)
    && if Handled(handle, m) then Entry(slot, m.offset) in b.done else Entry(slot, m.offset) in b.dead && m in b.dlq
  }

  lemma AcceptedIsSeenTo(b0: Ledger, b: Ledger, slot: Slot, m: Message, handle: Handler, a: nat)
    requires Grew(b0, b) && UpTo(b, slot, m) && Entry(slot, m.offset) in b.done && a < MAX_RETRIES && handle(m, a)
    ensures SeenTo(b0, b, slot, m, handle) && Handled(handle, m)
  {
  }

  lemma ExhaustedIsSeenTo(b0: Ledger, b: Ledger, slot: Slot, m: Message, handle: Handler)
    requires Trying(b0, b, slot, m, handle, MAX_RETRIES)
    ensures SeenTo(b0, b, slot, m, handle) && !Handled(handle, m)
  {
  }

  predicate Untouched(b0: Ledger, b: Ledger, buried: seq<Message>) {
    b.topics == b0.topics && b.committed == b0.committed && b.dlq == b0.dlq + buried
  }

  /** The partition's log is what it was and one message more, the one that was sent; all else is as it was. */
  ghost predicate StoredLast(topics: Topics, topics': Topics, t: Topic, p: nat, key: string, value: string) {
    && topics'.Keys == topics.Keys && Exists(topics, t, p) && |topics'[t]| == |topics[t]|
    && (forall u :: u in topics && u != t ==> topics'[u] == topics[u])
    && (forall q :: 0 <= q < |topics[t]| && q != p ==> topics'[t][q] == topics[t][q])
    && var log, log' := topics[t][p].messages, topics'[t][p].messages;
    && |log'| == |log| + 1 && log'[..|log|] == log && topics'[t][p].offset == |log'|
    && var m := log'[|log|];
    && m.key == key && m.value == value && m.topic == t && m.partition == p && m.offset == |log|
  }

  /** Others send and consume between any two sections; on an undisturbed bus nobody does. */
  class Bus {
    const hash: string -> nat
    const undisturbed: bool
    var topics: Topics
    var committed: map<Slot, nat>
    var dlq: seq<Message>
    ghost var done: set<Entry>
    ghost var dead: set<Entry>

    ghost function View(): Ledger reads this { Ledger(topics, committed, dlq, done, dead) }

    ghost predicate Valid() reads this { Sound(View()) }

    constructor (hash: string -> nat, undisturbed: bool)
      ensures Valid() && this.undisturbed == undisturbed && topics == map[] && committed == map[] && dlq == []
    {
      this.hash, this.undisturbed := hash, undisturbed;
      topics, committed, dlq, done, dead := map[], map[], [], {}, {};
    }

    /** Any number of sends and sections of other consuming calls. */
    method Interfere()
      requires Valid()
      modifies this
      ensures Valid() && Grew(old(View()), View())
      ensures undisturbed ==> View() == old(View())
    {
    }

    method CreateTopic(name: Topic, partitions: nat) returns (ok: bool)
      requires Valid()
      modifies this`topics
      ensures Valid() && (ok <==> name !in old(topics))
      ensures topics == if ok then old(topics)[name := seq(partitions, _ => Partition([], 0))] else old(topics)
    {
      if name in topics {
        return false;
      }
      CreateKeepsSound(View(), name, partitions);
      topics := topics[name := seq(partitions, _ => Partition([], 0))];
      return true;
    }

    method Send(topic: Topic, key: string, value: string, nanos: nat) returns (r: SendResult)
      requires Valid()
      modifies this`topics
      ensures Valid()
      ensures r.TopicNotFound? <==> topic !in old(topics)
      ensures r.DivisionByZero? <==> topic in old(topics) && |old(topics)[topic]| == 0
      ensures r.Stored? ==>
                r.partition == (if key == "" then nanos else hash(key)) % |old(topics)[topic]| < |old(topics)[topic]|
      ensures r.Stored? ==> StoredLast(old(topics), topics, topic, r.partition, key, value)
      ensures r.Stored? ==> topics == Sent(old(topics), topic, r.partition, key, value)
      ensures !r.Stored? ==> topics == old(topics)
    {
      if topic !in topics {
        return TopicNotFound;
      }
      if |topics[topic]| == 0 {
        return DivisionByZero;
      }
      var p := SelectPartition(key, |topics[topic]|, hash, nanos);
      SendKeepsSound(View(), topic, p, key, value);
      topics := Sent(topics, topic, p, key, value);
      return Stored(p);
    }

    /**
     Up to three attempts at one message, then the dead-letter queue. Whatever others do meanwhile, the
     message ends up accounted for to the group.
     */
    method ConsumeMessage(slot: Slot, m: Message, handle: Handler)
      requires Valid() && UpTo(View(), slot, m)
      modifies this
      ensures Valid() && SeenTo(old(View()), View(), slot, m, handle)
      ensures undisturbed ==> WorkedOn(old(View()), View(), slot, m, handle)
      ensures undisturbed && (handle(m, 0) || handle(m, 1) || handle(m, 2)) ==>
                committed == old(committed)[slot := m.offset + 1] && dlq == old(dlq)
      ensures undisturbed && !handle(m, 0) && !handle(m, 1) && !handle(m, 2) ==>
                committed == old(committed) && dlq == old(dlq) + [m]
    {
      ghost var start := View();
      var retryCount := 0;
      while retryCount < MAX_RETRIES
        invariant retryCount <= MAX_RETRIES && Valid() && Trying(start, View(), slot, m, handle, retryCount)
        invariant undisturbed ==> Untouched(start, View(), if retryCount == MAX_RETRIES then [m] else [])
      {
        var accepted := Try(slot, m, handle, retryCount, start);
        if accepted {
          return;
        }
        retryCount := retryCount + 1;
      }
      ExhaustedIsSeenTo(start, View(), slot, m, handle);
    }

    /** One attempt: commit on success, dead-letter after the last failure. */
    method Try(slot: Slot, m: Message, handle: Handler, retryCount: nat, ghost start: Ledger) returns (accepted: bool)
      requires Valid() && retryCount < MAX_RETRIES && Trying(start, View(), slot, m, handle, retryCount)
      requires undisturbed ==> Untouched(start, View(), [])
      modifies this
      ensures Valid() && accepted == handle(m, retryCount)
      ensures accepted ==> SeenTo(start, View(), slot, m, handle)
      ensures accepted && undisturbed ==> WorkedOn(start, View(), slot, m, handle)
      ensures !accepted ==> Trying(start, View(), slot, m, handle, retryCount + 1)
      ensures !accepted && undisturbed ==> Untouched(start, View(), if retryCount + 1 == MAX_RETRIES then [m] else [])
    {
      Pause(slot, m, start);
      accepted := handle(m, retryCount);
      if accepted {
        Accept(slot, m, start);
        AcceptedIsSeenTo(start, View(), slot, m, handle, retryCount);
      } else if retryCount + 1 == MAX_RETRIES {
        Reject(slot, m, start);
      }
    }

    method Pause(ghost slot: Slot, ghost m: Message, ghost start: Ledger)
      requires Valid() && Grew(start, View()) && UpTo(View(), slot, m)
      modifies this
      ensures Valid() && Grew(start, View()) && UpTo(View(), slot, m)
      ensures undisturbed ==> View() == old(View())
    {
      ghost var before := View();
      Interfere();
      GrewOn(start, before, View());
      UpToGrows(before, View(), slot, m);
    }

    /** The handler's success, and then the commit. */
    method Accept(slot: Slot, m: Message, ghost start: Ledger)
      requires Valid() && Grew(start, View()) && UpTo(View(), slot, m)
      modifies this
      ensures Valid() && Grew(start, View()) && UpTo(View(), slot, m) && Entry(slot, m.offset) in done
      ensures undisturbed ==> topics == old(topics) && dlq == old(dlq)
      ensures undisturbed ==> committed == old(committed)[slot := m.offset + 1]
    {
      ghost var b := View();
      MarksKeepSound(b, slot, m);
      done := done + {Entry(slot, m.offset)};
      GrewOn(start, b, View());
      ghost var marked := View();
      Pause(slot, m, marked);
      GrewOn(start, marked, View());
      b := View();
      CommitKeepsSound(b, slot, m);
      committed := committed[slot := m.offset + 1];
      GrewOn(start, b, View());
    }

    method Reject(slot: Slot, m: Message, ghost start: Ledger)
      requires Valid() && Grew(start, View()) && UpTo(View(), slot, m)
      modifies this
      ensures Valid() && Grew(start, View()) && UpTo(View(), slot, m) && Entry(slot, m.offset) in dead && m in dlq
      ensures undisturbed ==> topics == old(topics) && committed == old(committed) && dlq == old(dlq) + [m]
    {
      Pause(slot, m, start);
      ghost var b := View();
      MarksKeepSound(b, slot, m);
      dlq := dlq + [m];
      dead := dead + {Entry(slot, m.offset)};
      GrewOn(start, b, View());
    }

    /**
     After the call, everything that was in the partition is accounted for to the group, whatever others
     sent and consumed meanwhile. Undisturbed, what the handler refused is dead-lettered in order, and
     the offset is past the last message it accepted.
     */
    method ConsumePartition(slot: Slot, handle: Handler) returns (ok: bool)
      requires Valid()
      modifies this
      ensures Valid() && Grew(old(View()), View()) && (ok <==> Exists(old(topics), slot.topic, slot.partition))
      ensures ok ==> Accounted(done, dead, slot, |LogOf(old(topics), slot)|)
      ensures ok && undisturbed ==>
                var first := if slot in old(committed) then old(committed)[slot] else 0;
                Worked(old(View()), View(), slot, old(topics)[slot.topic][slot.partition].messages[first..], handle)
      ensures !ok ==> View() == old(View())
    {
      if slot.topic !in topics || slot.partition >= |topics[slot.topic]| {
        return false;
      }
      ghost var before := View();
      Interfere();
      ghost var seen := View();
      var lastOffset := if slot in committed then committed[slot] else 0;
      Interfere();
      GrewOn(before, seen, View());
      assert LogOf(before.topics, slot) <= LogOf(topics, slot);
      var messages := From(topics[slot.topic][slot.partition].messages, lastOffset);
      ReadIsSuffix(seen, View(), slot, lastOffset);
      ghost var read := View();
      ConsumeBatch(slot, messages, lastOffset, handle);
      GrewOn(before, read, View());
      return true;
    }

    method ConsumeBatch(slot: Slot, messages: seq<Message>, ghost first: nat, handle: Handler)
      requires Valid() && first <= |LogOf(topics, slot)| && messages == LogOf(topics, slot)[first..]
      requires Accounted(done, dead, slot, first)
      modifies this
      ensures Valid() && Grew(old(View()), View()) && Accounted(done, dead, slot, |LogOf(old(topics), slot)|)
      ensures undisturbed ==> Worked(old(View()), View(), slot, messages, handle)
    {
      for i := 0 to |messages|
        invariant Valid() && Grew(old(View()), View()) && Accounted(done, dead, slot, first + i)
        invariant undisturbed ==> Worked(old(View()), View(), slot, messages[..i], handle)
      {
        ghost var before := View();
        NextIsUp(old(View()), before, slot, first, i);
        ConsumeMessage(slot, messages[i], handle);
        GrewOn(old(View()), before, View());
        if undisturbed {
          WorkedOneMore(old(View()), before, View(), slot, messages, i, handle);
        }
      }
      assert messages[..|messages|] == messages;
    }
  }

  lemma CreateKeepsSound(b: Ledger, name: Topic, partitions: nat)
    requires Sound(b) && name !in b.topics
    ensures Sound(b.(topics := b.topics[name := seq(partitions, _ => Partition([], 0))]))
  {
    var topics' := b.topics[name := seq(partitions, _ => Partition([], 0))];
    assert forall slot: Slot :: slot.topic != name ==> LogOf(topics', slot) == LogOf(b.topics, slot);
    assert forall slot: Slot :: slot.topic == name ==> LogOf(b.topics, slot) == [];
  }

  lemma SendKeepsSound(b: Ledger, t: Topic, p: nat, key: string, value: string)
    requires Sound(b) && Exists(b.topics, t, p)
    ensures var b' := b.(topics := Sent(b.topics, t, p, key, value)); Sound(b') && Grew(b, b')
  {
    var b' := b.(topics := Sent(b.topics, t, p, key, value));
    SendKeepsIndexed(b.topics, t, p, key, value);
    forall slot
      ensures LogOf(b.topics, slot) <= LogOf(b'.topics, slot)
    {
      assert Exists(b'.topics, slot.topic, slot.partition) <==> Exists(b.topics, slot.topic, slot.partition);
    }
  }

  lemma LogIsIndexed(topics: Topics, slot: Slot)
    requires Indexed(topics)
    ensures forall i :: 0 <= i < |LogOf(topics, slot)| ==> LogOf(topics, slot)[i].offset == i
  {
  }

  /** What is read from an offset seen earlier is a suffix of the log, and all before it is accounted for. */
  lemma ReadIsSuffix(seen: Ledger, b: Ledger, slot: Slot, last: nat)
    requires Sound(seen) && Sound(b) && Grew(seen, b)
    requires last == if slot in seen.committed then seen.committed[slot] else 0
    ensures last <= |LogOf(b.topics, slot)| && From(LogOf(b.topics, slot), last) == LogOf(b.topics, slot)[last..]
    ensures Accounted(b.done, b.dead, slot, last)
  {
    LogIsIndexed(b.topics, slot);
    assert LogOf(seen.topics, slot) <= LogOf(b.topics, slot);
    FromIsSuffix(LogOf(b.topics, slot), last);
  }

  lemma NextIsUp(b0: Ledger, b: Ledger, slot: Slot, first: nat, i: nat)
    requires Sound(b0) && Grew(b0, b) && first + i < |LogOf(b0.topics, slot)|
    requires Accounted(b.done, b.dead, slot, first + i)
    ensures UpTo(b, slot, LogOf(b0.topics, slot)[first..][i]) && LogOf(b0.topics, slot)[first..][i].offset == first + i
  {
    LogIsIndexed(b0.topics, slot);
    assert LogOf(b0.topics, slot) <= LogOf(b.topics, slot);
  }

  // ---------------------------------------------------------------- all interleavings

  /** Where a consuming call is; `batch` is what it has still to work on. */
  datatype Phase =
    | GotOffset(last: nat)
    | Working(batch: seq<Message>, retries: nat)
    | Committing(batch: seq<Message>)
    | Burying(batch: seq<Message>)

  datatype Task = Task(slot: Slot, phase: Phase)

  datatype State = State(
    topics: Topics, committed: map<Slot, nat>, dlq: seq<Message>, tasks: map<TaskId, Task>,
    done: set<Entry>, dead: set<Entry>)

  ghost predicate Init(s: State) {
    s.committed == map[] && s.dlq == [] && s.tasks == map[] && s.done == {} && s.dead == {}
    && forall t, p: nat :: Exists(s.topics, t, p) ==> s.topics[t][p] == Partition([], 0)
  }

  predicate SendStep(s: State, s': State, t: Topic, p: nat, key: string, value: string) {
    Exists(s.topics, t, p) && s' == s.(topics := Sent(s.topics, t, p, key, value))
  }

  /** A consumer, of any group, takes up a partition; rebalancing may have several at one partition. */
  predicate BeginStep(s: State, s': State, id: TaskId, slot: Slot) {
    && id !in s.tasks && Exists(s.topics, slot.topic, slot.partition)
    && s' == s.(tasks := s.tasks[id := Task(slot, GotOffset(if slot in s.committed then s.committed[slot] else 0))])
  }

  function Goto(s: State, id: TaskId, phase: Phase): State
    requires id in s.tasks
  {
    s.(tasks := s.tasks[id := s.tasks[id].(phase := phase)])
  }

  /** The next locked section or handler call of one consuming call; `ok` is the handler's answer. */
  predicate WorkStep(s: State, s': State, id: TaskId, ok: bool) {
    && id in s.tasks
    && var slot := s.tasks[id].slot;
    && Exists(s.topics, slot.topic, slot.partition)
    && match s.tasks[id].phase
       case GotOffset(last) =>
         s' == Goto(s, id, Working(From(s.topics[slot.topic][slot.partition].messages, last), 0))
       case Working(batch, retries) =>
         && batch != []
         && s' == if ok then Goto(s.(done := s.done + {Entry(slot, batch[0].offset)}), id, Committing(batch))
                  else if retries + 1 < MAX_RETRIES then Goto(s, id, Working(batch, retries + 1))
                  else Goto(s, id, Burying(batch))
       case Committing(batch) =>
         && batch != []
         && s' == Goto(s.(committed := s.committed[slot := batch[0].offset + 1]), id, Working(batch[1..], 0))
       case Burying(batch) =>
         && batch != []
         && s' == Goto(s.(dlq := s.dlq + [batch[0]], dead := s.dead + {Entry(slot, batch[0].offset)}), id,
                       Working(batch[1..], 0))
  }

  ghost predicate Next(s: State, s': State) {
    || (exists t, p: nat, key, value :: SendStep(s, s', t, p, key, value))
    || (exists id, slot :: BeginStep(s, s', id, slot))
    || (exists id, ok :: WorkStep(s, s', id, ok))
  }

  // ---------------------------------------------------------------- the code takes these steps

  /** From `s` to `s'` by sections of one consuming call alone. */
  ghost predicate Works(s: State, s': State, id: TaskId, n: nat)
    decreases n
  {
    if n == 0 then s' == s
    else exists mid, ok :: WorkStep(s, mid, id, ok) && Works(mid, s', id, n - 1)
  }

  lemma {:induction false} WorksOn(s: State, mid: State, s': State, id: TaskId, m: nat, n: nat)
    requires Works(s, mid, id, m) && Works(mid, s', id, n)
    ensures Works(s, s', id, m + n)
    decreases m
  {
    if m > 0 {
      var next, ok :| WorkStep(s, next, id, ok) && Works(next, mid, id, m - 1);
      WorksOn(next, mid, s', id, m - 1, n);
    }
  }

  /** What working through one message comes to. */
  ghost function Consumed(s: State, id: TaskId, handle: Handler): State
    requires id in s.tasks && s.tasks[id].phase.Working? && s.tasks[id].phase.batch != []
  {
    var slot, batch := s.tasks[id].slot, s.tasks[id].phase.batch;
    var e := Entry(slot, batch[0].offset);
    var t := if Handled(handle, batch[0])
             then s.(done := s.done + {e}, committed := s.committed[slot := batch[0].offset + 1])
             else s.(dead := s.dead + {e}, dlq := s.dlq + [batch[0]]);
    Goto(t, id, Working(batch[1..], 0))
  }

  ghost predicate AtWork(s: State, id: TaskId) {
    && id in s.tasks && s.tasks[id].phase.Working? && s.tasks[id].phase.batch != []
    && Exists(s.topics, s.tasks[id].slot.topic, s.tasks[id].slot.partition)
  }

  /** The attempts at one message, then the commit or the dead letter, are sections of the machine. */
  lemma {:induction false} MessageTakesMachineSteps(s: State, id: TaskId, handle: Handler) returns (n: nat)
    requires AtWork(s, id) && s.tasks[id].phase.retries < MAX_RETRIES
    requires forall a: nat :: a < s.tasks[id].phase.retries ==> !handle(s.tasks[id].phase.batch[0], a)
    ensures Works(s, Consumed(s, id, handle), id, n)
    decreases MAX_RETRIES - s.tasks[id].phase.retries
  {
    var slot, batch, a := s.tasks[id].slot, s.tasks[id].phase.batch, s.tasks[id].phase.retries;
    var end := Consumed(s, id, handle);
    if handle(batch[0], a) {
      var mid := Goto(s.(done := s.done + {Entry(slot, batch[0].offset)}), id, Committing(batch));
      TwoSections(s, mid, end, id, true);
      n := 2;
    } else if a + 1 == MAX_RETRIES {
      TwoSections(s, Goto(s, id, Burying(batch)), end, id, false);
      n := 2;
    } else {
      var mid := Goto(s, id, Working(batch, a + 1));
      n := MessageTakesMachineSteps(mid, id, handle);
      assert Consumed(mid, id, handle) == end;
      assert WorkStep(s, mid, id, false);
      n := n + 1;
    }
  }

  lemma TwoSections(s: State, mid: State, end: State, id: TaskId, ok: bool)
    requires WorkStep(s, mid, id, ok) && WorkStep(mid, end, id, ok)
    ensures Works(s, end, id, 2)
  {
    assert Works(end, end, id, 0);
    assert Works(mid, end, id, 1);
  }

  /** Working through a whole batch alone leaves offsets and dead letters as the code's loop does. */
  lemma {:induction false} BatchTakesMachineSteps(s: State, id: TaskId, handle: Handler, batch: seq<Message>)
    returns (n: nat, s': State)
    requires id in s.tasks && s.tasks[id].phase == Working(batch, 0)
    requires Exists(s.topics, s.tasks[id].slot.topic, s.tasks[id].slot.partition)
    ensures Works(s, s', id, n) && Through(s, s', id, s.tasks[id].slot, batch, handle)
    decreases |batch|
  {
    if batch == [] {
      n, s' := 0, s;
      assert s.dlq + [] == s.dlq;
    } else {
      var one := MessageTakesMachineSteps(s, id, handle);
      var mid := Consumed(s, id, handle);
      ConsumedIs(s, id, handle);
      var rest;
      rest, s' := BatchTakesMachineSteps(mid, id, handle, batch[1..]);
      WorksOn(s, mid, s', id, one, rest);
      n := one + rest;
      ThroughFromFront(s, mid, s', id, s.tasks[id].slot, batch, handle);
    }
  }

  lemma ConsumedIs(s: State, id: TaskId, handle: Handler)
    requires id in s.tasks && s.tasks[id].phase.Working? && s.tasks[id].phase.batch != []
    ensures var slot, batch, s' := s.tasks[id].slot, s.tasks[id].phase.batch, Consumed(s, id, handle);
            && s'.topics == s.topics && id in s'.tasks && s'.tasks[id] == Task(slot, Working(batch[1..], 0))
            && s'.dlq == s.dlq + (if Handled(handle, batch[0]) then [] else [batch[0]])
            && s'.committed == Commit(s.committed, slot, batch[0], handle)
  {
  }

  /** The batch is finished, and offsets and dead letters are as the code's loop leaves them. */
  ghost predicate Through(s: State, s': State, id: TaskId, slot: Slot, batch: seq<Message>, handle: Handler) {
    && s'.topics == s.topics
    && id in s'.tasks && s'.tasks[id] == Task(slot, Working([], 0))
    && s'.dlq == s.dlq + Refused(batch, handle)
    && s'.committed == Commits(s.committed, slot, batch, handle)
  }

  lemma ThroughFromFront(s: State, mid: State, s': State, id: TaskId, slot: Slot, batch: seq<Message>, handle: Handler)
    requires batch != [] && mid.topics == s.topics && Through(mid, s', id, slot, batch[1..], handle)
    requires mid.dlq == s.dlq + if Handled(handle, batch[0]) then [] else [batch[0]]
    requires mid.committed == Commit(s.committed, slot, batch[0], handle)
    ensures Through(s, s', id, slot, batch, handle)
  {
    BatchFromFront(s.committed, slot, batch, handle);
  }

  lemma {:induction false} BatchFromFront(committed: map<Slot, nat>, slot: Slot, ms: seq<Message>, handle: Handler)
    requires ms != []
    ensures Refused(ms, handle) == (if Handled(handle, ms[0]) then [] else [ms[0]]) + Refused(ms[1..], handle)
    ensures Commits(committed, slot, ms, handle)
         == Commits(Commit(committed, slot, ms[0], handle), slot, ms[1..], handle)
    decreases |ms|
  {
    if |ms| == 1 {
      assert ms[..0] == [] == ms[1..];
    } else {
      var init := ms[..|ms| - 1];
      assert init[1..] == ms[1..][..|ms| - 2] && init[0] == ms[0];
      BatchFromFront(committed, slot, init, handle);
    }
  }

  ghost predicate IsRun(run: seq<State>) {
    && |run| > 0
    && Init(run[0])
    && forall i :: 0 < i < |run| ==> Next(run[i - 1], run[i])
  }

  // ---------------------------------------------------------------- invariant

  function Log(s: State, slot: Slot): seq<Message> { LogOf(s.topics, slot) }

  /** The batch is a stretch of the log, and everything before it is accounted for. */
  ghost predicate BatchSound(s: State, slot: Slot, batch: seq<Message>) {
    batch == [] ||
    (var k := batch[0].offset;
     k + |batch| <= |Log(s, slot)| && batch == Log(s, slot)[k..k + |batch|] && Accounted(s.done, s.dead, slot, k))
  }

  ghost predicate TaskInv(s: State, t: Task) {
    match t.phase
    case GotOffset(last) => last <= |Log(s, t.slot)| && Accounted(s.done, s.dead, t.slot, last)
    case Working(batch, _) => BatchSound(s, t.slot, batch)
    case Committing(batch) =>
      batch != [] && BatchSound(s, t.slot, batch) && Entry(t.slot, batch[0].offset) in s.done
    case Burying(batch) => batch != [] && BatchSound(s, t.slot, batch)
  }

  ghost predicate DeadInQueue(s: State) {
    forall e :: e in s.dead ==> e.offset < |Log(s, e.slot)| && Log(s, e.slot)[e.offset] in s.dlq
  }

  ghost predicate CommitsSound(s: State) {
    forall slot :: slot in s.committed ==>
      s.committed[slot] <= |Log(s, slot)| && Accounted(s.done, s.dead, slot, s.committed[slot])
  }

  ghost predicate Inv(s: State) {
    && Indexed(s.topics) && CommitsSound(s) && DeadInQueue(s)
    && forall id :: id in s.tasks ==> TaskInv(s, s.tasks[id])
  }

  /** Logs, accounts and the dead-letter queue only ever grow. */
  ghost predicate Grows(s: State, s': State) {
    && (forall slot :: Log(s, slot) <= Log(s', slot))
    && s.done <= s'.done && s.dead <= s'.dead
    && (forall m :: m in s.dlq ==> m in s'.dlq)
  }

  lemma TaskInvGrows(s: State, s': State, t: Task)
    requires TaskInv(s, t) && Grows(s, s')
    ensures TaskInv(s', t)
  {
    assert Log(s, t.slot) <= Log(s', t.slot);
  }

  lemma SendGrows(s: State, s': State, t: Topic, p: nat, key: string, value: string)
    requires SendStep(s, s', t, p, key, value)
    ensures Grows(s, s')
  {
    forall slot
      ensures Log(s, slot) <= Log(s', slot)
    {
      assert Exists(s'.topics, slot.topic, slot.partition) <==> Exists(s.topics, slot.topic, slot.partition);
    }
  }

  lemma SendKeepsInv(s: State, s': State, t: Topic, p: nat, key: string, value: string)
    requires Inv(s) && SendStep(s, s', t, p, key, value)
    ensures Inv(s')
  {
    SendKeepsIndexed(s.topics, t, p, key, value);
    SendGrows(s, s', t, p, key, value);
    forall id | id in s'.tasks
      ensures TaskInv(s', s'.tasks[id])
    {
      TaskInvGrows(s, s', s.tasks[id]);
    }
    forall e | e in s'.dead
      ensures e.offset < |Log(s', e.slot)| && Log(s', e.slot)[e.offset] in s'.dlq
    {
      assert Log(s, e.slot) <= Log(s', e.slot);
    }
    forall slot | slot in s'.committed
      ensures s'.committed[slot] <= |Log(s', slot)|
    {
      assert Log(s, slot) <= Log(s', slot);
    }
  }

  lemma LogIndexed(s: State, slot: Slot)
    requires Indexed(s.topics)
    ensures forall i :: 0 <= i < |Log(s, slot)| ==> Log(s, slot)[i].offset == i
  {
  }

  /** Moving past the first message of a batch, once it is accounted for. */
  lemma BatchAdvances(s: State, s': State, slot: Slot, batch: seq<Message>)
    requires Indexed(s.topics) && batch != [] && BatchSound(s, slot, batch) && Grows(s, s')
    requires Entry(slot, batch[0].offset) in s'.done || Entry(slot, batch[0].offset) in s'.dead
    ensures batch[0].offset < |Log(s', slot)| && Accounted(s'.done, s'.dead, slot, batch[0].offset + 1)
    ensures BatchSound(s', slot, batch[1..])
  {
    LogIndexed(s, slot);
    assert Log(s, slot) <= Log(s', slot);
    var k := batch[0].offset;
    if |batch| > 1 {
      assert batch[1..][0] == batch[1] == Log(s, slot)[k + 1];
      assert batch[1..] == Log(s, slot)[k + 1..k + |batch|] == Log(s', slot)[k + 1..k + |batch|];
    }
  }

  lemma WorkGrows(s: State, s': State, id: TaskId, ok: bool)
    requires WorkStep(s, s', id, ok)
    ensures Grows(s, s') && s'.topics == s.topics
  {
  }

  lemma OwnTaskKept(s: State, s': State, id: TaskId, ok: bool)
    requires Inv(s) && WorkStep(s, s', id, ok)
    ensures TaskInv(s', s'.tasks[id])
  {
    var t := s.tasks[id];
    assert TaskInv(s, t);
    WorkGrows(s, s', id, ok);
    LogIndexed(s, t.slot);
    match t.phase
    case GotOffset(last) => FromIsSuffix(Log(s, t.slot), last);
    case Working(batch, _) => TaskInvGrows(s, s', t);
    case Committing(batch) => BatchAdvances(s, s', t.slot, batch);
    case Burying(batch) => BatchAdvances(s, s', t.slot, batch);
  }

  lemma WorkKeepsInv(s: State, s': State, id: TaskId, ok: bool)
    requires Inv(s) && WorkStep(s, s', id, ok)
    ensures Inv(s')
  {
    WorkGrows(s, s', id, ok);
    forall x | x in s'.tasks
      ensures TaskInv(s', s'.tasks[x])
    {
      if x == id {
        OwnTaskKept(s, s', id, ok);
      } else {
        TaskInvGrows(s, s', s.tasks[x]);
      }
    }
    WorkKeepsBooks(s, s', id, ok);
  }

  lemma WorkKeepsBooks(s: State, s': State, id: TaskId, ok: bool)
    requires Inv(s) && WorkStep(s, s', id, ok)
    ensures CommitsSound(s') && DeadInQueue(s')
  {
    var t := s.tasks[id];
    WorkGrows(s, s', id, ok);
    assert TaskInv(s, t);
    assert forall slot :: Log(s', slot) == Log(s, slot);
    if t.phase.Committing? || t.phase.Burying? {
      BatchAdvances(s, s', t.slot, t.phase.batch);
    }
  }

  lemma StepKeepsInv(s: State, s': State)
    requires Inv(s) && Next(s, s')
    ensures Inv(s')
  {
    if t, p: nat, key, value :| SendStep(s, s', t, p, key, value) {
      SendKeepsInv(s, s', t, p, key, value);
    } else if id, slot :| BeginStep(s, s', id, slot) {
      forall x | x in s'.tasks
        ensures TaskInv(s', s'.tasks[x])
      {
        if x != id {
          TaskInvGrows(s, s', s.tasks[x]);
        }
      }
    } else {
      var id, ok :| WorkStep(s, s', id, ok);
      WorkKeepsInv(s, s', id, ok);
    }
  }

  function LedgerOf(s: State): Ledger { Ledger(s.topics, s.committed, s.dlq, s.done, s.dead) }

  /** Every step of anybody is interference of the kind the consumer's code was verified against. */
  lemma StepIsInterference(s: State, s': State)
    requires Inv(s) && Next(s, s')
    ensures Sound(LedgerOf(s')) && Grew(LedgerOf(s), LedgerOf(s'))
  {
    StepKeepsInv(s, s');
    InvIsSound(s');
    if t, p: nat, key, value :| SendStep(s, s', t, p, key, value) {
      InvIsSound(s);
      SendKeepsSound(LedgerOf(s), t, p, key, value);
    } else if id, ok :| WorkStep(s, s', id, ok) {
      WorkGrows(s, s', id, ok);
    }
  }

  lemma InvIsSound(s: State)
    requires Inv(s)
    ensures Sound(LedgerOf(s))
  {
  }

  lemma {:induction false} RunKeepsInv(run: seq<State>, i: nat)
    requires IsRun(run) && i < |run|
    ensures Inv(run[i])
  {
    if i > 0 {
      RunKeepsInv(run, i - 1);
      StepKeepsInv(run[i - 1], run[i]);
    }
  }

  // ---------------------------------------------------------------- main results

  /** So is everything that happens between two moments of a run. */
  lemma RunIsInterference(run: seq<State>, i: nat, j: nat)
    requires IsRun(run) && i <= j < |run|
    ensures Sound(LedgerOf(run[j])) && Grew(LedgerOf(run[i]), LedgerOf(run[j]))
  {
    RunKeepsInv(run, j);
    InvIsSound(run[j]);
    RunGrew(run, i, j);
  }

  lemma {:induction false} RunGrew(run: seq<State>, i: nat, j: nat)
    requires IsRun(run) && i <= j < |run|
    ensures Grew(LedgerOf(run[i]), LedgerOf(run[j]))
    decreases j
  {
    if i < j {
      RunGrew(run, i, j - 1);
      StepGrew(run, j);
      GrewOn(LedgerOf(run[i]), LedgerOf(run[j - 1]), LedgerOf(run[j]));
    }
  }

  lemma StepGrew(run: seq<State>, j: nat)
    requires IsRun(run) && 0 < j < |run|
    ensures Grew(LedgerOf(run[j - 1]), LedgerOf(run[j]))
  {
    RunKeepsInv(run, j - 1);
    var s, s' := run[j - 1], run[j];
    assert Next(s, s');
    StepIsInterference(s, s');
  }

  /** In every run, message `i` of a partition has offset `i`. */
  lemma OffsetsAreIndices(run: seq<State>, i: nat, t: Topic, p: nat, o: nat)
    requires IsRun(run) && i < |run| && Exists(run[i].topics, t, p) && o < |run[i].topics[t][p].messages|
    ensures run[i].topics[t][p].messages[o].offset == o
  {
    RunKeepsInv(run, i);
  }

  /** In every run, what stands in a log was sent, with that key and value, when the log was that long. */
  lemma {:induction false} StoredWasSent(run: seq<State>, i: nat, t: Topic, p: nat, o: nat) returns (j: nat)
    requires IsRun(run) && i < |run| && o < |Log(run[i], Slot("", t, p))|
    ensures var m := Log(run[i], Slot("", t, p))[o];
            && j < i && SendStep(run[j], run[j + 1], t, p, m.key, m.value)
            && |Log(run[j], Slot("", t, p))| == o
  {
    var slot := Slot("", t, p);
    assert i > 0;
    var s, s' := run[i - 1], run[i];
    assert Next(s, s');
    if o < |Log(s, slot)| {
      StepGrew(run, i);
      assert Log(s, slot) <= Log(s', slot);
      j := StoredWasSent(run, i - 1, t, p, o);
    } else {
      j := i - 1;
      NewWasSent(s, s', t, p, o);
    }
  }

  lemma NewWasSent(s: State, s': State, t: Topic, p: nat, o: nat)
    requires Next(s, s') && |Log(s, Slot("", t, p))| <= o < |Log(s', Slot("", t, p))|
    ensures var m := Log(s', Slot("", t, p))[o];
            SendStep(s, s', t, p, m.key, m.value) && |Log(s, Slot("", t, p))| == o
  {
    if u, q: nat, key, value :| SendStep(s, s', u, q, key, value) {
      SendAppends(s, s', u, q, key, value);
    } else if id, ok :| WorkStep(s, s', id, ok) {
      WorkGrows(s, s', id, ok);
    }
  }

  lemma SendAppends(s: State, s': State, t: Topic, p: nat, key: string, value: string)
    requires SendStep(s, s', t, p, key, value)
    ensures var log, log' := Log(s, Slot("", t, p)), Log(s', Slot("", t, p));
            |log'| == |log| + 1 && log <= log' && log'[|log|].key == key && log'[|log|].value == value
    ensures forall u, q: nat :: (u, q) != (t, p) ==> Log(s', Slot("", u, q)) == Log(s, Slot("", u, q))
  {
    forall u, q: nat | (u, q) != (t, p)
      ensures Log(s', Slot("", u, q)) == Log(s, Slot("", u, q))
    {
      assert Exists(s'.topics, u, q) <==> Exists(s.topics, u, q);
    }
  }

  /** And what was sent stands there, with its key and value, ever after. */
  lemma SentStays(run: seq<State>, j: nat, i: nat, t: Topic, p: nat, key: string, value: string)
    requires IsRun(run) && j < i < |run| && SendStep(run[j], run[j + 1], t, p, key, value)
    ensures var o, log := |Log(run[j], Slot("", t, p))|, Log(run[i], Slot("", t, p));
            && o < |log|
            && log[o].key == key && log[o].value == value
            && log[o].topic == t && log[o].partition == p && log[o].offset == o
  {
    SendAppends(run[j], run[j + 1], t, p, key, value);
    RunGrew(run, j + 1, i);
    RunKeepsInv(run, i);
    assert LogOf(run[j + 1].topics, Slot("", t, p)) <= LogOf(run[i].topics, Slot("", t, p));
  }

  /**
   At-least-once accounting: whatever sends and however many concurrent consumers, every offset
   below a group's committed offset was handled without error for that group, or was given up for
   it and its message stands in the dead-letter queue.
   */
  lemma CommittedMeansAccounted(run: seq<State>, i: nat, slot: Slot, o: nat)
    requires IsRun(run) && i < |run| && slot in run[i].committed && o < run[i].committed[slot]
    ensures o < |Log(run[i], slot)|
    ensures Entry(slot, o) in run[i].done || (Entry(slot, o) in run[i].dead && Log(run[i], slot)[o] in run[i].dlq)
  {
    RunKeepsInv(run, i);
  }

  /** A consuming call never skips: when it works on a message, all earlier offsets are accounted for. */
  lemma WorkedInOrder(run: seq<State>, i: nat, id: TaskId, o: nat)
    requires IsRun(run) && i < |run| && id in run[i].tasks
    requires run[i].tasks[id].phase.Working? && run[i].tasks[id].phase.batch != []
    requires o < run[i].tasks[id].phase.batch[0].offset
    ensures var slot := run[i].tasks[id].slot; Entry(slot, o) in run[i].done || Entry(slot, o) in run[i].dead
  {
    RunKeepsInv(run, i);
    assert TaskInv(run[i], run[i].tasks[id]);
  }
}
