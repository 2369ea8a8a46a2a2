/**
 The lock-free enqueue (Michael and Scott): link a new node behind the last one with a
 compare-and-swap, then swing the tail; whoever finds the tail lagging swings it first.

 `Queue` is the code on real nodes, with others interfering between any two of its steps. The state
 machine interleaves any number of enqueues at the grain of single loads and compare-and-swaps.
 */
module LockFreeQueue {
  import opened Wrappers

  // ---------------------------------------------------------------- the code

  class Cell {
    const value: int
    var next: Cell?

    constructor (value: int)
      ensures this.value == value && next == null
    {
      this.value := value;
      this.next := null;
    }

    method CompareAndSwap(expected: Cell?, replacement: Cell?) returns (ok: bool)
      modifies this
      ensures ok <==> old(next) == expected
      ensures next == if ok then replacement else old(next)
    {
      ok := next == expected;
      if ok {
        next := replacement;
      }
    }
  }

  function Values(cells: seq<Cell>): seq<int> {
    seq(|cells|, i requires 0 <= i < |cells| => cells[i].value)
  }

  /**
   The queue as one enqueue sees it. `cells` is the chain from the sentinel on and `tailAt` the tail's
   place in it; others act in `Interfere`, and `others` is how many more links they will make.
   */
  class Queue {
    var head: Cell
    var tail: Cell
    ghost var cells: seq<Cell>
    ghost var tailAt: nat
    ghost var others: nat

    ghost predicate PointsOn(i: int)
      reads this`cells, cells
      requires 0 <= i < |cells|
    {
      cells[i].next == if i + 1 < |cells| then cells[i + 1] else null
    }

    /** An acyclic chain; the tail may lag one node behind its end. */
    ghost predicate Valid()
      reads this, cells
    {
      && |cells| >= 1 && cells[0] == head
      && (forall i, j :: 0 <= i < j < |cells| ==> cells[i] != cells[j])
      && (forall i :: 0 <= i < |cells| ==> PointsOn(i))
      && tailAt < |cells| <= tailAt + 2 && tail == cells[tailAt]
    }

    ghost function Contents(): seq<int>
      reads this, cells
      requires Valid()
    {
      Values(cells[1..])
    }

    constructor (ghost others: nat)
      ensures Valid() && fresh(cells) && Contents() == [] && this.others == others
    {
      var sentinel := new Cell(0);
      head := sentinel;
      tail := sentinel;
      cells, tailAt := [sentinel], 0;
      this.others := others;
    }

    /** Any loads, links and tail moves of other enqueues: the chain grows at its end, the tail moves on. */
    method Interfere()
      requires Valid()
      modifies this, cells
      ensures Valid() && old(cells) <= cells && old(tailAt) <= tailAt
      ensures |cells| + others == old(|cells| + others)
      ensures forall i :: 0 <= i < |cells| ==> cells[i] in old(cells) || fresh(cells[i])
    {
    }

    /** Move the tail from the cell at place `at` to the next one, unless it has moved already. */
    method SwingTail(expected: Cell, replacement: Cell, ghost at: nat)
      requires Valid() && at <= tailAt && at + 1 < |cells| && expected == cells[at] && replacement == cells[at + 1]
      modifies this`tail, this`tailAt
      ensures Valid() && old(tailAt) <= tailAt && at < tailAt
    {
      if tail == expected {
        tail := replacement;
        tailAt := at + 1;
      }
    }

    /** The link attempt at the cell at place `at`: it succeeds exactly at the end of the chain. */
    method TryLink(last: Cell, newNode: Cell, ghost at: nat) returns (linked: bool)
      requires Valid() && at <= tailAt && last == cells[at] && newNode !in cells && newNode.next == null
      modifies this`cells, last
      ensures Valid() && (linked <==> old(|cells|) == at + 1)
      ensures cells == if linked then old(cells) + [newNode] else old(cells)
    {
      assert PointsOn(at);
      linked := last.CompareAndSwap(null, newNode);
      if linked {
        cells := cells + [newNode];
      }
      forall i | 0 <= i < |cells|
        ensures PointsOn(i)
      {
        assert i < |old(cells)| ==> old(PointsOn(i));
      }
    }

    /**
     Whatever others do between any two loads and compare-and-swaps, as long as they link finitely often,
     the enqueue returns: its node is in the chain, behind everything that was there before, and the tail
     has reached it. With nobody else linking, the value is appended and the tail is at the end.
     */
    method Enqueue(value: int) returns (ghost place: nat)
      requires Valid()
      modifies this, cells
      ensures Valid() && old(cells) <= cells && old(Contents()) <= Contents()
      ensures old(|cells|) <= place <= tailAt < |cells| && cells[place].value == value && fresh(cells[place])
      ensures |cells| + others == old(|cells| + others) + 1
      ensures old(others) == 0 ==> Contents() == old(Contents()) + [value] && tail == cells[|cells| - 1]
      ensures forall i :: 0 <= i < |cells| ==> cells[i] in old(cells) || fresh(cells[i])
    {
      var newNode := new Cell(value);
      var done := false;
      place := 0;
      while !done
        invariant Valid() && old(cells) <= cells && fresh(newNode) && newNode.value == value
        invariant forall i :: 0 <= i < |cells| ==> cells[i] in old(cells) || fresh(cells[i])
        invariant !done ==> newNode !in cells && newNode.next == null && |cells| + others == old(|cells| + others)
        invariant done ==> Placed(newNode, place) && old(|cells|) <= place
        invariant done ==> |cells| + others == old(|cells| + others) + 1
        decreases !done, 2 * others + |cells| - tailAt
      {
        done, place := Turn(newNode);
      }
      assert forall i :: 0 <= i < |old(cells)| ==> cells[i] == old(cells)[i];
    }

    ghost predicate Placed(newNode: Cell, place: nat)
      reads this
    {
      place <= tailAt && place < |cells| && cells[place] == newNode
    }

    /** One turn of the loop: link and swing the tail, or see others get ahead and start over. */
    method Turn(newNode: Cell) returns (done: bool, ghost place: nat)
      requires Valid() && newNode !in cells && newNode.next == null
      modifies this, cells, newNode
      ensures Valid() && old(cells) <= cells && old(tailAt) <= tailAt
      ensures forall i :: 0 <= i < |cells| ==> cells[i] in old(cells) || cells[i] == newNode || fresh(cells[i])
      ensures done ==> Placed(newNode, place) && old(|cells|) <= place
      ensures |cells| + others == old(|cells| + others) + if done then 1 else 0
      ensures !done ==> newNode !in cells && newNode.next == null && |cells| + tailAt > old(|cells| + tailAt)
    {
      var last := tail;
      ghost var at := tailAt;
      var next := LoadNext(last, at);
      if last == tail {
        if next == null {
          done, place := LinkAt(last, newNode, at);
          return;
        } else {
          Interfere();
          SwingTail(last, next, at);
        }
      }
      return false, 0;
    }

    /** The load of `last`'s link: nothing, if the chain ended there, or the cell that still follows it. */
    method LoadNext(last: Cell, ghost at: nat) returns (next: Cell?)
      requires Valid() && at <= tailAt && last == cells[at]
      modifies this, cells
      ensures Valid() && old(cells) <= cells && old(tailAt) <= tailAt
      ensures |cells| + others == old(|cells| + others)
      ensures forall i :: 0 <= i < |cells| ==> cells[i] in old(cells) || fresh(cells[i])
      ensures if next == null then old(|cells|) <= at + 1 else at + 1 < |cells| && next == cells[at + 1]
    {
      Interfere();
      assert last == cells[at] && PointsOn(at);
      next := last.next;
      Interfere();
    }

    /** The link attempt and, if it succeeds, the attempt to swing the tail. */
    method LinkAt(last: Cell, newNode: Cell, ghost at: nat) returns (done: bool, ghost place: nat)
      requires Valid() && at <= tailAt && last == cells[at] && newNode !in cells && newNode.next == null
      modifies this, cells, newNode
      ensures Valid() && old(cells) <= cells && old(tailAt) <= tailAt
      ensures forall i :: 0 <= i < |cells| ==> cells[i] in old(cells) || cells[i] == newNode || fresh(cells[i])
      ensures done ==> Placed(newNode, place) && old(|cells|) <= place
      ensures |cells| + others == old(|cells| + others) + if done then 1 else 0
      ensures !done ==> newNode !in cells && newNode.next == null && |cells| > at + 1
    {
      Interfere();
      place := |cells|;
      assert last in cells;
      done := TryLink(last, newNode, at);
      if done {
        Interfere();
        assert cells[at + 1] == newNode;
        SwingTail(last, newNode, at);
      }
    }
  }

  // ---------------------------------------------------------------- all interleavings

  type Ref = nat
  type OpId = nat

  datatype Record = Record(value: int, next: Option<Ref>)

  /** Where an enqueue is, with its local variables. */
  datatype Pc =
    | LoadTail
    | LoadNext(last: Ref)
    | Recheck(last: Ref, next: Option<Ref>)
    | Link(last: Ref)
    | Help(last: Ref, succ: Ref)
    | Swing(last: Ref)
    | Returned

  /**
   One enqueue. `at` and `len` are observations, never tested: the tail's position and the chain's
   length when the tail was last loaded. `retries` counts the turns of the loop after the first.
   `links` and `progress` were noted when the enqueue began: how many had linked, and the chain's
   length plus the tail's position.
   */
  datatype Op = Op(value: int, node: Ref, pc: Pc, retries: nat, at: nat, len: nat, links: nat, progress: nat)

  /**
   The heap and the two shared pointers, the enqueues, and what an observer notes down:
   the linked nodes in the order of their link, the enqueues that linked them, the tail's position.
   */
  datatype State = State(
    heap: map<Ref, Record>, head: Ref, tail: Ref, ops: map<OpId, Op>,
    chain: seq<Ref>, linked: seq<OpId>, tailAt: nat)

  predicate Init(s: State) {
    && s.heap == map[s.head := Record(0, None)] && s.tail == s.head && s.ops == map[]
    && s.chain == [s.head] && s.linked == [] && s.tailAt == 0
  }

  predicate BeginStep(s: State, s': State, id: OpId, value: int, node: Ref) {
    && id !in s.ops && node !in s.heap
    && s' == s.(heap := s.heap[node := Record(value, None)],
                ops := s.ops[id := Op(value, node, LoadTail, 0, 0, 0, |s.linked|, |s.chain| + s.tailAt)])
  }

  function Goto(s: State, id: OpId, pc: Pc): State
    requires id in s.ops
  {
    s.(ops := s.ops[id := s.ops[id].(pc := pc)])
  }

  function Again(s: State, id: OpId): State
    requires id in s.ops
  {
    s.(ops := s.ops[id := s.ops[id].(pc := LoadTail, retries := s.ops[id].retries + 1)])
  }

  predicate CanAct(s: State, id: OpId) {
    && id in s.ops && !s.ops[id].pc.Returned?
    && (s.ops[id].pc.LoadNext? || s.ops[id].pc.Link? ==> s.ops[id].pc.last in s.heap)
  }

  /** The next load, test or compare-and-swap of one enqueue. */
  function Act(s: State, id: OpId): State
    requires CanAct(s, id)
  {
    var op := s.ops[id];
    match op.pc
    case LoadTail =>
      s.(ops := s.ops[id := op.(pc := LoadNext(s.tail), at := s.tailAt, len := |s.chain|)])
    case LoadNext(last) => Goto(s, id, Recheck(last, s.heap[last].next))
    case Recheck(last, next) =>
      if last != s.tail then Again(s, id)
      else if next.None? then Goto(s, id, Link(last))
      else Goto(s, id, Help(last, next.value))
    case Link(last) =>
      if s.heap[last].next.None?
      then Goto(s.(heap := s.heap[last := s.heap[last].(next := Some(op.node))],
                   chain := s.chain + [op.node], linked := s.linked + [id]), id, Swing(last))
      else Again(s, id)
    case Help(last, succ) =>
      Again(if s.tail == last then s.(tail := succ, tailAt := s.tailAt + 1) else s, id)
    case Swing(last) =>
      Goto(if s.tail == last then s.(tail := op.node, tailAt := s.tailAt + 1) else s, id, Returned)
  }

  predicate ActStep(s: State, s': State, id: OpId) {
    CanAct(s, id) && s' == Act(s, id)
  }

  ghost predicate Next(s: State, s': State) {
    || (exists id, value, node :: BeginStep(s, s', id, value, node))
    || (exists id :: ActStep(s, s', id))
  }

  ghost predicate IsRun(run: seq<State>) {
    && |run| > 0
    && Init(run[0])
    && forall i :: 0 < i < |run| ==> Next(run[i - 1], run[i])
  }

  // ---------------------------------------------------------------- invariant

  /** Following `next` from `from` visits exactly `c`, each node once, and ends. */
  ghost predicate IsList(heap: map<Ref, Record>, from: Ref, c: seq<Ref>) {
    && |c| >= 1 && c[0] == from
    && (forall i, j :: 0 <= i < j < |c| ==> c[i] != c[j])
    && (forall i :: 0 <= i < |c| ==> c[i] in heap)
    && (forall i :: 0 <= i < |c| ==> PointsOn(heap, c, i))
  }

  predicate PointsOn(heap: map<Ref, Record>, c: seq<Ref>, i: int)
    requires 0 <= i < |c|
  {
    c[i] in heap && heap[c[i]].next == if i + 1 < |c| then Some(c[i + 1]) else None
  }

  lemma ListFrame(heap: map<Ref, Record>, heap': map<Ref, Record>, from: Ref, c: seq<Ref>)
    requires IsList(heap, from, c)
    requires forall r :: r in c && r in heap ==> r in heap' && heap'[r] == heap[r]
    ensures IsList(heap', from, c)
  {
    forall i | 0 <= i < |c|
      ensures PointsOn(heap', c, i)
    {
      assert PointsOn(heap, c, i);
    }
  }

  /** Storing a fresh node behind the last one extends the list by that node. */
  lemma ListAppend(heap: map<Ref, Record>, from: Ref, c: seq<Ref>, node: Ref)
    requires IsList(heap, from, c) && node in heap && node !in c && heap[node].next == None
    ensures var last := c[|c| - 1];
            IsList(heap[last := heap[last].(next := Some(node))], from, c + [node])
  {
    var last := c[|c| - 1];
    var heap' := heap[last := heap[last].(next := Some(node))];
    forall i | 0 <= i < |c + [node]|
      ensures PointsOn(heap', c + [node], i)
    {
      assert i < |c| ==> PointsOn(heap, c, i);
    }
  }

  predicate Linked(op: Op) { op.pc.Swing? || op.pc.Returned? }

  ghost predicate Shape(s: State) {
    && IsList(s.heap, s.head, s.chain)
    && s.tailAt < |s.chain| <= s.tailAt + 2 && s.tail == s.chain[s.tailAt]
  }

  ghost predicate LinkedInOrder(s: State) {
    && |s.chain| == |s.linked| + 1
    && (forall x :: 0 <= x < |s.linked| ==>
          s.linked[x] in s.ops && Linked(s.ops[s.linked[x]]) && s.ops[s.linked[x]].node == s.chain[x + 1])
  }

  ghost predicate NodesOwned(s: State) {
    && (forall a, b :: a in s.ops && b in s.ops && a != b ==> s.ops[a].node != s.ops[b].node)
    && (forall a :: a in s.ops ==> s.ops[a].node in s.heap && s.heap[s.ops[a].node].value == s.ops[a].value)
  }

  /** What an enqueue knows about the shared list. */
  ghost predicate OpInv(s: State, id: OpId)
    requires id in s.ops
  {
    var op := s.ops[id];
    && (Linked(op) ==> id in s.linked)
    && (!Linked(op) ==> op.node !in s.chain && op.node in s.heap && s.heap[op.node].next == None)
    && 2 * op.links <= op.progress
    && (op.pc.LoadTail? ==> op.progress + op.retries <= |s.chain| + s.tailAt)
    && (!op.pc.LoadTail? ==> op.at <= s.tailAt && op.at < op.len <= |s.chain|)
    && (!op.pc.LoadTail? ==> op.progress + op.retries <= op.len + op.at)
    && (!op.pc.LoadTail? && !op.pc.Returned? ==> s.chain[op.at] == op.pc.last)
    && ((op.pc.Recheck? && op.pc.next.None?) || op.pc.Link? ==> op.len == op.at + 1)
    && (op.pc.Recheck? && op.pc.next.Some? ==> op.at + 1 < |s.chain| && s.chain[op.at + 1] == op.pc.next.value)
    && (op.pc.Help? ==> op.at + 1 < |s.chain| && s.chain[op.at + 1] == op.pc.succ)
    && (op.pc.Swing? ==> op.at + 1 < |s.chain| && s.chain[op.at + 1] == op.node)
    && (op.pc.Returned? ==> op.at < s.tailAt)
  }

  ghost predicate Inv(s: State) {
    && Shape(s) && LinkedInOrder(s) && NodesOwned(s)
    && forall id :: id in s.ops ==> OpInv(s, id)
  }

  lemma BeginKeepsInv(s: State, s': State, id: OpId, value: int, node: Ref)
    requires Inv(s) && BeginStep(s, s', id, value, node)
    ensures Inv(s')
  {
    assert node !in s.chain;
    ListFrame(s.heap, s'.heap, s.head, s.chain);
    forall a | a in s.ops
      ensures OpInv(s', a)
    {
      BeginKeepsOp(s, s', id, value, node, a);
    }
  }

  lemma BeginKeepsOp(s: State, s': State, id: OpId, value: int, node: Ref, a: OpId)
    requires Inv(s) && BeginStep(s, s', id, value, node) && a in s.ops
    ensures OpInv(s', a)
  {
    assert OpInv(s, a);
  }

  /** A link succeeds only at the end of the chain, and then the tail is there too. */
  lemma LinkAtEnd(s: State, id: OpId)
    requires Inv(s) && id in s.ops && s.ops[id].pc.Link? && s.ops[id].pc.last in s.heap
    requires s.heap[s.ops[id].pc.last].next.None?
    ensures s.ops[id].at == s.tailAt == |s.chain| - 1
  {
    assert OpInv(s, id);
    assert PointsOn(s.heap, s.chain, s.ops[id].at);
  }

  lemma LinkKeepsShape(s: State, id: OpId)
    requires Inv(s) && CanAct(s, id) && s.ops[id].pc.Link? && s.heap[s.ops[id].pc.last].next.None?
    ensures var s' := Act(s, id); Shape(s') && LinkedInOrder(s') && NodesOwned(s')
  {
    LinkAtEnd(s, id);
    assert OpInv(s, id);
    ListAppend(s.heap, s.head, s.chain, s.ops[id].node);
    assert forall x :: 0 <= x < |s.linked| ==> s.linked[x] != id;
  }

  lemma LinkKeepsOps(s: State, id: OpId, other: OpId)
    requires Inv(s) && CanAct(s, id) && s.ops[id].pc.Link? && s.heap[s.ops[id].pc.last].next.None?
    requires other in s.ops
    ensures OpInv(Act(s, id), other)
  {
    LinkAtEnd(s, id);
    assert OpInv(s, id) && OpInv(s, other);
    var s' := Act(s, id);
    assert forall i :: 0 <= i < |s.chain| ==> s'.chain[i] == s.chain[i];
    assert id in s'.linked;
  }

  /** Swinging the tail from a node to its successor in the chain. */
  lemma TailMoves(s: State, id: OpId)
    requires Inv(s) && CanAct(s, id) && (s.ops[id].pc.Help? || s.ops[id].pc.Swing?)
    ensures var s' := Act(s, id); Shape(s') && s.tailAt <= s'.tailAt
  {
    var op := s.ops[id];
    assert OpInv(s, id);
    if s.tail == op.pc.last {
      assert s.chain[op.at] == s.chain[s.tailAt];
    }
  }

  lemma ActKeepsLinks(s: State, s': State)
    requires LinkedInOrder(s) && NodesOwned(s)
    requires s'.chain == s.chain && s'.heap == s.heap && s'.linked == s.linked && s'.ops.Keys == s.ops.Keys
    requires forall a :: a in s.ops ==>
               s'.ops[a].node == s.ops[a].node && s'.ops[a].value == s.ops[a].value && (Linked(s.ops[a]) ==>
                         Linked(s'.ops[a]))
    ensures LinkedInOrder(s') && NodesOwned(s')
  {
  }

  /** Any other step leaves heap and chain alone and moves the tail forward at most to the next node. */
  lemma OtherActKeepsShape(s: State, id: OpId)
    requires Inv(s) && CanAct(s, id)
    requires !(s.ops[id].pc.Link? && s.heap[s.ops[id].pc.last].next.None?)
    ensures var s' := Act(s, id);
            && Shape(s') && LinkedInOrder(s') && NodesOwned(s')
            && s'.chain == s.chain && s'.heap == s.heap && s'.linked == s.linked
            && s.tailAt <= s'.tailAt
  {
    ActKeepsLinks(s, Act(s, id));
    if s.ops[id].pc.Help? || s.ops[id].pc.Swing? {
      TailMoves(s, id);
    }
  }

  lemma ActKeepsOwn(s: State, id: OpId)
    requires Inv(s) && CanAct(s, id)
    requires !(s.ops[id].pc.Link? && s.heap[s.ops[id].pc.last].next.None?)
    ensures OpInv(Act(s, id), id)
  {
    OtherActKeepsShape(s, id);
    assert OpInv(s, id);
    var op := s.ops[id];
    if op.pc.LoadNext? || op.pc.Link? {
      LinkReadKeepsOwn(s, id);
    } else if op.pc.Help? || op.pc.Swing? {
      TailMoveKeepsOwn(s, id);
    }
  }

  lemma LinkReadKeepsOwn(s: State, id: OpId)
    requires Shape(s) && CanAct(s, id) && OpInv(s, id)
    requires s.ops[id].pc.LoadNext? || (s.ops[id].pc.Link? && s.heap[s.ops[id].pc.last].next.Some?)
    ensures OpInv(Act(s, id), id)
  {
    assert PointsOn(s.heap, s.chain, s.ops[id].at);
  }

  lemma TailMoveKeepsOwn(s: State, id: OpId)
    requires Shape(s) && CanAct(s, id) && OpInv(s, id) && (s.ops[id].pc.Help? || s.ops[id].pc.Swing?)
    ensures OpInv(Act(s, id), id)
  {
  }

  /** What an enqueue knows stays true while only the tail moves on. */
  lemma OpInvFrame(s: State, s': State, id: OpId)
    requires id in s.ops && OpInv(s, id) && id in s'.ops && s'.ops[id] == s.ops[id]
    requires s'.chain == s.chain && s'.heap == s.heap && s'.linked == s.linked && s.tailAt <= s'.tailAt
    ensures OpInv(s', id)
  {
  }

  lemma OtherActKeepsOps(s: State, id: OpId, other: OpId)
    requires Inv(s) && CanAct(s, id) && other in s.ops
    requires !(s.ops[id].pc.Link? && s.heap[s.ops[id].pc.last].next.None?)
    ensures OpInv(Act(s, id), other)
  {
    if id == other {
      ActKeepsOwn(s, id);
    } else {
      OtherActKeepsShape(s, id);
      OpInvFrame(s, Act(s, id), other);
    }
  }

  lemma ActKeepsInv(s: State, id: OpId)
    requires Inv(s) && CanAct(s, id)
    ensures Inv(Act(s, id))
  {
    var s' := Act(s, id);
    if s.ops[id].pc.Link? && s.heap[s.ops[id].pc.last].next.None? {
      LinkKeepsShape(s, id);
      forall a | a in s'.ops
        ensures OpInv(s', a)
      {
        LinkKeepsOps(s, id, a);
      }
    } else {
      OtherActKeepsShape(s, id);
      forall a | a in s'.ops
        ensures OpInv(s', a)
      {
        OtherActKeepsOps(s, id, a);
      }
    }
  }

  lemma StepKeepsInv(s: State, s': State)
    requires Inv(s) && Next(s, s')
    ensures Inv(s')
  {
    if id, value, node :| BeginStep(s, s', id, value, node) {
      BeginKeepsInv(s, s', id, value, node);
    } else {
      var id :| ActStep(s, s', id);
      ActKeepsInv(s, id);
    }
  }

  /** The chain only grew at its end, and the tail only moved on. */
  predicate Onward(s: State, s': State) {
    s.chain <= s'.chain && s.tailAt <= s'.tailAt && s'.head == s.head
  }

  /** Every step of anybody is interference of the kind the code was verified against. */
  lemma StepIsInterference(s: State, s': State)
    requires Inv(s) && Next(s, s')
    ensures Shape(s') && Onward(s, s')
  {
    StepKeepsInv(s, s');
    if id :| ActStep(s, s', id) {
      if !(s.ops[id].pc.Link? && s.heap[s.ops[id].pc.last].next.None?) {
        OtherActKeepsShape(s, id);
      }
    }
  }

  lemma {:induction false} RunKeepsInv(run: seq<State>, i: nat)
    requires IsRun(run) && i < |run|
    ensures Inv(run[i])
  {
    if i > 0 {
      RunKeepsInv(run, i - 1);
      StepKeepsInv(run[i - 1], run[i]);
    }
  }

  /** So is everything that happens between two moments of a run. */
  lemma {:induction false} RunIsInterference(run: seq<State>, i: nat, j: nat)
    requires IsRun(run) && i <= j < |run|
    ensures Shape(run[j]) && Onward(run[i], run[j])
    decreases j
  {
    if i == j {
      RunKeepsInv(run, i);
    } else {
      RunIsInterference(run, i, j - 1);
      StepOfRun(run, j);
    }
  }

  lemma StepOfRun(run: seq<State>, j: nat)
    requires IsRun(run) && 0 < j < |run|
    ensures Shape(run[j]) && Onward(run[j - 1], run[j])
  {
    RunKeepsInv(run, j - 1);
    var s, s' := run[j - 1], run[j];
    assert Next(s, s');
    StepIsInterference(s, s');
  }

  // ---------------------------------------------------------------- main results

  lemma TailIsList(heap: map<Ref, Record>, from: Ref, c: seq<Ref>)
    requires IsList(heap, from, c) && |c| > 1
    ensures IsList(heap, c[1], c[1..])
  {
    forall i | 0 <= i < |c| - 1
      ensures PointsOn(heap, c[1..], i)
    {
      assert PointsOn(heap, c, i + 1);
    }
  }

  /** The list hanging off a node is determined by the heap. */
  lemma {:induction false} ListIsUnique(heap: map<Ref, Record>, from: Ref, c: seq<Ref>, d: seq<Ref>)
    requires IsList(heap, from, c) && IsList(heap, from, d)
    ensures c == d
    decreases |c|
  {
    assert PointsOn(heap, c, 0) && PointsOn(heap, d, 0);
    if |c| > 1 {
      TailIsList(heap, from, c);
      TailIsList(heap, from, d);
      ListIsUnique(heap, c[1], c[1..], d[1..]);
      assert c == [c[0]] + c[1..] && d == [d[0]] + d[1..];
    }
  }

  /** The values an observer sees by following the pointers from the sentinel. */
  ghost predicate Shows(s: State, values: seq<int>) {
    exists c :: IsList(s.heap, s.head, c) && |c| == |values| + 1
                && forall x :: 0 < x < |c| ==> s.heap[c[x]].value == values[x - 1]
  }

  ghost function ValuesOf(s: State): seq<int>
    requires forall x :: 0 <= x < |s.linked| ==> s.linked[x] in s.ops
  {
    seq(|s.linked|, x requires 0 <= x < |s.linked| => s.ops[s.linked[x]].value)
  }

  lemma LinkedAreDistinct(s: State)
    requires Inv(s)
    ensures forall x, y :: 0 <= x < y < |s.linked| ==> s.linked[x] != s.linked[y]
  {
    forall x, y | 0 <= x < y < |s.linked|
      ensures s.linked[x] != s.linked[y]
    {
      assert s.chain[x + 1] != s.chain[y + 1];
    }
  }

  lemma ShowsLinked(s: State)
    requires Shape(s) && LinkedInOrder(s) && NodesOwned(s)
    ensures Shows(s, ValuesOf(s))
  {
    var values := ValuesOf(s);
    forall x | 0 < x < |s.chain|
      ensures s.heap[s.chain[x]].value == values[x - 1]
    {
      assert s.ops[s.linked[x - 1]].node == s.chain[x];
    }
  }

  /**
   In every state of every run the chain from the head is finite and acyclic and shows, once each,
   the values of the enqueues that have linked, in link order.
   */
  lemma ChainShowsLinks(run: seq<State>, i: nat)
    requires IsRun(run) && i < |run|
    ensures var s := run[i];
            && (forall x :: 0 <= x < |s.linked| ==> s.linked[x] in s.ops)
            && (forall x, y :: 0 <= x < y < |s.linked| ==> s.linked[x] != s.linked[y])
            && Shows(s, ValuesOf(s))
  {
    RunKeepsInv(run, i);
    LinkedAreDistinct(run[i]);
    ShowsLinked(run[i]);
  }

  /** The tail is the last or second-to-last node of the chain, and every enqueue that returned is in it. */
  lemma TailLagsAtMostOne(run: seq<State>, i: nat, c: seq<Ref>)
    requires IsRun(run) && i < |run| && IsList(run[i].heap, run[i].head, c)
    ensures run[i].tail == c[|c| - 1] || (|c| >= 2 && run[i].tail == c[|c| - 2])
    ensures forall id :: id in run[i].ops && run[i].ops[id].pc.Returned? ==>
              id in run[i].linked && run[i].ops[id].node in c
  {
    var s := run[i];
    RunKeepsInv(run, i);
    ListIsUnique(s.heap, s.head, c, s.chain);
    forall id | id in s.ops && s.ops[id].pc.Returned?
      ensures id in s.linked && s.ops[id].node in c
    {
      assert OpInv(s, id);
      var x :| 0 <= x < |s.linked| && s.linked[x] == id;
      assert s.chain[x + 1] == s.ops[id].node;
    }
  }

  lemma LinkedSurvives(run: seq<State>, i: nat, j: nat)
    requires IsRun(run) && i <= j < |run|
    ensures run[i].linked <= run[j].linked && run[i].ops.Keys <= run[j].ops.Keys
    decreases j
  {
    if i < j {
      LinkedSurvives(run, i, j - 1);
      assert Next(run[j - 1], run[j]);
    }
  }

  /** Linearizability: an enqueue that returned before another began comes first in the chain. */
  lemma RealTimeOrder(run: seq<State>, i: nat, j: nat, a: OpId, b: OpId, x: nat, y: nat)
    requires IsRun(run) && i <= j < |run|
    requires a in run[i].ops && run[i].ops[a].pc.Returned? && b !in run[i].ops
    requires x < |run[j].linked| && run[j].linked[x] == a
    requires y < |run[j].linked| && run[j].linked[y] == b
    ensures x < y
  {
    RunKeepsInv(run, i);
    assert OpInv(run[i], a);
    ChainShowsLinks(run, j);
    LinkedSurvives(run, i, j);
    var z :| 0 <= z < |run[i].linked| && run[i].linked[z] == a;
    assert run[j].linked[z] == a;
  }

  /** What an enqueue noted at its beginning is not older than the last moment before it. */
  lemma {:induction false} NotedAtBeginning(run: seq<State>, h: nat, i: nat, id: OpId)
    requires IsRun(run) && h <= i < |run| && id !in run[h].ops && id in run[i].ops
    ensures |run[h].linked| <= run[i].ops[id].links
    decreases i
  {
    assert Next(run[i - 1], run[i]);
    StepNotes(run[i - 1], run[i], id);
    if id in run[i - 1].ops {
      NotedAtBeginning(run, h, i - 1, id);
    } else {
      LinkedSurvives(run, h, i - 1);
    }
  }

  lemma StepNotes(s: State, s': State, id: OpId)
    requires Next(s, s') && id in s'.ops
    ensures s'.ops[id].links == if id in s.ops then s.ops[id].links else |s.linked|
  {
  }

  /**
   Lock-freedom: an enqueue starts over only when others got ahead. From any moment before it began,
   its retries never exceed twice the number of enqueues linked since, plus one for a lagging tail.
   */
  lemma RetriesAreBounded(run: seq<State>, h: nat, i: nat, id: OpId)
    requires IsRun(run) && h <= i < |run| && id !in run[h].ops && id in run[i].ops
    ensures run[i].ops[id].retries <= 2 * (|run[i].linked| - |run[h].linked|) + 1
  {
    RunKeepsInv(run, i);
    assert OpInv(run[i], id);
    NotedAtBeginning(run, h, i, id);
  }
}
