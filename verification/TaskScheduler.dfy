/**
 The work-stealing task scheduler. `Scheduler` is its code; the state machine interleaves
 submissions, scheduling turns, workers and any number of steals in progress. Tasks are named by
 distinct identifiers.
 */
module TaskScheduler {

  type Id = string
  type Worker = nat
  type Dependencies = map<Id, seq<Id>>

  function DepsOf(deps: Dependencies, id: Id): seq<Id> {
    if id in deps then deps[id] else []
  }

  predicate Met(deps: Dependencies, completed: set<Id>, id: Id) {
    forall d :: d in DepsOf(deps, id) ==> d in completed
  }

  function Recorded(deps: Dependencies, id: Id, ds: seq<Id>): Dependencies {
    if |ds| > 0 then deps[id := ds] else deps
  }

  // ---------------------------------------------------------------- the code

  /** Everything in the workers' queues. */
  function AllLocal(local: seq<seq<Id>>): multiset<Id> {
    if local == [] then multiset{} else AllLocal(local[..|local| - 1]) + multiset(local[|local| - 1])
  }

  /** How often a task is queued changes with one worker's queue by just that queue's change. */
  lemma {:induction false} ReplaceLocal(local: seq<seq<Id>>, w: nat, q: seq<Id>, id: Id)
    requires w < |local|
    ensures AllLocal(local[w := q])[id] + multiset(local[w])[id] == AllLocal(local)[id] + multiset(q)[id]
    decreases |local|
  {
    var last := |local| - 1;
    if w < last {
      ReplaceLocal(local[..last], w, q, id);
      assert local[w := q][..last] == local[..last][w := q];
    } else {
      assert local[w := q][..last] == local[..last];
    }
  }

  lemma AppendLocal(local: seq<seq<Id>>, w: nat, id: Id)
    requires w < |local|
    ensures AllLocal(local[w := local[w] + [id]]) == AllLocal(local) + multiset{id}
  {
    forall x
      ensures AllLocal(local[w := local[w] + [id]])[x] == (AllLocal(local) + multiset{id})[x]
    {
      ReplaceLocal(local, w, local[w] + [id], x);
    }
  }

  /** The victim's queue without its first `n` tasks, and the thief's with them. */
  function Stolen(local: seq<seq<Id>>, victim: nat, thief: nat, n: nat): seq<seq<Id>>
    requires victim < |local| && thief < |local| && victim != thief && n <= |local[victim]|
  {
    local[victim := local[victim][n..]][thief := local[thief] + local[victim][..n]]
  }

  lemma StealKeepsAll(local: seq<seq<Id>>, victim: nat, thief: nat, n: nat)
    requires victim < |local| && thief < |local| && victim != thief && n <= |local[victim]|
    ensures AllLocal(Stolen(local, victim, thief, n)) == AllLocal(local)
  {
    var q := local[victim];
    assert q == q[..n] + q[n..];
    forall id
      ensures AllLocal(Stolen(local, victim, thief, n))[id] == AllLocal(local)[id]
    {
      ReplaceLocal(local, victim, q[n..], id);
      ReplaceLocal(local[victim := q[n..]], thief, local[thief] + q[..n], id);
    }
  }

  /** What a scheduling turn changes. */
  datatype Books = Books(queue: seq<Id>, local: seq<seq<Id>>, idle: seq<bool>)

  /** The oldest waiting task goes to worker `w`, or to the back if it may not start yet. */
  function Offered(b: Books, deps: Dependencies, completed: set<Id>, w: nat): Books
    requires w < |b.local| == |b.idle| && |b.queue| > 0
  {
    var id, rest := b.queue[0], b.queue[1..];
    if Met(deps, completed, id)
    then Books(rest, b.local[w := b.local[w] + [id]], b.idle[w := false])
    else b.(queue := rest + [id])
  }

  /** One offer to each of these workers in turn, as long as tasks wait. */
  function Turn(b: Books, deps: Dependencies, completed: set<Id>, ws: seq<nat>): Books
    requires |b.local| == |b.idle| && forall i :: 0 <= i < |ws| ==> ws[i] < |b.local|
    decreases |ws|
  {
    if ws == [] || b.queue == [] then b
    else Turn(Offered(b, deps, completed, ws[0]), deps, completed, ws[1..])
  }

  /** All tasks waiting anywhere, with their multiplicity. */
  function AllWaiting(b: Books): multiset<Id> { multiset(b.queue) + AllLocal(b.local) }

  /** The queue grew at its end, by tasks whose dependencies are complete. */
  ghost predicate Extends(deps: Dependencies, completed: set<Id>, before: seq<Id>, after: seq<Id>) {
    && before <= after
    && forall i :: |before| <= i < |after| ==> Met(deps, completed, after[i])
  }

  /** No task lost, doubled or handed out before its dependencies are complete. */
  ghost predicate Safe(deps: Dependencies, completed: set<Id>, b: Books, b': Books) {
    && |b'.local| == |b.local| && AllWaiting(b') == AllWaiting(b)
    && forall w :: 0 <= w < |b.local| ==> Extends(deps, completed, b.local[w], b'.local[w])
  }

  lemma OfferKeepsAll(b: Books, deps: Dependencies, completed: set<Id>, w: nat)
    requires w < |b.local| == |b.idle| && |b.queue| > 0
    ensures AllWaiting(Offered(b, deps, completed, w)) == AllWaiting(b)
  {
    var id, rest := b.queue[0], b.queue[1..];
    assert multiset(b.queue) == multiset{id} + multiset(rest) by {
      assert b.queue == [id] + rest;
    }
    AppendLocal(b.local, w, id);
  }

  lemma OfferIsSafe(b: Books, deps: Dependencies, completed: set<Id>, w: nat)
    requires w < |b.local| == |b.idle| && |b.queue| > 0
    ensures Safe(deps, completed, b, Offered(b, deps, completed, w))
  {
    OfferKeepsAll(b, deps, completed, w);
  }

  lemma {:induction false} TurnIsSafe(b: Books, deps: Dependencies, completed: set<Id>, ws: seq<nat>)
    requires |b.local| == |b.idle| && forall i :: 0 <= i < |ws| ==> ws[i] < |b.local|
    ensures Safe(deps, completed, b, Turn(b, deps, completed, ws))
    decreases |ws|
  {
    if ws != [] && b.queue != [] {
      OfferIsSafe(b, deps, completed, ws[0]);
      TurnIsSafe(Offered(b, deps, completed, ws[0]), deps, completed, ws[1..]);
    }
  }

  /** These are the idle workers, each once, in order. */
  ghost predicate IdleInOrder(idle: seq<bool>, ws: seq<nat>) {
    && (forall w: nat :: w in ws <==> w < |idle| && idle[w])
    && forall i, j :: 0 <= i < j < |ws| ==> ws[i] < ws[j]
  }

  /**
   What a turn does: worker `ws[k]` gets the task that was `k`-th in the queue and is busy, if that task's
   dependencies are complete. If they are not, or there was no such task, the worker is left as it was,
   and so are all others. The tasks not reached wait first, in their order.
   */
  ghost predicate HandedOut(b: Books, b': Books, deps: Dependencies, completed: set<Id>, ws: seq<nat>) {
    && |b'.local| == |b.local| == |b'.idle| == |b.idle|
    && (forall k :: 0 <= k < |ws| && ws[k] < |b.local| ==> Served(b, b', deps, completed, k, ws[k]))
    && (forall w: nat :: w < |b.local| && w !in ws ==> SameWorker(b, b', w))
    && (|ws| <= |b.queue| ==> b.queue[|ws|..] <= b'.queue)
  }

  ghost predicate Served(b: Books, b': Books, deps: Dependencies, completed: set<Id>, k: nat, w: nat)
    requires w < |b.local| == |b.idle| == |b'.local| == |b'.idle|
  {
    if k < |b.queue| && Met(deps, completed, b.queue[k])
    then b'.local[w] == b.local[w] + [b.queue[k]] && !b'.idle[w]
    else SameWorker(b, b', w) && (k < |b.queue| ==> b.queue[k] in b'.queue)
  }

  ghost predicate SameWorker(b: Books, b': Books, w: nat)
    requires w < |b.local| == |b.idle| == |b'.local| == |b'.idle|
  {
    b'.local[w] == b.local[w] && b'.idle[w] == b.idle[w]
  }

  predicate Distinct(ws: seq<nat>) {
    forall i, j :: 0 <= i < j < |ws| ==> ws[i] != ws[j]
  }

  lemma {:induction false} TurnHandsOut(b: Books, deps: Dependencies, completed: set<Id>, ws: seq<nat>)
    requires |b.local| == |b.idle| && Distinct(ws) && forall i :: 0 <= i < |ws| ==> ws[i] < |b.local|
    ensures HandedOut(b, Turn(b, deps, completed, ws), deps, completed, ws)
    decreases |ws|
  {
    if ws != [] && b.queue != [] {
      var mid := Offered(b, deps, completed, ws[0]);
      TurnHandsOut(mid, deps, completed, ws[1..]);
      OfferThenRest(b, mid, Turn(mid, deps, completed, ws[1..]), deps, completed, ws);
    }
  }

  /** One offer, and a turn for the remaining workers after it. */
  lemma OfferThenRest(b: Books, mid: Books, b': Books, deps: Dependencies, completed: set<Id>, ws: seq<nat>)
    requires |b.local| == |b.idle| && ws != [] && b.queue != [] && Distinct(ws)
    requires forall i :: 0 <= i < |ws| ==> ws[i] < |b.local|
    requires mid == Offered(b, deps, completed, ws[0]) && HandedOut(mid, b', deps, completed, ws[1..])
    ensures HandedOut(b, b', deps, completed, ws)
  {
    var rest := ws[1..];
    assert forall k :: 0 < k < |b.queue| ==> mid.queue[k - 1] == b.queue[k];
    assert !Met(deps, completed, b.queue[0]) ==> mid.queue[|b.queue| - 1] == b.queue[0];
    forall k | 0 < k < |ws|
      ensures Served(b, b', deps, completed, k, ws[k])
    {
      assert ws[k] == rest[k - 1] != ws[0];
      assert Served(mid, b', deps, completed, k - 1, rest[k - 1]);
    }
    assert SameWorker(mid, b', ws[0]);
    if !Met(deps, completed, b.queue[0]) {
      PutBackStays(b, mid, b', deps, completed, rest);
    }
    assert Served(b, b', deps, completed, 0, ws[0]);
    forall w: nat | w < |b.local| && w !in ws
      ensures SameWorker(b, b', w)
    {
      assert w !in rest && w != ws[0];
      assert SameWorker(mid, b', w);
    }
    if |ws| <= |b.queue| {
      assert b.queue[|ws|..] == b.queue[1..][|rest|..] <= mid.queue[|rest|..];
    }
  }

  lemma PutBackStays(b: Books, mid: Books, b': Books, deps: Dependencies, completed: set<Id>, rest: seq<nat>)
    requires b.queue != [] && mid.queue == b.queue[1..] + [b.queue[0]] && !Met(deps, completed, b.queue[0])
    requires HandedOut(mid, b', deps, completed, rest) && forall i :: 0 <= i < |rest| ==> rest[i] < |mid.local|
    ensures b.queue[0] in b'.queue
  {
    var last := |b.queue| - 1;
    assert mid.queue[last] == b.queue[0];
    if last < |rest| {
      assert Served(mid, b', deps, completed, last, rest[last]);
    } else {
      assert mid.queue[|rest|..][last - |rest|] == b.queue[0];
      assert b.queue[0] in mid.queue[|rest|..];
    }
  }

  function Idlers(idle: seq<bool>): seq<nat> {
    if idle == [] then []
    else Idlers(idle[..|idle| - 1]) + if idle[|idle| - 1] then [|idle| - 1] else []
  }

  lemma {:induction false} IdlersInOrder(idle: seq<bool>)
    ensures IdleInOrder(idle, Idlers(idle)) && forall i :: 0 <= i < |Idlers(idle)| ==> Idlers(idle)[i] < |idle|
  {
    if idle != [] {
      IdlersInOrder(idle[..|idle| - 1]);
    }
  }

  /** `victim` is the first of the other workers with the most tasks. */
  ghost predicate Richest(local: seq<seq<Id>>, thief: nat, victim: nat) {
    && thief < |local| && victim < |local| && victim != thief
    && (forall w :: 0 <= w < |local| && w != thief ==> |local[w]| <= |local[victim]|)
    && (forall w :: 0 <= w < victim && w != thief ==> |local[w]| < |local[victim]|)
  }

  /** An idle worker takes the older half of the longest other queue, if that has more than one task. */
  ghost predicate Steals(before: seq<seq<Id>>, after: seq<seq<Id>>, idle: bool, thief: nat) {
    if idle
    then && (forall v: nat :: Richest(before, thief, v) && |before[v]| > 1 ==> TookHalf(before, after, v, thief))
         && ((forall v: nat :: Richest(before, thief, v) ==> |before[v]| <= 1) ==> after == before)
    else after == before
  }

  ghost predicate TookHalf(before: seq<seq<Id>>, after: seq<seq<Id>>, victim: nat, thief: nat)
    requires victim < |before| && thief < |before|
  {
    var n := |before[victim]| / 2;
    && |after| == |before|
    && after[victim] == before[victim][n..] && after[thief] == before[thief] + before[victim][..n]
    && forall w :: 0 <= w < |before| && w != victim && w != thief ==> after[w] == before[w]
  }

  lemma RichestIsOne(local: seq<seq<Id>>, thief: nat, v: nat, v': nat)
    requires Richest(local, thief, v) && Richest(local, thief, v')
    ensures v == v'
  {
    assert |local[v]| == |local[v']|;
  }

  /** The queues before the first of `n` thieves, after each of them, and after the last. */
  ghost predicate Staged(stages: seq<seq<seq<Id>>>, first: seq<seq<Id>>, last: seq<seq<Id>>, idle: seq<bool>, n: nat) {
    && |stages| == n + 1 && n <= |idle| && stages[0] == first && stages[n] == last
    && forall t :: 0 < t <= n ==> Steals(stages[t - 1], stages[t], idle[t - 1], t - 1)
  }

  lemma StageOne(stages: seq<seq<seq<Id>>>, first: seq<seq<Id>>, before: seq<seq<Id>>, after: seq<seq<Id>>,
                 idle: seq<bool>, n: nat)
    requires Staged(stages, first, before, idle, n) && n < |idle| && Steals(before, after, idle[n], n)
    ensures Staged(stages + [after], first, after, idle, n + 1)
  {
    var all := stages + [after];
    forall t | 0 < t <= n + 1
      ensures Steals(all[t - 1], all[t], idle[t - 1], t - 1)
    {
      assert t <= n ==> all[t - 1] == stages[t - 1] && all[t] == stages[t];
    }
  }

  class Scheduler {
    var queue: seq<Id>
    var local: seq<seq<Id>>
    var idle: seq<bool>
    var deps: Dependencies
    var completed: set<Id>

    ghost predicate Valid() reads this { |local| == |idle| }

    ghost function View(): Books reads this { Books(queue, local, idle) }

    constructor (workers: nat)
      ensures Valid() && queue == [] && |local| == workers && deps == map[] && completed == {}
      ensures forall w :: 0 <= w < workers ==> local[w] == [] && !idle[w]
    {
      queue, deps, completed := [], map[], {};
      local := seq(workers, _ => []);
      idle := seq(workers, _ => false);
    }

    method SubmitTask(id: Id, ds: seq<Id>)
      requires Valid()
      modifies this`queue, this`deps
      ensures Valid() && queue == old(queue) + [id]
      ensures deps == if |ds| > 0 then old(deps)[id := ds] else old(deps)
    {
      if |ds| > 0 {
        deps := deps[id := ds];
      }
      queue := queue + [id];
    }

    method DependenciesMet(id: Id) returns (met: bool)
      ensures met <==> (id in deps ==> forall d :: d in deps[id] ==> d in completed)
    {
      if id !in deps || |deps[id]| == 0 {
        return true;
      }
      for i := 0 to |deps[id]|
        invariant forall j :: 0 <= j < i ==> deps[id][j] in completed
      {
        if deps[id][i] !in completed {
          return false;
        }
      }
      return true;
    }

    /**
     One turn: each idle worker in order is offered the oldest waiting task, which goes to the back
     of the queue if its dependencies are not complete. No task is lost, duplicated or handed out early.
     */
    method ScheduleTasks()
      requires Valid()
      modifies this`queue, this`local, this`idle
      ensures Valid() && Safe(deps, completed, old(View()), View())
      ensures IdleInOrder(old(idle), Idlers(old(idle)))
      ensures HandedOut(old(View()), View(), deps, completed, Idlers(old(idle)))
      ensures (forall i :: 0 <= i < |Idlers(old(idle))| ==> Idlers(old(idle))[i] < |old(local)|)
           && View() == Turn(old(View()), deps, completed, Idlers(old(idle)))
    {
      var available := AvailableWorkers();
      TurnIsSafe(View(), deps, completed, available);
      TurnHandsOut(View(), deps, completed, available);
      for k := 0 to |available|
        invariant Valid() && |local| == |old(local)|
        invariant Turn(View(), deps, completed, available[k..]) == Turn(old(View()), deps, completed, available)
      {
        if |queue| == 0 {
          break;
        }
        Offer(available[k]);
      }
    }

    /** Offer the oldest waiting task to one worker. */
    method Offer(w: nat)
      requires Valid() && w < |local| && |queue| > 0
      modifies this`queue, this`local, this`idle
      ensures Valid() && View() == Offered(old(View()), deps, completed, w)
    {
      var id := queue[0];
      queue := queue[1..];
      var met := DependenciesMet(id);
      if !met {
        queue := queue + [id];
        return;
      }
      local := local[w := local[w] + [id]];
      idle := idle[w := false];
    }

    method AvailableWorkers() returns (available: seq<nat>)
      requires Valid()
      ensures available == Idlers(idle) && IdleInOrder(idle, available)
      ensures forall i :: 0 <= i < |available| ==> available[i] < |local|
    {
      available := [];
      for w := 0 to |idle|
        invariant available == Idlers(idle[..w])
      {
        assert idle[..w + 1][..w] == idle[..w];
        if idle[w] {
          available := available + [w];
        }
      }
      assert idle[..|idle|] == idle;
      IdlersInOrder(idle);
    }

    /** A worker's turn: go idle, or run the first task of its own queue; `ok` is how the run ended. */
    method ProcessTask(w: nat, ok: bool) returns (ran: seq<Id>)
      requires Valid() && w < |local|
      modifies this`local, this`idle, this`completed
      ensures Valid() && |local| == |old(local)| && (forall x :: 0 <= x < |local| && x != w ==>
                local[x] == old(local)[x])
      ensures old(local)[w] == ran + local[w] && |ran| <= 1 && idle == old(idle)[w := ran == []]
      ensures ran == [] ==> local[w] == []
      ensures completed == old(completed) + if ok then (set id | id in ran) else {}
    {
      if |local[w]| == 0 {
        idle := idle[w := true];
        return [];
      }
      ran := [local[w][0]];
      local := local[w := local[w][1..]];
      idle := idle[w := false];
      if ok {
        completed := completed + {ran[0]};
      }
    }

    /** The other worker with the most tasks, if any has one. */
    method FindVictim(thief: nat) returns (victim: nat, maxTasks: nat)
      requires thief < |local|
      ensures maxTasks > 0 ==> Richest(local, thief, victim) && maxTasks == |local[victim]|
      ensures forall w :: 0 <= w < |local| && w != thief ==> |local[w]| <= maxTasks
    {
      victim, maxTasks := 0, 0;
      for w := 0 to |local|
        invariant maxTasks > 0 ==> victim < |local| && victim != thief && maxTasks == |local[victim]|
        invariant forall x :: 0 <= x < w && x != thief ==> |local[x]| <= maxTasks
        invariant maxTasks > 0 ==> victim < w && forall x :: 0 <= x < victim && x != thief ==> |local[x]| < maxTasks
      {
        if w != thief && |local[w]| > maxTasks {
          victim, maxTasks := w, |local[w]|;
        }
      }
    }

    /** Idle workers steal the older half of the longest queue; tasks only change hands. */
    method BalanceWork() returns (ghost stages: seq<seq<seq<Id>>>)
      requires Valid()
      modifies this`local
      ensures Valid() && |local| == |old(local)|
      ensures AllLocal(local) == old(AllLocal(local))
      ensures Staged(stages, old(local), local, idle, |local|)
    {
      stages := [local];
      for thief := 0 to |local|
        invariant Valid() && |local| == |old(local)| && AllLocal(local) == old(AllLocal(local))
        invariant Staged(stages, old(local), local, idle, thief)
      {
        ghost var before := local;
        if idle[thief] {
          StealFor(thief);
        }
        StageOne(stages, old(local), before, local, idle, thief);
        stages := stages + [local];
      }
    }

    method StealFor(thief: nat)
      requires Valid() && thief < |local|
      modifies this`local
      ensures |local| == |old(local)| && AllLocal(local) == old(AllLocal(local))
      ensures Steals(old(local), local, true, thief)
    {
      var victim, maxTasks := FindVictim(thief);
      forall v: nat | Richest(local, thief, v) && maxTasks > 0
        ensures v == victim
      {
        RichestIsOne(local, thief, v, victim);
      }
      if maxTasks > 1 {
        var stealCount := |local[victim]| / 2;
        var stolen := local[victim][..stealCount];
        StealKeepsAll(local, victim, thief, stealCount);
        local := local[victim := local[victim][stealCount..]];
        local := local[thief := local[thief] + stolen];
      }
    }
  }

  // ---------------------------------------------------------------- all interleavings

  /** The places a task can be. `Carried(k)` is what steal number `k` has in its hands. */
  datatype Place =
    | Global
    | Local(w: Worker)
    | Carried(k: nat)
    | Executing(w: Worker)
    | Finished

  type Boxes = map<Place, seq<Id>>

  /** `started` notes every start of an execution, in order. */
  datatype State = State(boxes: Boxes, deps: Dependencies, submitted: set<Id>, completed: set<Id>, started: seq<Id>)

  function In(b: Boxes, p: Place): seq<Id> {
    if p in b then b[p] else []
  }

  /** Move the first `n` tasks of one place behind those of another. */
  function Move(b: Boxes, p: Place, q: Place, n: nat): Boxes
    requires n <= |In(b, p)|
  {
    var rest := b[p := In(b, p)[n..]];
    rest[q := In(rest, q) + In(b, p)[..n]]
  }

  datatype Step =
    | Submit(id: Id, ds: seq<Id>)
    | Dispatch(w: Worker)
    | PutBack
    | Take(w: Worker)
    | Finish(w: Worker, ok: bool)
    | StealTake(k: nat, victim: Worker)
    | StealGive(k: nat, thief: Worker)

  predicate Init(s: State) {
    s == State(map[], map[], {}, {}, [])
  }

  predicate Enabled(s: State, e: Step) {
    match e
    case Submit(id, _) => id !in s.submitted
    case Dispatch(_) => In(s.boxes, Global) != [] && Met(s.deps, s.completed, In(s.boxes, Global)[0])
    case PutBack => In(s.boxes, Global) != [] && !Met(s.deps, s.completed, In(s.boxes, Global)[0])
    case Take(w) => In(s.boxes, Local(w)) != [] && In(s.boxes, Executing(w)) == []
    case Finish(w, _) => In(s.boxes, Executing(w)) != []
    case StealTake(k, _) => In(s.boxes, Carried(k)) == []
    case StealGive(_, _) => true
  }

  /** One iteration of the scheduling loop, one locked section of a worker, or half a steal. */
  function Apply(s: State, e: Step): State
    requires Enabled(s, e)
  {
    match e
    case Submit(id, ds) =>
      s.(boxes := s.boxes[Global := In(s.boxes, Global) + [id]],
         deps := Recorded(s.deps, id, ds), submitted := s.submitted + {id})
    case Dispatch(w) => s.(boxes := Move(s.boxes, Global, Local(w), 1))
    case PutBack => s.(boxes := Move(s.boxes, Global, Global, 1))
    case Take(w) =>
      s.(boxes := Move(s.boxes, Local(w), Executing(w), 1), started := s.started + [In(s.boxes, Local(w))[0]])
    case Finish(w, ok) =>
      s.(boxes := Move(s.boxes, Executing(w), Finished, 1),
         completed := if ok then s.completed + {In(s.boxes, Executing(w))[0]} else s.completed)
    case StealTake(k, victim) =>
      s.(boxes := Move(s.boxes, Local(victim), Carried(k), |In(s.boxes, Local(victim))| / 2))
    case StealGive(k, thief) =>
      s.(boxes := Move(s.boxes, Carried(k), Local(thief), |In(s.boxes, Carried(k))|))
  }

  ghost predicate Next(s: State, s': State) {
    exists e :: Enabled(s, e) && s' == Apply(s, e)
  }

  ghost predicate IsRun(run: seq<State>) {
    && |run| > 0
    && Init(run[0])
    && forall i :: 0 < i < |run| ==> Next(run[i - 1], run[i])
  }

  // ---------------------------------------------------------------- the code takes these steps

  /** The machine's places hold what the scheduler's queues hold. */
  ghost predicate Shows(s: State, queue: seq<Id>, local: seq<seq<Id>>) {
    && In(s.boxes, Global) == queue
    && forall w: nat :: w < |local| ==> In(s.boxes, Local(w)) == local[w]
  }

  ghost predicate Leads(s: State, es: seq<Step>, s': State)
    decreases |es|
  {
    if es == [] then s' == s
    else Enabled(s, es[0]) && Leads(Apply(s, es[0]), es[1..], s')
  }

  lemma OfferIsAStep(b: Books, s: State, w: nat) returns (e: Step)
    requires w < |b.local| == |b.idle| && b.queue != [] && Shows(s, b.queue, b.local)
    ensures (e == Dispatch(w) || e == PutBack) && Enabled(s, e)
    ensures var b', s' := Offered(b, s.deps, s.completed, w), Apply(s, e);
            Shows(s', b'.queue, b'.local) && s' == s.(boxes := s'.boxes)
  {
    e := if Met(s.deps, s.completed, b.queue[0]) then Dispatch(w) else PutBack;
    assert b.queue[..1] == [b.queue[0]];
  }

  /** A scheduling turn is a sequence of dispatches to the workers on offer and of putting tasks back. */
  lemma {:induction false} TurnTakesMachineSteps(b: Books, s: State, ws: seq<nat>) returns (es: seq<Step>, s': State)
    requires |b.local| == |b.idle| && forall i :: 0 <= i < |ws| ==> ws[i] < |b.local|
    requires Shows(s, b.queue, b.local)
    ensures Leads(s, es, s') && s' == s.(boxes := s'.boxes)
    ensures forall i :: 0 <= i < |es| ==> es[i] == PutBack || (es[i].Dispatch? && es[i].w in ws)
    ensures var b' := Turn(b, s.deps, s.completed, ws); Shows(s', b'.queue, b'.local)
    decreases |ws|
  {
    if ws == [] || b.queue == [] {
      es, s' := [], s;
    } else {
      var e := OfferIsAStep(b, s, ws[0]);
      var rest;
      rest, s' := TurnTakesMachineSteps(Offered(b, s.deps, s.completed, ws[0]), Apply(s, e), ws[1..]);
      es := [e] + rest;
      assert es[1..] == rest;
    }
  }

  /** A steal is taking half of the victim's queue in hand and then giving it to the thief. */
  lemma StealTakesMachineSteps(queue: seq<Id>, local: seq<seq<Id>>, s: State, victim: nat, thief: nat, k: nat)
    requires victim < |local| && thief < |local| && victim != thief && Shows(s, queue, local)
    requires In(s.boxes, Carried(k)) == []
    ensures Enabled(s, StealTake(k, victim))
    ensures var s' := Apply(Apply(s, StealTake(k, victim)), StealGive(k, thief));
            && Shows(s', queue, Stolen(local, victim, thief, |local[victim]| / 2))
            && In(s'.boxes, Carried(k)) == [] && s' == s.(boxes := s'.boxes)
  {
    var n := |local[victim]| / 2;
    var taken := Apply(s, StealTake(k, victim));
    TakenInHand(queue, local, s, victim, k);
    GivenToThief(queue, local[victim := local[victim][n..]], taken, thief, k, local[victim][..n]);
  }

  lemma TakenInHand(queue: seq<Id>, local: seq<seq<Id>>, s: State, victim: nat, k: nat)
    requires victim < |local| && Shows(s, queue, local) && In(s.boxes, Carried(k)) == []
    ensures var n, s' := |local[victim]| / 2, Apply(s, StealTake(k, victim));
            Shows(s', queue, local[victim := local[victim][n..]]) && In(s'.boxes, Carried(k)) == local[victim][..n]
  {
    var n := |local[victim]| / 2;
    assert [] + local[victim][..n] == local[victim][..n];
  }

  lemma GivenToThief(queue: seq<Id>, local: seq<seq<Id>>, s: State, thief: nat, k: nat, hand: seq<Id>)
    requires thief < |local| && Shows(s, queue, local) && In(s.boxes, Carried(k)) == hand
    ensures var s' := Apply(s, StealGive(k, thief));
            Shows(s', queue, local[thief := local[thief] + hand]) && In(s'.boxes, Carried(k)) == []
  {
    assert hand[..|hand|] == hand;
  }

  /** Submitting queues the task last and notes what it depends on. */
  lemma SubmitIsAStep(queue: seq<Id>, local: seq<seq<Id>>, s: State, id: Id, ds: seq<Id>)
    requires Shows(s, queue, local) && id !in s.submitted
    ensures Enabled(s, Submit(id, ds))
    ensures var s' := Apply(s, Submit(id, ds));
            && Shows(s', queue + [id], local) && s'.submitted == s.submitted + {id}
            && s'.deps == (if |ds| > 0 then s.deps[id := ds] else s.deps)
            && s'.completed == s.completed && s'.started == s.started
  {
  }

  /** Processing a task is taking the front of the worker's queue and then finishing it. */
  lemma ProcessTakesMachineSteps(queue: seq<Id>, local: seq<seq<Id>>, s: State, w: nat, ok: bool)
    requires w < |local| && local[w] != [] && Shows(s, queue, local) && In(s.boxes, Executing(w)) == []
    ensures Enabled(s, Take(w)) && Enabled(Apply(s, Take(w)), Finish(w, ok))
    ensures var s' := Apply(Apply(s, Take(w)), Finish(w, ok));
            && Shows(s', queue, local[w := local[w][1..]])
            && s'.completed == (if ok then s.completed + {local[w][0]} else s.completed)
            && s'.started == s.started + [local[w][0]] && In(s'.boxes, Executing(w)) == []
  {
    var taken := Apply(s, Take(w));
    assert In(taken.boxes, Executing(w)) == [] + local[w][..1] == [local[w][0]];
  }

  // ---------------------------------------------------------------- invariant

  ghost predicate NoDuplicates(q: seq<Id>) {
    forall i, j :: 0 <= i < j < |q| ==> q[i] != q[j]
  }

  /** Every submitted task is in exactly one place, once, and nothing else is anywhere. */
  ghost predicate Partitioned(b: Boxes, submitted: set<Id>) {
    && (forall p :: NoDuplicates(In(b, p)))
    && (forall p, q, id :: id in In(b, p) && id in In(b, q) ==> p == q)
    && (forall p, id :: id in In(b, p) ==> id in submitted)
    && (forall id :: id in submitted ==> Somewhere(b, id))
  }

  ghost predicate Somewhere(b: Boxes, id: Id) {
    exists p :: id in In(b, p)
  }

  predicate Begun(p: Place) { p.Executing? || p.Finished? }

  ghost predicate StartedOnce(s: State) {
    && NoDuplicates(s.started)
    && (forall id :: id in s.started ==> exists p :: Begun(p) && id in In(s.boxes, p))
    && (forall p, id :: Begun(p) && id in In(s.boxes, p) ==> id in s.started)
  }

  ghost predicate ReadyOutsideGlobal(s: State) {
    forall p, id :: p != Global && id in In(s.boxes, p) ==> Met(s.deps, s.completed, id)
  }

  ghost predicate CompletedFinished(s: State) {
    && (forall id :: id in s.completed ==> id in In(s.boxes, Finished))
    && (forall id :: id in s.deps ==> id in s.submitted)
  }

  /** What a start depends on was started before it. */
  ghost predicate InDependencyOrder(s: State) {
    forall x, d :: 0 <= x < |s.started| && d in DepsOf(s.deps, s.started[x]) ==> d in s.started[..x]
  }

  ghost predicate Inv(s: State) {
    && Partitioned(s.boxes, s.submitted) && StartedOnce(s)
    && ReadyOutsideGlobal(s) && CompletedFinished(s) && InDependencyOrder(s)
  }

  /** What a move does to each place. */
  lemma MoveContents(b: Boxes, p: Place, q: Place, n: nat, id: Id, x: Place)
    requires n <= |In(b, p)|
    ensures p != q ==>
              (id in In(Move(b, p, q, n), x) <==>
                 if x == p then id in In(b, p)[n..]
                 else if x == q then id in In(b, q) || id in In(b, p)[..n]
                 else id in In(b, x))
    ensures p == q ==> (id in In(Move(b, p, q, n), x) <==> id in In(b, x))
  {
    assert In(b, p) == In(b, p)[..n] + In(b, p)[n..];
  }

  lemma SplitDistinct(q: seq<Id>, n: nat)
    requires NoDuplicates(q) && n <= |q|
    ensures NoDuplicates(q[..n]) && NoDuplicates(q[n..])
    ensures forall id :: id in q[..n] ==> id !in q[n..]
    ensures forall id :: id in q <==> id in q[..n] || id in q[n..]
  {
    assert q == q[..n] + q[n..];
  }

  lemma JoinDistinct(a: seq<Id>, b: seq<Id>)
    requires NoDuplicates(a) && NoDuplicates(b) && forall id :: id in a ==> id !in b
    ensures NoDuplicates(a + b)
  {
    forall i, j | 0 <= i < j < |a + b|
      ensures (a + b)[i] != (a + b)[j]
    {
      assert i < |a| ==> (a + b)[i] in a;
      assert j >= |a| ==> (a + b)[j] in b;
    }
  }

  lemma MoveStaysDistinct(b: Boxes, submitted: set<Id>, p: Place, q: Place, n: nat, x: Place)
    requires Partitioned(b, submitted) && n <= |In(b, p)|
    ensures NoDuplicates(In(Move(b, p, q, n), x))
  {
    assert NoDuplicates(In(b, p)) && NoDuplicates(In(b, q)) && NoDuplicates(In(b, x));
    SplitDistinct(In(b, p), n);
    if x == q {
      var rest := if p == q then In(b, p)[n..] else In(b, q);
      JoinDistinct(rest, In(b, p)[..n]);
    }
  }

  lemma MoveStaysDisjoint(b: Boxes, submitted: set<Id>, p: Place, q: Place, n: nat, x: Place, y: Place, id: Id)
    requires Partitioned(b, submitted) && n <= |In(b, p)|
    requires id in In(Move(b, p, q, n), x) && id in In(Move(b, p, q, n), y)
    ensures x == y
  {
    assert NoDuplicates(In(b, p));
    SplitDistinct(In(b, p), n);
    MoveContents(b, p, q, n, id, x);
    MoveContents(b, p, q, n, id, y);
  }

  lemma MoveLosesNothing(b: Boxes, p: Place, q: Place, n: nat, id: Id)
    requires n <= |In(b, p)|
    ensures Somewhere(Move(b, p, q, n), id) <==> Somewhere(b, id)
  {
    var b' := Move(b, p, q, n);
    assert In(b, p) == In(b, p)[..n] + In(b, p)[n..];
    if x :| id in In(b, x) {
      MoveContents(b, p, q, n, id, x);
      MoveContents(b, p, q, n, id, q);
      assert id in In(b', x) || id in In(b', q);
    }
    if x :| id in In(b', x) {
      MoveContents(b, p, q, n, id, x);
      assert id in In(b, x) || id in In(b, p);
    }
  }

  /** Moving tasks between places keeps each of them in exactly one place. */
  lemma MoveKeepsPartition(b: Boxes, submitted: set<Id>, p: Place, q: Place, n: nat)
    requires Partitioned(b, submitted) && n <= |In(b, p)|
    ensures Partitioned(Move(b, p, q, n), submitted)
  {
    var b' := Move(b, p, q, n);
    forall x
      ensures NoDuplicates(In(b', x))
    {
      MoveStaysDistinct(b, submitted, p, q, n, x);
    }
    forall x, y, id | id in In(b', x) && id in In(b', y)
      ensures x == y
    {
      MoveStaysDisjoint(b, submitted, p, q, n, x, y, id);
    }
    forall x, id | id in In(b', x)
      ensures id in submitted
    {
      MoveLosesNothing(b, p, q, n, id);
      assert Somewhere(b, id);
    }
    forall id | id in submitted
      ensures Somewhere(b', id)
    {
      MoveLosesNothing(b, p, q, n, id);
    }
  }

  lemma SubmitKeepsPartition(b: Boxes, submitted: set<Id>, id: Id)
    requires Partitioned(b, submitted) && id !in submitted
    ensures Partitioned(b[Global := In(b, Global) + [id]], submitted + {id})
  {
    var b' := b[Global := In(b, Global) + [id]];
    forall x
      ensures NoDuplicates(In(b', x))
    {
      assert NoDuplicates(In(b, x));
    }
    forall x, t
      ensures t in In(b', x) <==> t in In(b, x) || (x == Global && t == id)
    {
    }
    assert id in In(b', Global);
    forall t | t in submitted + {id}
      ensures Somewhere(b', t)
    {
      if t != id {
        var x :| t in In(b, x);
        assert t in In(b', x);
      }
    }
  }

  /** A move that starts nothing and hands out nothing early. */
  lemma QuietMoveKeepsInv(s: State, p: Place, q: Place, n: nat)
    requires Inv(s) && n <= |In(s.boxes, p)| && !Begun(p) && !Begun(q)
    requires q != Global ==> forall id :: id in In(s.boxes, p)[..n] ==> Met(s.deps, s.completed, id)
    requires q == Global ==> p == Global
    ensures Inv(s.(boxes := Move(s.boxes, p, q, n)))
  {
    var s' := s.(boxes := Move(s.boxes, p, q, n));
    MoveKeepsPartition(s.boxes, s.submitted, p, q, n);
    forall x | Begun(x)
      ensures In(s'.boxes, x) == In(s.boxes, x)
    {
    }
    forall id | id in s'.started
      ensures exists x :: Begun(x) && id in In(s'.boxes, x)
    {
      var x :| Begun(x) && id in In(s.boxes, x);
      assert id in In(s'.boxes, x);
    }
    forall x, id | x != Global && id in In(s'.boxes, x)
      ensures Met(s'.deps, s'.completed, id)
    {
      MoveContents(s.boxes, p, q, n, id, x);
    }
  }

  /** Starts are accounted for as long as no begun task leaves the places of begun tasks. */
  lemma StartsKept(s: State, s': State)
    requires StartedOnce(s) && s'.started == s.started
    requires forall p, id :: Begun(p) && id in In(s'.boxes, p) ==> exists q :: Begun(q) && id in In(s.boxes, q)
    requires forall p, id :: Begun(p) && id in In(s.boxes, p) ==> exists q :: Begun(q) && id in In(s'.boxes, q)
    ensures StartedOnce(s')
  {
    forall id | id in s'.started
      ensures exists q :: Begun(q) && id in In(s'.boxes, q)
    {
      var p :| Begun(p) && id in In(s.boxes, p);
    }
    forall p, id | Begun(p) && id in In(s'.boxes, p)
      ensures id in s'.started
    {
      var q :| Begun(q) && id in In(s.boxes, q);
    }
  }

  lemma StartedWasSubmitted(s: State)
    requires Partitioned(s.boxes, s.submitted) && StartedOnce(s)
    ensures forall id :: id in s.started ==> id in s.submitted
  {
    forall id | id in s.started
      ensures id in s.submitted
    {
      var p :| Begun(p) && id in In(s.boxes, p);
    }
  }

  lemma SubmitKeepsInv(s: State, id: Id, ds: seq<Id>)
    requires Inv(s) && id !in s.submitted
    ensures Inv(Apply(s, Submit(id, ds)))
  {
    var s' := Apply(s, Submit(id, ds));
    SubmitKeepsPartition(s.boxes, s.submitted, id);
    assert forall p :: p != Global ==> In(s'.boxes, p) == In(s.boxes, p);
    StartsKept(s, s');
    StartedWasSubmitted(s);
    SubmitKeepsDeps(s, s', id, ds);
  }

  lemma SubmitKeepsDeps(s: State, s': State, id: Id, ds: seq<Id>)
    requires ReadyOutsideGlobal(s) && CompletedFinished(s) && InDependencyOrder(s) && Partitioned(s.boxes, s.submitted)
    requires id !in s.submitted && s' == Apply(s, Submit(id, ds))
    requires forall t :: t in s.started ==> t in s.submitted
    ensures ReadyOutsideGlobal(s') && CompletedFinished(s') && InDependencyOrder(s')
  {
    forall t | t in s.submitted
      ensures DepsOf(s'.deps, t) == DepsOf(s.deps, t)
    {
    }
    forall p, t | p != Global && t in In(s'.boxes, p)
      ensures Met(s'.deps, s'.completed, t)
    {
      assert t in In(s.boxes, p) && Met(s.deps, s.completed, t);
    }
    forall x, d | 0 <= x < |s'.started| && d in DepsOf(s'.deps, s'.started[x])
      ensures d in s'.started[..x]
    {
      assert s.started[x] in s.started;
    }
  }

  lemma TakeKeepsStarts(s: State, w: Worker)
    requires Inv(s) && Enabled(s, Take(w))
    ensures var s' := Apply(s, Take(w)); StartedOnce(s') && InDependencyOrder(s')
  {
    var s' := Apply(s, Take(w));
    var id := In(s.boxes, Local(w))[0];
    assert id in In(s.boxes, Local(w));
    assert Met(s.deps, s.completed, id);
    assert id !in s.started;
    forall d | d in DepsOf(s.deps, id)
      ensures d in s.started
    {
      assert d in In(s.boxes, Finished);
    }
    assert forall x :: 0 <= x <= |s.started| ==> s'.started[..x] == s.started[..x];
    forall x, t
      ensures Begun(x) ==> (t in In(s'.boxes, x) <==> t in In(s.boxes, x) || (x == Executing(w) && t == id))
    {
      MoveContents(s.boxes, Local(w), Executing(w), 1, t, x);
    }
    forall t | t in s'.started
      ensures exists x :: Begun(x) && t in In(s'.boxes, x)
    {
      if t == id {
        assert Begun(Executing(w)) && t in In(s'.boxes, Executing(w));
      } else {
        var x :| Begun(x) && t in In(s.boxes, x);
        assert t in In(s'.boxes, x);
      }
    }
  }

  lemma TakeKeepsInv(s: State, w: Worker)
    requires Inv(s) && Enabled(s, Take(w))
    ensures Inv(Apply(s, Take(w)))
  {
    var s' := Apply(s, Take(w));
    MoveKeepsPartition(s.boxes, s.submitted, Local(w), Executing(w), 1);
    TakeKeepsStarts(s, w);
    forall x, id | x != Global && id in In(s'.boxes, x)
      ensures Met(s'.deps, s'.completed, id)
    {
      MoveContents(s.boxes, Local(w), Executing(w), 1, id, x);
      assert id in In(s.boxes, x) || id in In(s.boxes, Local(w));
    }
    forall id | id in s'.completed
      ensures id in In(s'.boxes, Finished)
    {
      MoveContents(s.boxes, Local(w), Executing(w), 1, id, Finished);
    }
  }

  lemma FinishContents(s: State, w: Worker, ok: bool, x: Place, t: Id)
    requires Inv(s) && Enabled(s, Finish(w, ok))
    ensures var id, b' := In(s.boxes, Executing(w))[0], Apply(s, Finish(w, ok)).boxes;
            && (t in In(b', x) ==> t in In(s.boxes, x) || (x == Finished && t == id))
            && (t in In(s.boxes, x) && t != id ==> t in In(b', x))
            && id in In(b', Finished)
  {
    var id := In(s.boxes, Executing(w))[0];
    MoveContents(s.boxes, Executing(w), Finished, 1, t, x);
    MoveContents(s.boxes, Executing(w), Finished, 1, id, Finished);
    assert In(s.boxes, Executing(w)) == [id] + In(s.boxes, Executing(w))[1..];
  }

  lemma FinishKeepsStarts(s: State, w: Worker, ok: bool)
    requires Inv(s) && Enabled(s, Finish(w, ok))
    ensures StartedOnce(Apply(s, Finish(w, ok)))
  {
    var s' := Apply(s, Finish(w, ok));
    var id := In(s.boxes, Executing(w))[0];
    forall p, t | Begun(p) && t in In(s'.boxes, p)
      ensures exists q :: Begun(q) && t in In(s.boxes, q)
    {
      FinishContents(s, w, ok, p, t);
      assert Begun(Executing(w)) && id in In(s.boxes, Executing(w));
    }
    forall p, t | Begun(p) && t in In(s.boxes, p)
      ensures exists q :: Begun(q) && t in In(s'.boxes, q)
    {
      FinishContents(s, w, ok, p, t);
      assert Begun(Finished) && id in In(s'.boxes, Finished);
    }
    StartsKept(s, s');
  }

  lemma FinishKeepsInv(s: State, w: Worker, ok: bool)
    requires Inv(s) && Enabled(s, Finish(w, ok))
    ensures Inv(Apply(s, Finish(w, ok)))
  {
    var s' := Apply(s, Finish(w, ok));
    var id := In(s.boxes, Executing(w))[0];
    assert id in In(s.boxes, Executing(w));
    MoveKeepsPartition(s.boxes, s.submitted, Executing(w), Finished, 1);
    FinishKeepsStarts(s, w, ok);
    forall x, t | x != Global && t in In(s'.boxes, x)
      ensures Met(s'.deps, s'.completed, t)
    {
      FinishContents(s, w, ok, x, t);
      assert Met(s.deps, s.completed, t);
    }
    forall t | t in s'.completed
      ensures t in In(s'.boxes, Finished)
    {
      FinishContents(s, w, ok, Finished, t);
    }
  }

  lemma StepKeepsInv(s: State, e: Step)
    requires Inv(s) && Enabled(s, e)
    ensures Inv(Apply(s, e))
  {
    match e
    case Submit(id, ds) => SubmitKeepsInv(s, id, ds);
    case Dispatch(w) => QuietMoveKeepsInv(s, Global, Local(w), 1);
    case PutBack => QuietMoveKeepsInv(s, Global, Global, 1);
    case Take(w) => TakeKeepsInv(s, w);
    case Finish(w, ok) => FinishKeepsInv(s, w, ok);
    case StealTake(k, victim) =>
      assert forall id :: id in In(s.boxes, Local(victim)) ==> Met(s.deps, s.completed, id);
      QuietMoveKeepsInv(s, Local(victim), Carried(k), |In(s.boxes, Local(victim))| / 2);
    case StealGive(k, thief) =>
      assert forall id :: id in In(s.boxes, Carried(k)) ==> Met(s.deps, s.completed, id);
      QuietMoveKeepsInv(s, Carried(k), Local(thief), |In(s.boxes, Carried(k))|);
  }

  lemma {:induction false} RunKeepsInv(run: seq<State>, i: nat)
    requires IsRun(run) && i < |run|
    ensures Inv(run[i])
  {
    if i > 0 {
      RunKeepsInv(run, i - 1);
      var s := run[i - 1];
      assert Next(s, run[i]);
      var e :| Enabled(s, e) && run[i] == Apply(s, e);
      StepKeepsInv(s, e);
    }
  }

  // ---------------------------------------------------------------- main results

  /** In every state of every run a submitted task is in exactly one place, and there only once. */
  lemma ExactlyOnePlace(run: seq<State>, i: nat, id: Id) returns (p: Place)
    requires IsRun(run) && i < |run| && id in run[i].submitted
    ensures id in In(run[i].boxes, p) && forall q :: id in In(run[i].boxes, q) ==> q == p
    ensures multiset(In(run[i].boxes, p))[id] == 1
  {
    RunKeepsInv(run, i);
    var b := run[i].boxes;
    assert Somewhere(b, id);
    p :| id in In(b, p);
    assert NoDuplicates(In(b, p));
    DistinctCount(In(b, p), id);
  }

  lemma {:induction false} DistinctCount(q: seq<Id>, id: Id)
    requires NoDuplicates(q) && id in q
    ensures multiset(q)[id] == 1
    decreases |q|
  {
    var rest := q[..|q| - 1];
    assert q == rest + [q[|q| - 1]];
    if id in rest {
      DistinctCount(rest, id);
    }
  }

  /** No task is ever executed twice. */
  lemma NothingRunsTwice(run: seq<State>, i: nat, x: nat, y: nat)
    requires IsRun(run) && i < |run| && x < |run[i].started| && y < |run[i].started|
    requires run[i].started[x] == run[i].started[y]
    ensures x == y
  {
    RunKeepsInv(run, i);
  }

  /** No task starts before everything it was recorded to depend on has started and completed. */
  lemma DependenciesFirst(run: seq<State>, i: nat, x: nat, d: Id)
    requires IsRun(run) && i < |run| && x < |run[i].started|
    requires run[i].started[x] in run[i].deps && d in run[i].deps[run[i].started[x]]
    ensures d in run[i].completed && d in run[i].started[..x]
  {
    RunKeepsInv(run, i);
    var s := run[i];
    var id := s.started[x];
    assert id in s.started;
    var p :| Begun(p) && id in In(s.boxes, p);
    assert Met(s.deps, s.completed, id);
  }

  /** Tasks that wait for each other never start: no member of a dependency cycle ever runs. */
  lemma {:induction false} CyclesNeverStart(run: seq<State>, i: nat, cycle: set<Id>, x: nat)
    requires IsRun(run) && i < |run| && x < |run[i].started|
    requires forall id :: id in cycle && id in run[i].submitted ==>
              id in run[i].deps && exists d :: d in cycle && d in run[i].deps[id]
    ensures run[i].started[x] !in cycle
    decreases x
  {
    RunKeepsInv(run, i);
    var s := run[i];
    var id := s.started[x];
    if id in cycle {
      assert id in s.started;
      var p :| Begun(p) && id in In(s.boxes, p);
      assert id in s.submitted;
      var d :| d in cycle && d in s.deps[id];
      DependenciesFirst(run, i, x, d);
      var y :| 0 <= y < x && s.started[y] == d;
      CyclesNeverStart(run, i, cycle, y);
    }
  }
}
