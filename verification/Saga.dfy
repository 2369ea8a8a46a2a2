/**
 The compensating saga: steps run in order with retries; when one fails for good, the steps before
 it are compensated in reverse order, and compensations that fail are logged and passed over.
 How each attempt will turn out is an arbitrary oracle; an attempt that fails has no effect.
 */
module Saga {

  type Id = string

  datatype Step<!W> = Step(
    name: string, executionId: Id, idempotent: bool, maxRetries: int, execute: W -> W, compensate: W -> W)

  /** Whether attempt `a` of step `j` succeeds, and whether compensating step `j` does. */
  datatype Outcomes = Outcomes(run: (nat, nat) -> bool, undo: nat -> bool)

  /** One of the attempts allowed to step `j` succeeds. */
  ghost predicate Works<W>(s: Step<W>, o: Outcomes, j: nat) {
    exists a: nat :: a <= s.maxRetries && o.run(j, a)
  }

  ghost predicate Undoes<W(!new)>(s: Step<W>) {
    forall w :: s.compensate(s.execute(w)) == w
  }

  // ---------------------------------------------------------------- what a run amounts to

  /** The execution identifiers on record when step `j` is reached. */
  function Recorded<W>(steps: seq<Step<W>>, h: set<Id>, j: nat): set<Id>
    requires j <= |steps|
  {
    if j == 0 then h
    else Recorded(steps, h, j - 1) + if steps[j - 1].idempotent then {steps[j - 1].executionId} else {}
  }

  /** An idempotent step whose identifier is on record is passed over as already done. */
  predicate Skips<W>(steps: seq<Step<W>>, h: set<Id>, j: nat)
    requires j < |steps|
  {
    steps[j].idempotent && steps[j].executionId in Recorded(steps, h, j)
  }

  /** The world after the first `n` steps. */
  function Forward<W>(steps: seq<Step<W>>, h: set<Id>, n: nat, w: W): W
    requires n <= |steps|
  {
    if n == 0 then w
    else
      var before := Forward(steps, h, n - 1, w);
      if Skips(steps, h, n - 1) then before else steps[n - 1].execute(before)
  }

  /** The world after compensating, from step `n - 1` down to step `j`, those marked in `undo`. */
  function Backward<W>(steps: seq<Step<W>>, undo: seq<bool>, j: nat, n: nat, w: W): W
    requires j <= n <= |steps| == |undo|
    decreases n - j
  {
    if j == n then w
    else
      var after := Backward(steps, undo, j + 1, n, w);
      if undo[j] then steps[j].compensate(after) else after
  }

  /** The steps marked executed once the first `n` have been passed. */
  function Marked<W>(steps: seq<Step<W>>, h: set<Id>, executed: seq<bool>, n: nat): seq<bool>
    requires n <= |steps| == |executed|
  {
    seq(|steps|, j requires 0 <= j < |steps| => executed[j] || (j < n && !Skips(steps, h, j)))
  }

  /** The names of executed steps from `j` to below `n` left uncompensated, last step first. */
  function Leftover<W>(steps: seq<Step<W>>, executed: seq<bool>, compensated: seq<bool>, j: nat, n: nat): seq<string>
    requires j <= n <= |steps| == |executed| == |compensated|
    decreases n - j
  {
    if j == n then []
    else Leftover(steps, executed, compensated, j + 1, n)
         + if executed[j] && !compensated[j] then [steps[j].name] else []
  }

  /** These are exactly the names of executed steps without a compensation. */
  lemma {:induction false} LeftoverNames<W>(steps: seq<Step<W>>, executed: seq<bool>, compensated: seq<bool>, j: nat,
                                            n: nat, name: string)
    requires j <= n <= |steps| == |executed| == |compensated|
    ensures name in Leftover(steps, executed, compensated, j, n)
       <==> exists k :: j <= k < n && executed[k] && !compensated[k] && steps[k].name == name
    decreases n - j
  {
    if j < n {
      LeftoverNames(steps, executed, compensated, j + 1, n, name);
    }
  }

  /** A saga that has never run: no marks, and every idempotent step's identifier is its own and new. */
  ghost predicate Fresh<W>(steps: seq<Step<W>>, h: set<Id>, executed: seq<bool>, compensated: seq<bool>)
    requires |steps| == |executed| == |compensated|
  {
    && (forall j :: 0 <= j < |steps| ==> !executed[j] && !compensated[j])
    && (forall j :: 0 <= j < |steps| && steps[j].idempotent ==> steps[j].executionId !in h)
    && (forall i, j :: 0 <= i < j < |steps| && steps[i].idempotent && steps[j].idempotent ==>
          steps[i].executionId != steps[j].executionId)
  }

  lemma {:induction false} RecordedIs<W>(steps: seq<Step<W>>, h: set<Id>, j: nat, id: Id)
    requires j <= |steps|
    ensures id in Recorded(steps, h, j)
       <==> id in h || exists i :: 0 <= i < j && steps[i].idempotent && steps[i].executionId == id
    decreases j
  {
    if j > 0 {
      RecordedIs(steps, h, j - 1, id);
    }
  }

  /** Nothing is skipped exactly when the idempotent steps' identifiers are new and distinct. */
  lemma NoSkipsIffDistinct<W>(steps: seq<Step<W>>, h: set<Id>)
    ensures (forall j :: 0 <= j < |steps| ==> !Skips(steps, h, j))
       <==> && (forall j :: 0 <= j < |steps| && steps[j].idempotent ==> steps[j].executionId !in h)
            && (forall i, j :: 0 <= i < j < |steps| && steps[i].idempotent && steps[j].idempotent ==>
                  steps[i].executionId != steps[j].executionId)
  {
    forall j | 0 <= j < |steps|
      ensures Skips(steps, h, j) <==>
        steps[j].idempotent &&
        (|| steps[j].executionId in h
         || exists i :: 0 <= i < j && steps[i].idempotent && steps[i].executionId == steps[j].executionId)
    {
      RecordedIs(steps, h, j, steps[j].executionId);
    }
  }

  /**
   If the compensations that failed are those of the first `m` steps, the world is as it was after
   those `m` steps; with none failed (`m == 0`) it is as it was at the start.
   */
  lemma {:induction false} UnwindsTo<W(!new)>(steps: seq<Step<W>>, h: set<Id>, undo: seq<bool>, m: nat, j: nat,
                                              n: nat, w: W)
    requires m <= n && j <= n <= |steps| == |undo|
    requires forall k :: 0 <= k < |steps| ==> Undoes(steps[k]) && !Skips(steps, h, k)
    requires forall k :: 0 <= k < n ==> (undo[k] <==> m <= k)
    ensures Backward(steps, undo, j, n, Forward(steps, h, n, w)) == Forward(steps, h, if j < m then m else j, w)
    decreases n - j
  {
    if j < n {
      UnwindsTo(steps, h, undo, m, j + 1, n, w);
    }
  }

  lemma {:induction false} MarksBelowDoNotMatter<W>(steps: seq<Step<W>>, executed: seq<bool>, a: seq<bool>,
                                                    b: seq<bool>,
                                                    undo: seq<bool>, undo': seq<bool>, j: nat, n: nat, w: W)
    requires j <= n <= |steps| == |a| == |b| == |undo| == |undo'| == |executed|
    requires forall k :: j <= k < n ==> a[k] == b[k] && undo[k] == undo'[k]
    ensures Backward(steps, undo, j, n, w) == Backward(steps, undo', j, n, w)
    ensures Leftover(steps, executed, a, j, n) == Leftover(steps, executed, b, j, n)
    decreases n - j
  {
    if j < n {
      MarksBelowDoNotMatter(steps, executed, a, b, undo, undo', j + 1, n, w);
    }
  }

  function Newly(before: seq<bool>, after: seq<bool>): seq<bool>
    requires |before| == |after|
  {
    seq(|before|, j requires 0 <= j < |before| => after[j] && !before[j])
  }

  /** Marks, log and world of a saga. */
  datatype Books<W> = Books(compensated: seq<bool>, log: seq<string>, world: W)

  /** How compensation has gone when it has dealt with the steps from `j` to below `i`. */
  ghost predicate Unwinding<W>(steps: seq<Step<W>>, o: Outcomes, executed: seq<bool>, b0: Books<W>, b: Books<W>,
                               j: nat, i: nat) {
    && j <= i <= |steps| == |executed| == |b0.compensated| == |b.compensated|
    && (forall k :: 0 <= k < |steps| ==>
          b.compensated[k] == (b0.compensated[k] || (j <= k < i && executed[k] && o.undo(k))))
    && b.world == Backward(steps, Newly(b0.compensated, b.compensated), j, i, b0.world)
    && b.log == b0.log + Leftover(steps, executed, b.compensated, j, i)
  }

  /** One step's compensation: passed over, done, or failed and logged. */
  ghost predicate Compensates<W>(steps: seq<Step<W>>, o: Outcomes, executed: seq<bool>, b: Books<W>, b': Books<W>,
                                 j: nat) {
    && j < |steps| == |executed| == |b.compensated|
    && b' == if !executed[j] || b.compensated[j] then b
             else if o.undo(j) then Books(b.compensated[j := true], b.log, steps[j].compensate(b.world))
             else Books(b.compensated, b.log + [steps[j].name], b.world)
  }

  lemma UnwindOne<W>(steps: seq<Step<W>>, o: Outcomes, executed: seq<bool>, b0: Books<W>, b: Books<W>, b': Books<W>,
                     j: nat, i: nat)
    requires Unwinding(steps, o, executed, b0, b, j + 1, i) && Compensates(steps, o, executed, b, b', j)
    ensures Unwinding(steps, o, executed, b0, b', j, i)
  {
    var undo, undo' := Newly(b0.compensated, b.compensated), Newly(b0.compensated, b'.compensated);
    MarksBelowDoNotMatter(steps, executed, b.compensated, b'.compensated, undo, undo', j + 1, i, b0.world);
    assert b0.log + Leftover(steps, executed, b'.compensated, j, i)
        == (b0.log + Leftover(steps, executed, b.compensated, j + 1, i))
           + if executed[j] && !b'.compensated[j] then [steps[j].name] else [];
  }

  /** None of the first `n` steps stops the saga. */
  ghost predicate Passes<W>(steps: seq<Step<W>>, o: Outcomes, h: set<Id>, n: nat)
    requires n <= |steps|
  {
    forall j :: 0 <= j < n ==> Skips(steps, h, j) || Works(steps[j], o, j)
  }

  /** How the steps have gone when the first `i` have succeeded. */
  ghost predicate Advancing<W>(steps: seq<Step<W>>, o: Outcomes, h0: set<Id>, executed0: seq<bool>, w0: W,
                               h: set<Id>, executed: seq<bool>, w: W, i: nat) {
    && i <= |steps| == |executed0|
    && Passes(steps, o, h0, i)
    && executed == Marked(steps, h0, executed0, i)
    && h == Recorded(steps, h0, i)
    && w == Forward(steps, h0, i, w0)
  }

  lemma AdvanceOne<W>(steps: seq<Step<W>>, o: Outcomes, h0: set<Id>, executed0: seq<bool>, w0: W,
                      h: set<Id>, executed: seq<bool>, w: W, i: nat)
    requires Advancing(steps, o, h0, executed0, w0, h, executed, w, i) && i < |steps|
    ensures (steps[i].idempotent && steps[i].executionId in h) == Skips(steps, h0, i)
    ensures Skips(steps, h0, i) || Works(steps[i], o, i) ==>
            var s := steps[i];
            var skip := s.idempotent && s.executionId in h;
            Advancing(steps, o, h0, executed0, w0, h + (if s.idempotent then {s.executionId} else {}),
                      if skip then executed else executed[i := true], if skip then w else s.execute(w), i + 1)
  {
    var skip := steps[i].idempotent && steps[i].executionId in h;
    assert skip == Skips(steps, h0, i);
    assert (if skip then executed else executed[i := true]) == Marked(steps, h0, executed0, i + 1);
  }

  /** Every step's compensation undoes it, and the first `n` compensations succeed. */
  ghost predicate AllUndo<W(!new)>(steps: seq<Step<W>>, o: Outcomes, n: nat) {
    (forall j :: 0 <= j < |steps| ==> Undoes(steps[j])) && forall j: nat :: j < n ==> o.undo(j)
  }

  /** A fresh saga that is unwound without a failure is back where it began. */
  lemma FreshLeavesNoTrace<W(!new)>(steps: seq<Step<W>>, o: Outcomes, h: set<Id>, executed0: seq<bool>, b0: Books<W>,
                                    b: Books<W>, i: nat)
    requires i <= |steps| == |executed0| == |b0.compensated|
    requires Unwinding(steps, o, Marked(steps, h, executed0, i), b0.(world := Forward(steps, h, i, b0.world)), b, 0, i)
    ensures Fresh(steps, h, executed0, b0.compensated) && AllUndo(steps, o, i) ==> b.world == b0.world
  {
    if Fresh(steps, h, executed0, b0.compensated) && AllUndo(steps, o, i) {
      NoSkipsIffDistinct(steps, h);
      UnwindsTo(steps, h, Newly(b0.compensated, b.compensated), 0, 0, i, b0.world);
    }
  }

  // ---------------------------------------------------------------- the code

  class Saga<!W(!new)> {
    const id: Id
    const steps: seq<Step<W>>
    var executed: seq<bool>
    var compensated: seq<bool>
    var compensationLog: seq<string>

    ghost predicate Valid() reads this { |executed| == |compensated| == |steps| }

    constructor (id: Id, steps: seq<Step<W>>)
      ensures Valid() && this.id == id && this.steps == steps && compensationLog == []
      ensures forall j :: 0 <= j < |steps| ==> !executed[j] && !compensated[j]
    {
      this.id := id;
      this.steps := steps;
      executed := seq(|steps|, _ => false);
      compensated := seq(|steps|, _ => false);
      compensationLog := [];
    }
  }

  class Manager<!W(!new)> {
    var executionHistory: set<Id>
    var world: W

    constructor (world: W)
      ensures this.world == world && executionHistory == {}
    {
      this.world := world;
      executionHistory := {};
    }

    /** Run a step until an attempt succeeds, at most `maxRetries + 1` times. */
    method ExecuteStep(saga: Saga<W>, o: Outcomes, j: nat) returns (ok: bool)
      requires saga.Valid() && j < |saga.steps|
      modifies this, saga`executed
      ensures saga.Valid()
      ensures var s := saga.steps[j];
              var skip := s.idempotent && s.executionId in old(executionHistory);
              && (ok <==> skip || Works(s, o, j))
              && (ok <==> skip || exists a: nat :: a <= s.maxRetries && o.run(j, a))
              && world == (if ok && !skip then s.execute(old(world)) else old(world))
              && saga.executed == (if ok && !skip then old(saga.executed)[j := true] else old(saga.executed))
              && executionHistory == old(executionHistory) + (if ok && s.idempotent then {s.executionId} else {})
    {
      var s := saga.steps[j];
      if s.idempotent && s.executionId in executionHistory {
        return true;
      }
      var attempt := 0;
      while attempt <= s.maxRetries
        invariant attempt >= 0 && forall a: nat :: a < attempt ==> !o.run(j, a)
        invariant world == old(world) && executionHistory == old(executionHistory)
        invariant saga.executed == old(saga.executed)
        decreases s.maxRetries - attempt
      {
        if o.run(j, attempt) {
          world := s.execute(world);
          saga.executed := saga.executed[j := true];
          if s.idempotent {
            executionHistory := executionHistory + {s.executionId};
          }
          return true;
        }
        attempt := attempt + 1;
      }
      return false;
    }

    /** Compensate steps `i - 1` down to the first: those executed and not yet compensated. */
    method CompensateFrom(saga: Saga<W>, o: Outcomes, i: nat)
      requires saga.Valid() && i <= |saga.steps|
      modifies this`world, saga`compensated, saga`compensationLog
      ensures saga.Valid()
      ensures Unwinding(saga.steps, o, saga.executed, old(View(saga)), View(saga), 0, i)
    {
      var j := i;
      assert Leftover(saga.steps, saga.executed, saga.compensated, i, i) == [];
      while j > 0
        invariant 0 <= j <= i && saga.Valid()
        invariant Unwinding(saga.steps, o, saga.executed, old(View(saga)), View(saga), j, i)
      {
        ghost var before := View(saga);
        j := j - 1;
        CompensateStep(saga, o, j);
        UnwindOne(saga.steps, o, saga.executed, old(View(saga)), before, View(saga), j, i);
      }
    }

    ghost function View(saga: Saga<W>): Books<W>
      reads this, saga
    {
      Books(saga.compensated, saga.compensationLog, world)
    }

    method CompensateStep(saga: Saga<W>, o: Outcomes, j: nat)
      requires saga.Valid() && j < |saga.steps|
      modifies this`world, saga`compensated, saga`compensationLog
      ensures saga.Valid() && Compensates(saga.steps, o, saga.executed, old(View(saga)), View(saga), j)
      ensures var due := saga.executed[j] && !old(saga.compensated)[j];
              && world == (if due && o.undo(j) then saga.steps[j].compensate(old(world)) else old(world))
              && saga.compensated
                 == (if due && o.undo(j) then old(saga.compensated)[j := true] else old(saga.compensated))
              && saga.compensationLog
                 == old(saga.compensationLog) + (if due && !o.undo(j) then [saga.steps[j].name] else [])
    {
      if saga.executed[j] && !saga.compensated[j] {
        if o.undo(j) {
          world := saga.steps[j].compensate(world);
          saga.compensated := saga.compensated[j := true];
        } else {
          saga.compensationLog := saga.compensationLog + [saga.steps[j].name];
        }
      }
    }

    /**
     Success: every step not already on record was applied once, in order. Failure at step `at`: the
     steps before it were applied, then compensated in reverse; the executed steps left uncompensated
     are exactly those logged. A fresh saga whose compensations all succeeded leaves no trace.
     */
    method ExecuteSaga(saga: Saga<W>, o: Outcomes) returns (ok: bool, ghost at: nat)
      requires saga.Valid()
      modifies this, saga
      ensures saga.Valid() && at <= |saga.steps| && (ok <==> at == |saga.steps|)
      ensures Passes(saga.steps, o, old(executionHistory), at)
      ensures !ok ==> !Skips(saga.steps, old(executionHistory), at) && !Works(saga.steps[at], o, at)
      ensures saga.executed == Marked(saga.steps, old(executionHistory), old(saga.executed), at)
      ensures ok ==> world == Forward(saga.steps, old(executionHistory), |saga.steps|, old(world))
      ensures ok ==> saga.compensated == old(saga.compensated) && saga.compensationLog == old(saga.compensationLog)
      ensures !ok ==>
                Unwinding(saga.steps, o, saga.executed,
                          old(View(saga)).(world := Forward(saga.steps, old(executionHistory), at, old(world))),
                          View(saga), 0, at)
      ensures !ok && AllUndo(saga.steps, o, at) ==>
                Fresh(saga.steps, old(executionHistory), old(saga.executed), old(saga.compensated)) ==>
                  world == old(world)
    {
      at := 0;
      assert saga.executed == Marked(saga.steps, executionHistory, saga.executed, 0);
      for i := 0 to |saga.steps|
        invariant saga.Valid() && at == i
        invariant Advancing(saga.steps, o, old(executionHistory), old(saga.executed), old(world),
                            executionHistory, saga.executed, world, i)
        invariant saga.compensated == old(saga.compensated) && saga.compensationLog == old(saga.compensationLog)
      {
        AdvanceOne(saga.steps, o, old(executionHistory), old(saga.executed), old(world),
                   executionHistory, saga.executed, world, i);
        ok := ExecuteStep(saga, o, i);
        if !ok {
          CompensateFrom(saga, o, i);
          FreshLeavesNoTrace(saga.steps, o, old(executionHistory), old(saga.executed), old(View(saga)), View(saga), i);
          return;
        }
        at := i + 1;
      }
      ok := true;
    }
  }
}
