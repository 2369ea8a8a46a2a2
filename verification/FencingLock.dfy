/**
 The lock with a time to live and fencing tokens. Critical sections are functions on the manager's
 state; `DistributedLock` is the code, the runs interleave its operations with the passing of time.
 A section may read the clock twice, first to test expiry and then to stamp.
 */
module FencingLock {
  import FiniteSets

  type Resource = string
  type NodeId = string

  datatype LockInfo = LockInfo(holder: NodeId, timestamp: int, ttl: int, token: nat) {
    function Expiry(): int { timestamp + ttl }
  }

  type Locks = map<Resource, LockInfo>

  /** Is the lock taken at time `now`? */
  predicate Live(l: LockInfo, now: int) { now - l.timestamp < l.ttl }

  predicate Refused(locks: Locks, node: NodeId, r: Resource, check: int) {
    r in locks && Live(locks[r], check) && locks[r].holder != node
  }

  predicate Reentrant(locks: Locks, node: NodeId, r: Resource, check: int) {
    r in locks && Live(locks[r], check) && locks[r].holder == node
  }

  /** The entry after an acquisition that is not refused: renewed, or new with the next token. */
  function Entry(locks: Locks, counter: nat, node: NodeId, r: Resource, ttl: int, check: int, stamp: int): LockInfo {
    if Reentrant(locks, node, r, check) then locks[r].(timestamp := stamp, ttl := ttl)
    else LockInfo(node, stamp, ttl, counter + 1)
  }

  function CounterAfter(locks: Locks, counter: nat, node: NodeId, r: Resource, check: int): nat {
    if Reentrant(locks, node, r, check) then counter else counter + 1
  }

  /** Nobody holds the resource, or whoever does has had it for its time to live. */
  predicate Expired(locks: Locks, r: Resource, now: int) {
    r in locks ==> locks[r].timestamp + locks[r].ttl <= now
  }

  /** Does this node hold the resource under this token? Expiry is not tested. */
  predicate Holds(locks: Locks, node: NodeId, r: Resource, token: nat) {
    r in locks && locks[r].holder == node && locks[r].token == token
  }

  function Cleaned(locks: Locks, now: int): Locks {
    map r | r in locks && now - locks[r].timestamp <= locks[r].ttl :: locks[r]
  }

  class DistributedLock {
    var locks: Locks
    var counter: nat
    var clock: int

    constructor (clock: int)
      ensures locks == map[] && counter == 0 && this.clock == clock
    {
      locks, counter := map[], 0;
      this.clock := clock;
    }

    method Now() returns (t: int)
      modifies this`clock
      ensures clock == t >= old(clock)
    {
      var later :| later >= clock;
      clock := later;
      return later;
    }

    method Acquire(node: NodeId, r: Resource, ttl: int) returns (token: nat, ok: bool, ghost check: int)
      modifies this
      ensures old(clock) <= check <= clock
      ensures ok <==> Expired(old(locks), r, check) || old(locks)[r].holder == node
      ensures !ok ==> token == 0 && locks == old(locks) && counter == old(counter)
      ensures ok ==> locks == old(locks)[r := LockInfo(node, clock, ttl, token)]
      ensures ok && Expired(old(locks), r, check) ==> token == counter == old(counter) + 1
      ensures ok && !Expired(old(locks), r, check) ==> token == old(locks)[r].token && counter == old(counter)
      ensures ok <==> !Refused(old(locks), node, r, check)
      ensures ok ==> locks[r] == Entry(old(locks), old(counter), node, r, ttl, check, clock)
      ensures ok ==> counter == CounterAfter(old(locks), old(counter), node, r, check)
    {
      check := clock;
      if r in locks {
        var t := Now();
        check := t;
        var lock := locks[r];
        if t - lock.timestamp < lock.ttl {
          if lock.holder != node {
            return 0, false, check;
          }
          var stamp := Now();
          locks := locks[r := lock.(timestamp := stamp, ttl := ttl)];
          return lock.token, true, check;
        }
      }
      counter := counter + 1;
      token := counter;
      var stamp := Now();
      locks := locks[r := LockInfo(node, stamp, ttl, token)];
      return token, true, check;
    }

    method Release(node: NodeId, r: Resource, token: nat) returns (ok: bool)
      modifies this`locks
      ensures ok <==> r in old(locks) && old(locks)[r].holder == node && old(locks)[r].token == token
      ensures ok <==> Holds(old(locks), node, r, token)
      ensures locks == if ok then old(locks) - {r} else old(locks)
    {
      if r !in locks {
        return false;
      }
      if locks[r].holder != node || locks[r].token != token {
        return false;
      }
      locks := locks - {r};
      return true;
    }

    method Extend(node: NodeId, r: Resource, token: nat, ttl: int) returns (ok: bool)
      modifies this`locks, this`clock
      ensures clock >= old(clock)
      ensures ok <==> r in old(locks) && old(locks)[r].holder == node && old(locks)[r].token == token
      ensures ok <==> Holds(old(locks), node, r, token)
      ensures locks == if ok then old(locks)[r := LockInfo(node, clock, ttl, token)] else old(locks)
    {
      if r !in locks || locks[r].holder != node || locks[r].token != token {
        return false;
      }
      var stamp := Now();
      locks := locks[r := locks[r].(timestamp := stamp, ttl := ttl)];
      return true;
    }

    /** The background sweep, one entry at a time. */
    method Cleanup()
      modifies this`locks, this`clock
      ensures clock >= old(clock)
      ensures locks == map r | r in old(locks) && old(locks)[r].timestamp + old(locks)[r].ttl >= clock :: old(locks)[r]
      ensures locks == Cleaned(old(locks), clock)
    {
      var now := Now();
      var todo := locks.Keys;
      while todo != {}
        invariant todo <= old(locks).Keys && clock == now
        invariant forall r :: r in locks <==>
                    r in old(locks) && (r in todo || now - old(locks)[r].timestamp <= old(locks)[r].ttl)
        invariant forall r :: r in locks ==> locks[r] == old(locks)[r]
      {
        var r := FiniteSets.Take(todo);
        if now - locks[r].timestamp > locks[r].ttl {
          locks := locks - {r};
        }
        todo := todo - {r};
      }
    }
  }

  // ---------------------------------------------------------------- all runs

  /** What a holder was last told about a token: who it is for and until when it lasts. */
  datatype Promise = Promise(holder: NodeId, until: int)
  datatype Grant = Grant(r: Resource, token: nat)

  /** `promises` records, per grant, the latest promise, unless the holder has given the lock back. */
  datatype State = State(clock: int, locks: Locks, counter: nat, promises: map<Grant, Promise>)

  datatype Step =
    | Tick(to: int)
    | Acquire(node: NodeId, r: Resource, ttl: int, check: int, stamp: int)
    | Release(node: NodeId, r: Resource, token: nat)
    | Extend(node: NodeId, r: Resource, token: nat, ttl: int, stamp: int)
    | Cleanup(at: int)

  predicate Init(s: State) {
    s.locks == map[] && s.counter == 0 && s.promises == map[]
  }

  predicate Enabled(s: State, e: Step) {
    match e
    case Tick(to) => s.clock <= to
    case Acquire(_, _, _, check, stamp) => s.clock <= check <= stamp
    case Release(_, _, _) => true
    case Extend(_, _, _, _, stamp) => s.clock <= stamp
    case Cleanup(at) => s.clock <= at
  }

  function Promised(s: State, r: Resource, l: LockInfo): map<Grant, Promise> {
    s.promises[Grant(r, l.token) := Promise(l.holder, l.Expiry())]
  }

  function Apply(s: State, e: Step): State
    requires Enabled(s, e)
  {
    match e
    case Tick(to) => s.(clock := to)
    case Acquire(node, r, ttl, check, stamp) =>
      if Refused(s.locks, node, r, check) then s.(clock := stamp)
      else
        var l := Entry(s.locks, s.counter, node, r, ttl, check, stamp);
        State(stamp, s.locks[r := l], CounterAfter(s.locks, s.counter, node, r, check), Promised(s, r, l))
    case Release(node, r, token) =>
      if Holds(s.locks, node, r, token)
      then s.(locks := s.locks - {r}, promises := s.promises - {Grant(r, token)}) else s
    case Extend(node, r, token, ttl, stamp) =>
      if Holds(s.locks, node, r, token)
      then
        var l := s.locks[r].(timestamp := stamp, ttl := ttl);
        s.(clock := stamp, locks := s.locks[r := l], promises := Promised(s, r, l))
      else s.(clock := stamp)
    case Cleanup(at) => s.(clock := at, locks := Cleaned(s.locks, at))
  }

  ghost predicate Next(s: State, s': State) {
    exists e :: Enabled(s, e) && s' == Apply(s, e)
  }

  ghost predicate IsRun(run: seq<State>) {
    && |run| > 0
    && Init(run[0])
    && forall i :: 0 < i < |run| ==> Next(run[i - 1], run[i])
  }

  /**
   A lock that has run out is anybody's: an acquisition gives the resource to its caller, until its time to
   live is over, exactly when the lock there is the caller's own or has run out. Otherwise nothing changes.
   */
  lemma AcquiresIffExpiredOrOwn(s: State, node: NodeId, r: Resource, ttl: int, check: int, stamp: int)
    requires s.clock <= check <= stamp
    ensures var s' := Apply(s, Acquire(node, r, ttl, check, stamp));
            if Expired(s.locks, r, check) || s.locks[r].holder == node then
              && r in s'.locks && s'.locks[r].holder == node && s'.locks[r].timestamp + s'.locks[r].ttl == stamp + ttl
              && (stamp < stamp + ttl ==> Relies(s', Grant(r, s'.locks[r].token)))
              && (forall x :: x in s.locks && x != r ==> x in s'.locks && s'.locks[x] == s.locks[x])
            else s' == s.(clock := stamp)
  {
  }

  /** A promise is backed by the entry in the table, or has run out. */
  ghost predicate Backed(s: State, g: Grant)
    requires g in s.promises
  {
    var p := s.promises[g];
    || s.clock >= p.until
    || (&& g.r in s.locks && s.locks[g.r].token == g.token
        && s.locks[g.r].holder == p.holder && s.locks[g.r].Expiry() == p.until)
  }

  ghost predicate Numbered(s: State) {
    && (forall r :: r in s.locks ==> 1 <= s.locks[r].token <= s.counter)
    && (forall a, b :: a in s.locks && b in s.locks && a != b ==> s.locks[a].token != s.locks[b].token)
  }

  ghost predicate Inv(s: State) {
    Numbered(s) && forall g :: g in s.promises ==> g.token <= s.counter && Backed(s, g)
  }

  lemma StepKeepsNumbers(s: State, e: Step)
    requires Numbered(s) && Enabled(s, e)
    ensures Numbered(Apply(s, e))
  {
  }

  lemma StepKeepsBacking(s: State, e: Step, g: Grant)
    requires Inv(s) && Enabled(s, e) && g in Apply(s, e).promises
    ensures g.token <= Apply(s, e).counter && Backed(Apply(s, e), g)
  {
    assert g in s.promises ==> Backed(s, g);
  }

  lemma StepKeepsInv(s: State, e: Step)
    requires Inv(s) && Enabled(s, e)
    ensures Inv(Apply(s, e))
  {
    StepKeepsNumbers(s, e);
    forall g | g in Apply(s, e).promises
      ensures g.token <= Apply(s, e).counter && Backed(Apply(s, e), g)
    {
      StepKeepsBacking(s, e, g);
    }
  }

  lemma {:induction false} RunKeepsInv(run: seq<State>, i: nat)
    requires IsRun(run) && i < |run|
    ensures Inv(run[i])
  {
    if i > 0 {
      RunKeepsInv(run, i - 1);
      var s := run[i - 1];
      assert Next(s, run[i]);
      var e :| Enabled(s, e) && run[i] == Apply(s, e);
      StepKeepsInv(s, e);
    }
  }

  // ---------------------------------------------------------------- main results

  /** A holder relies on a grant at this moment. */
  predicate Relies(s: State, g: Grant) {
    g in s.promises && s.clock < s.promises[g].until
  }

  /** At any moment of any run at most one grant of a resource is relied on, so at most one holder. */
  lemma OneHolderAtATime(run: seq<State>, i: nat, g: Grant, h: Grant)
    requires IsRun(run) && i < |run| && g.r == h.r && Relies(run[i], g) && Relies(run[i], h)
    ensures g == h
  {
    RunKeepsInv(run, i);
    assert Backed(run[i], g) && Backed(run[i], h);
  }

  lemma {:induction false} CounterGrows(run: seq<State>, i: nat, j: nat)
    requires IsRun(run) && i <= j < |run|
    ensures run[i].counter <= run[j].counter
    decreases j
  {
    if i < j {
      CounterGrows(run, i, j - 1);
      assert Next(run[j - 1], run[j]);
    }
  }

  /**
   A grant that is not a renewal carries a larger token than every grant made at any earlier moment,
   on any resource, given back or not.
   */
  lemma FreshTokensGrow(run: seq<State>, h: nat, i: nat, node: NodeId, r: Resource, ttl: int, check: int, stamp: int,
                        g: Grant)
    requires IsRun(run) && h <= i < |run| && g in run[h].promises
    requires run[i].clock <= check <= stamp && Expired(run[i].locks, r, check)
    ensures var s' := Apply(run[i], Acquire(node, r, ttl, check, stamp));
            r in s'.locks && s'.locks[r].holder == node && s'.locks[r].token > g.token
  {
    RunKeepsInv(run, h);
    CounterGrows(run, h, i);
  }

  lemma {:induction false} SupersededStays(run: seq<State>, i: nat, j: nat, r: Resource, token: nat)
    requires IsRun(run) && i <= j < |run| && token <= run[i].counter
    requires r !in run[i].locks || run[i].locks[r].token != token
    ensures run[i].counter <= run[j].counter && (r in run[j].locks ==> run[j].locks[r].token != token)
    decreases j
  {
    if i < j {
      SupersededStays(run, i, j - 1, r, token);
      assert Next(run[j - 1], run[j]);
    }
  }

  /** Once a token given out is no longer the resource's token, it never extends or releases again. */
  lemma SupersededIsPowerless(run: seq<State>, i: nat, j: nat, node: NodeId, r: Resource, token: nat)
    requires IsRun(run) && i <= j < |run| && token <= run[i].counter
    requires r !in run[i].locks || run[i].locks[r].token != token
    ensures Apply(run[j], Release(node, r, token)) == run[j]
    ensures forall ttl, stamp :: run[j].clock <= stamp ==>
              Apply(run[j], Extend(node, r, token, ttl, stamp)) == run[j].(clock := stamp)
  {
    SupersededStays(run, i, j, r, token);
  }
}
