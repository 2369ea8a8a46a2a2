/**
 The quorum lock: N independent lock nodes, each with a table of TTL entries, and clients that
 lock a majority of the nodes one node at a time.

 The critical sections of a node are given as functions on its table (`Locked`, `Unlocked`).
 `Cluster` runs the client loops over these sections with other clients interfering between any
 two sections; the state machine below it interleaves the sections of any number of clients, and
 its steps are shown to be the interference `Cluster` was verified against.
 */
module Redlock {
  import opened FiniteSets

  type Resource = string
  type Value = string

  datatype LockInfo = LockInfo(holder: Value, timestamp: int, ttl: int, value: Value)

  type Table = map<Resource, LockInfo>

  /** The lock parameters: drift allowance, number of attempts. The quorum is a strict majority. */
  datatype Config = Config(nodes: nat, retries: nat, drift: nat) {
    function Quorum(): nat { nodes / 2 + 1 }
  }

  /** The quorum is the least size at which any two sets of nodes have a node in common. */
  lemma QuorumIsLeastMajority(c: Config, size: nat)
    ensures size >= c.Quorum() <==> 2 * size > c.nodes
    ensures size >= c.Quorum() <==> AnyTwoMeet(c.nodes, size)
  {
    if 2 * size <= c.nodes {
      var low, high := Below(size), Below(2 * size) - Below(size);
      assert Below(size) <= Below(2 * size);
      assert |high| == size && low * high == {};
    } else {
      forall a, b | a <= Below(c.nodes) && b <= Below(c.nodes) && |a| >= size && |b| >= size
        ensures a * b != {}
      {
        Pigeonhole(a, b, c.nodes);
      }
    }
  }

  ghost predicate AnyTwoMeet(nodes: nat, size: nat) {
    forall a: set<nat>, b: set<nat> ::
      a <= Below(nodes) && b <= Below(nodes) && |a| >= size && |b| >= size ==> a * b != {}
  }

  // ---------------------------------------------------------------- node sections

  /** Does an entry for `r` still stand in the way at time `check`? */
  predicate Blocked(t: Table, r: Resource, check: int) {
    r in t && check - t[r].timestamp < t[r].ttl
  }

  /** The table after a lock attempt that tests expiry at `check` and stamps at `stamp`. */
  function Locked(t: Table, r: Resource, v: Value, ttl: int, check: int, stamp: int): Table {
    if Blocked(t, r, check) then t else t[r := LockInfo(v, stamp, ttl, v)]
  }

  predicate Holds(t: Table, r: Resource, v: Value) {
    r in t && t[r].value == v
  }

  /** The table after an unlock attempt: only the owner's entry is removed. */
  function Unlocked(t: Table, r: Resource, v: Value): Table {
    if Holds(t, r, v) then t - {r} else t
  }

  /** The nodes on which `v` has an entry for `r` that lasts at least until `until`. */
  ghost function Holders(tables: seq<Table>, r: Resource, v: Value, until: int): (s: set<nat>)
    ensures s <= Below(|tables|)
  {
    set n: nat | n < |tables| && Holds(tables[n], r, v) && tables[n][r].timestamp + tables[n][r].ttl >= until
  }

  ghost predicate Absent(tables: seq<Table>, r: Resource, v: Value) {
    forall n :: 0 <= n < |tables| ==> !Holds(tables[n], r, v)
  }

  /**
   What everybody other than the owner of `v` may do while the owner is between two sections:
   time passes, `v`'s entry for `r` is not removed or replaced before it expires, and nobody else
   writes an entry with value `v`.
   */
  ghost predicate Rely(r: Resource, v: Value, clock: int, tables: seq<Table>, clock': int, tables': seq<Table>) {
    && clock <= clock'
    && |tables| == |tables'|
    && (forall n ::
          0 <= n < |tables| && Holds(tables[n], r, v) && clock' < tables[n][r].timestamp + tables[n][r].ttl ==>
          Holds(tables'[n], r, v) && tables'[n][r] == tables[n][r])
    && (forall n :: 0 <= n < |tables| && Holds(tables'[n], r, v) ==>
          Holds(tables[n], r, v) && tables'[n][r] == tables[n][r])
  }

  /** Doing nothing is such interference, and so is one piece of it after another: any number of steps. */
  lemma RelyIsReflexive(r: Resource, v: Value, clock: int, tables: seq<Table>)
    ensures Rely(r, v, clock, tables, clock, tables)
  {
  }

  lemma RelyIsTransitive(r: Resource, v: Value, c0: int, t0: seq<Table>, c1: int, t1: seq<Table>, c2: int,
                         t2: seq<Table>)
    requires Rely(r, v, c0, t0, c1, t1) && Rely(r, v, c1, t1, c2, t2)
    ensures Rely(r, v, c0, t0, c2, t2)
  {
  }

  lemma RelyKeepsHolders(r: Resource, v: Value, clock: int, tables: seq<Table>, clock': int, tables': seq<Table>,
                         until: int)
    requires Rely(r, v, clock, tables, clock', tables') && clock' < until
    ensures Holders(tables, r, v, until) <= Holders(tables', r, v, until)
  {
  }

  /** A sweep's own lock attempt keeps what the sweep has, and adds the node it succeeds on. */
  lemma LockKeepsHolders(tables: seq<Table>, n: nat, r: Resource, v: Value, ttl: int, check: int, stamp: int,
                         until: int)
    requires n < |tables| && check <= stamp < until <= stamp + ttl
    ensures var tables' := tables[n := Locked(tables[n], r, v, ttl, check, stamp)];
            && Holders(tables, r, v, until) <= Holders(tables', r, v, until)
            && (!Blocked(tables[n], r, check) ==> n in Holders(tables', r, v, until))
  {
  }

  /** On how many of the first `n` nodes an attempt at this moment would succeed. */
  function Free(tables: seq<Table>, r: Resource, now: int, n: nat): nat
    requires n <= |tables|
  {
    if n == 0 then 0
    else Free(tables, r, now, n - 1) + if Blocked(tables[n - 1], r, now) then 0 else 1
  }

  /** No entry there, or one that has had its time. */
  predicate IsFree(t: Table, r: Resource, now: int) {
    r in t ==> t[r].timestamp + t[r].ttl <= now
  }

  lemma {:induction false} FreeCounts(tables: seq<Table>, r: Resource, now: int, n: nat)
    requires n <= |tables|
    ensures Free(tables, r, now, n) == |set m: nat | m < n && IsFree(tables[m], r, now)|
  {
    if n > 0 {
      FreeCounts(tables, r, now, n - 1);
      FreeOneMore(tables, r, now, n - 1);
    }
  }

  lemma FreeOneMore(tables: seq<Table>, r: Resource, now: int, n: nat)
    requires n < |tables|
    ensures |set m: nat | m < n + 1 && IsFree(tables[m], r, now)|
         == |set m: nat | m < n && IsFree(tables[m], r, now)| + if IsFree(tables[n], r, now) then 1 else 0
  {
    var before := set m: nat | m < n && IsFree(tables[m], r, now);
    var all := set m: nat | m < n + 1 && IsFree(tables[m], r, now);
    assert all == if IsFree(tables[n], r, now) then before + {n} else before;
  }

  /** Locking and unlocking again at one moment leaves as many nodes free. */
  lemma {:induction false} RoundTripKeepsFree(tables: seq<Table>, locked: seq<Table>, unlocked: seq<Table>,
                                              r: Resource, v: Value, ttl: int, now: int, n: nat)
    requires n <= |tables| == |locked| == |unlocked| && Absent(tables, r, v)
    requires forall m :: 0 <= m < |tables| ==> locked[m] == Locked(tables[m], r, v, ttl, now, now)
    requires forall m :: 0 <= m < |tables| ==> unlocked[m] == Unlocked(locked[m], r, v)
    ensures Free(unlocked, r, now, n) == Free(tables, r, now, n)
  {
    if n > 0 {
      RoundTripKeepsFree(tables, locked, unlocked, r, v, ttl, now, n - 1);
    }
  }

  /** An undisturbed sweep has locked what it could of the first `n` nodes and not touched the rest. */
  ghost predicate Swept(before: seq<Table>, tables: seq<Table>, r: Resource, v: Value, ttl: int, now: int, n: nat) {
    && |tables| == |before|
    && forall m :: 0 <= m < |tables| ==>
         tables[m] == if m < n then Locked(before[m], r, v, ttl, now, now) else before[m]
  }

  /** And it has counted those it could lock. */
  ghost predicate SweptCounting(before: seq<Table>, tables: seq<Table>, r: Resource, v: Value, ttl: int, now: int,
                                n: nat, count: nat) {
    n <= |before| && Swept(before, tables, r, v, ttl, now, n) && count == Free(before, r, now, n)
  }

  lemma SweepOne(before: seq<Table>, tables: seq<Table>, r: Resource, v: Value, ttl: int, now: int, n: nat, count: nat)
    requires n < |before| && SweptCounting(before, tables, r, v, ttl, now, n, count)
    ensures SweptCounting(before, tables[n := Locked(tables[n], r, v, ttl, now, now)], r, v, ttl, now, n + 1,
                          if Blocked(tables[n], r, now) then count else count + 1)
  {
  }

  ghost predicate CountsBelow(got: set<nat>, n: nat, count: nat) {
    |got| == count && forall m :: m in got ==> m < n
  }

  lemma CountOneMore(got: set<nat>, n: nat, count: nat)
    requires CountsBelow(got, n, count)
    ensures CountsBelow(got + {n}, n + 1, count + 1)
  {
  }

  // ---------------------------------------------------------------- client loops

  /**
   The nodes as one client sees them; other clients act in `Interfere`. An undisturbed cluster is one
   in which nobody else acts and no time passes during a call.
   */
  class Cluster {
    const config: Config
    const undisturbed: bool
    var clock: int
    var tables: seq<Table>

    ghost predicate Valid() reads this { |tables| == config.nodes }

    constructor (config: Config, clock: int, undisturbed: bool)
      ensures Valid() && this.config == config && this.clock == clock && this.undisturbed == undisturbed
      ensures forall n :: 0 <= n < |tables| ==> tables[n] == map[]
    {
      this.config, this.undisturbed := config, undisturbed;
      this.clock := clock;
      this.tables := seq(config.nodes, _ => map[]);
    }

    /** Any number of steps of other clients and of the clock. */
    method Interfere(ghost r: Resource, ghost v: Value)
      requires Valid()
      modifies this
      ensures Valid()
      ensures Rely(r, v, old(clock), old(tables), clock, tables)
      ensures undisturbed ==> clock == old(clock) && tables == old(tables)
    {
      clock := Later();
    }

    method Later() returns (t: int)
      ensures t >= clock && (undisturbed ==> t == clock)
    {
      t :| t >= clock && (undisturbed ==> t == clock);
    }

    method LockSingleNode(n: nat, r: Resource, v: Value, ttl: int) returns (ok: bool)
      requires Valid() && n < config.nodes
      modifies this
      ensures Valid() && clock >= old(clock) && (undisturbed ==> clock == old(clock))
      ensures ok <==> (r in old(tables)[n] ==> old(tables[n][r].timestamp + tables[n][r].ttl <= clock))
      ensures ok ==> tables == old(tables)[n := old(tables)[n][r := LockInfo(v, clock, ttl, v)]]
      ensures !ok ==> tables == old(tables)
    {
      if r in tables[n] {
        var lock := tables[n][r];
        if clock - lock.timestamp < lock.ttl {
          return false;
        }
      }
      clock := Later();  // the expiry test and the new timestamp are two clock readings
      tables := tables[n := tables[n][r := LockInfo(v, clock, ttl, v)]];
      return true;
    }

    method UnlockSingleNode(n: nat, r: Resource, v: Value) returns (ok: bool)
      requires Valid() && n < config.nodes
      modifies this`tables
      ensures Valid()
      ensures ok <==> r in old(tables)[n] && old(tables)[n][r].value == v
      ensures tables == if ok then old(tables)[n := old(tables)[n] - {r}] else old(tables)
    {
      if r in tables[n] && tables[n][r].value == v {
        tables := tables[n := tables[n] - {r}];
        return true;
      }
      return false;
    }

    /** One attempt of a sweep: until `start + ttl` it keeps what the sweep has and adds its own success. */
    method TryNext(n: nat, r: Resource, v: Value, ttl: int, ghost start: int) returns (ok: bool)
      requires Valid() && n < config.nodes && start <= clock
      modifies this
      ensures Valid() && old(clock) <= clock
      ensures clock < start + ttl ==> Holders(old(tables), r, v, start + ttl) <= Holders(tables, r, v, start + ttl)
      ensures clock < start + ttl && ok ==> n in Holders(tables, r, v, start + ttl)
      ensures undisturbed ==>
                && clock == old(clock) && (ok <==> !Blocked(old(tables)[n], r, clock))
                && tables == old(tables)[n := Locked(old(tables)[n], r, v, ttl, clock, clock)]
    {
      Interfere(r, v);
      ghost var c, t := clock, tables;
      ok := LockSingleNode(n, r, v, ttl);
      if clock < start + ttl {
        RelyKeepsHolders(r, v, old(clock), old(tables), c, t, start + ttl);
        LockKeepsHolders(t, n, r, v, ttl, c, clock, start + ttl);
      }
    }

    /** One sweep of lock attempts. Every counted node still holds the entry unless it has run out. */
    method LockAll(r: Resource, v: Value, ttl: int) returns (start: int, lockedNodes: nat)
      requires Valid()
      modifies this
      ensures Valid() && old(clock) <= start <= clock
      ensures clock < start + ttl ==> lockedNodes <= |Holders(tables, r, v, start + ttl)|
      ensures undisturbed ==> clock == old(clock) && lockedNodes == Free(old(tables), r, clock, config.nodes)
      ensures undisturbed ==> Swept(old(tables), tables, r, v, ttl, clock, config.nodes)
    {
      start := clock;
      lockedNodes := 0;
      ghost var got: set<nat> := {};
      for n := 0 to config.nodes
        invariant Valid() && start <= clock && CountsBelow(got, n, lockedNodes)
        invariant clock < start + ttl ==> got <= Holders(tables, r, v, start + ttl)
        invariant undisturbed ==>
                    clock == start && SweptCounting(old(tables), tables, r, v, ttl, clock, n, lockedNodes)
      {
        if undisturbed {
          SweepOne(old(tables), tables, r, v, ttl, clock, n, lockedNodes);
        }
        var ok := TryNext(n, r, v, ttl, start);
        if ok {
          CountOneMore(got, n, lockedNodes);
          lockedNodes := lockedNodes + 1;
          got := got + {n};
        }
      }
      EndSweep(r, v, start + ttl, got);
    }

    /** Time passes after the last attempt; until `until` everything counted is still held. */
    method EndSweep(ghost r: Resource, ghost v: Value, ghost until: int, ghost got: set<nat>)
      requires Valid() && (clock < until ==> got <= Holders(tables, r, v, until))
      modifies this
      ensures Valid() && old(clock) <= clock && (clock < until ==> |got| <= |Holders(tables, r, v, until)|)
      ensures undisturbed ==> clock == old(clock) && tables == old(tables)
    {
      Interfere(r, v);
      if clock < until {
        RelyKeepsHolders(r, v, old(clock), old(tables), clock, tables, until);
        SubsetSize(got, Holders(tables, r, v, until));
      }
    }

    /** The unlock sweep, used to give up an attempt and to release. */
    method UnlockAll(r: Resource, v: Value)
      requires Valid()
      modifies this
      ensures Valid() && clock >= old(clock)
      ensures Absent(tables, r, v)
      ensures undisturbed ==> clock == old(clock) && forall n :: 0 <= n < |tables| ==>
                tables[n] == Unlocked(old(tables)[n], r, v)
    {
      for n := 0 to config.nodes
        invariant Valid() && clock >= old(clock)
        invariant forall m :: 0 <= m < n ==> !Holds(tables[m], r, v)
        invariant undisturbed ==> clock == old(clock)
        invariant undisturbed ==> forall m :: 0 <= m < |tables| ==>
                    tables[m] == if m < n then Unlocked(old(tables)[m], r, v) else old(tables)[m]
      {
        Interfere(r, v);
        var _ := UnlockSingleNode(n, r, v);
      }
    }

    /**
     A successful acquisition returns a positive validity, and at that moment a quorum of nodes
     holds the caller's entry until at least `drift` past the end of the validity window.
     A failed one that made any attempt leaves no entry behind. Undisturbed, it succeeds exactly
     when a quorum of nodes is free and the time to live exceeds the drift.
     */
    method AcquireRedlock(r: Resource, v: Value, ttl: int) returns (ok: bool, validity: int)
      requires Valid()
      modifies this
      ensures Valid() && clock >= old(clock)
      ensures ok ==> 0 < validity <= ttl - config.drift
      ensures ok ==> 2 * |Holders(tables, r, v, clock + validity + config.drift)| > config.nodes
      ensures !ok ==> validity == 0 && (config.retries > 0 ==> Absent(tables, r, v))
      ensures undisturbed && config.retries > 0 && Absent(old(tables), r, v) ==>
                && (ok <==> 2 * Free(old(tables), r, old(clock), config.nodes) > config.nodes && ttl > config.drift)
                && (ok ==> validity == ttl - config.drift)
    {
      for retry := 0 to config.retries
        invariant Valid() && clock >= old(clock)
        invariant retry > 0 ==> Absent(tables, r, v)
        invariant undisturbed && Absent(old(tables), r, v) ==>
                    clock == old(clock) && Absent(tables, r, v)
                    && Free(tables, r, clock, config.nodes) == Free(old(tables), r, clock, config.nodes)
        invariant undisturbed && retry > 0 && Absent(old(tables), r, v) ==>
                    !(2 * Free(old(tables), r, clock, config.nodes) > config.nodes && ttl > config.drift)
      {
        ghost var before := tables;
        var start, lockedNodes := LockAll(r, v, ttl);
        ghost var locked := tables;
        var elapsed := clock - start;
        validity := ttl - elapsed - config.drift;
        if lockedNodes >= config.Quorum() && validity > 0 {
          return true, validity;
        }
        UnlockAll(r, v);
        if undisturbed && Absent(before, r, v) {
          RoundTripKeepsFree(before, locked, tables, r, v, ttl, clock, config.nodes);
        }
        Interfere(r, v);
      }
      return false, 0;
    }

    method ReleaseRedlock(r: Resource, v: Value)
      requires Valid()
      modifies this
      ensures Valid() && clock >= old(clock)
      ensures Absent(tables, r, v)
      ensures undisturbed ==> forall n :: 0 <= n < |tables| ==> tables[n] == Unlocked(old(tables)[n], r, v)
    {
      UnlockAll(r, v);
    }
  }

  // ---------------------------------------------------------------- all interleavings

  /** Where a call is. `next` is the node its loop will visit next; `got` are the nodes it has locked. */
  datatype Phase =
    | Locking(attempt: nat, start: int, next: nat, got: set<nat>)
    | Undoing(attempt: nat, next: nat)
    | Holding(start: int, deadline: int, got: set<nat>)
    | Releasing(next: nat)
    | Failed
    | Released

  datatype Call = Call(resource: Resource, ttl: int, phase: Phase)

  /** Calls are keyed by their lock value: clients use distinct values. */
  datatype State = State(clock: int, tables: seq<Table>, calls: map<Value, Call>)

  datatype Step =
    | Tick(to: int)
    | Begin(v: Value, r: Resource, ttl: int)
    | LockNode(v: Value, check: int)
    | Decide(v: Value)
    | UndoNode(v: Value)
    | Retry(v: Value)
    | BeginRelease(v: Value)
    | ReleaseNode(v: Value)
    | EndRelease(v: Value)

  predicate Init(c: Config, s: State) {
    s.calls == map[] && |s.tables| == c.nodes && forall n :: 0 <= n < |s.tables| ==> s.tables[n] == map[]
  }

  function StartPhase(c: Config, attempt: nat, clock: int): Phase {
    if attempt < c.retries then Locking(attempt, clock, 0, {}) else Failed
  }

  predicate Enabled(c: Config, s: State, e: Step) {
    match e
    case Tick(to) => s.clock <= to
    case Begin(v, _, _) => v !in s.calls
    case LockNode(v, check) =>
      v in s.calls && s.calls[v].phase.Locking? && s.calls[v].phase.next < |s.tables| && check <= s.clock
    case Decide(v) => v in s.calls && s.calls[v].phase.Locking? && s.calls[v].phase.next >= |s.tables|
    case UndoNode(v) => v in s.calls && s.calls[v].phase.Undoing? && s.calls[v].phase.next < |s.tables|
    case Retry(v) => v in s.calls && s.calls[v].phase.Undoing? && s.calls[v].phase.next >= |s.tables|
    case BeginRelease(v) => v in s.calls && s.calls[v].phase.Holding?
    case ReleaseNode(v) => v in s.calls && s.calls[v].phase.Releasing? && s.calls[v].phase.next < |s.tables|
    case EndRelease(v) => v in s.calls && s.calls[v].phase.Releasing? && s.calls[v].phase.next >= |s.tables|
  }

  function WithPhase(s: State, v: Value, p: Phase): State
    requires v in s.calls
  {
    s.(calls := s.calls[v := s.calls[v].(phase := p)])
  }

  /** One critical section, clock reading or decision of one call, or the passing of time. */
  function Apply(c: Config, s: State, e: Step): State
    requires Enabled(c, s, e)
  {
    match e
    case Tick(to) => s.(clock := to)
    case Begin(v, r, ttl) => s.(calls := s.calls[v := Call(r, ttl, StartPhase(c, 0, s.clock))])
    case LockNode(v, check) =>
      var call := s.calls[v];
      var n := call.phase.next;
      var ok := !Blocked(s.tables[n], call.resource, check);
      var table := Locked(s.tables[n], call.resource, v, call.ttl, check, s.clock);
      WithPhase(s.(tables := s.tables[n := table]), v,
                call.phase.(next := n + 1, got := if ok then call.phase.got + {n} else call.phase.got))
    case Decide(v) =>
      var call := s.calls[v];
      var validity := call.ttl - (s.clock - call.phase.start) - c.drift;
      WithPhase(s, v,
                if |call.phase.got| >= c.Quorum() && validity > 0
                then Holding(call.phase.start, s.clock + validity, call.phase.got)
                else Undoing(call.phase.attempt, 0))
    case UndoNode(v) =>
      var call := s.calls[v];
      var n := call.phase.next;
      WithPhase(s.(tables := s.tables[n := Unlocked(s.tables[n], call.resource, v)]), v, call.phase.(next := n + 1))
    case Retry(v) => WithPhase(s, v, StartPhase(c, s.calls[v].phase.attempt + 1, s.clock))
    case BeginRelease(v) => WithPhase(s, v, Releasing(0))
    case ReleaseNode(v) =>
      var call := s.calls[v];
      var n := call.phase.next;
      WithPhase(s.(tables := s.tables[n := Unlocked(s.tables[n], call.resource, v)]), v, Releasing(n + 1))
    case EndRelease(v) => WithPhase(s, v, Released)
  }

  /** A call that has tried every node gets its window exactly when it locked most of them and time is left. */
  lemma WindowIffMajority(c: Config, s: State, v: Value)
    requires Enabled(c, s, Decide(v))
    ensures var call, call' := s.calls[v], Apply(c, s, Decide(v)).calls[v];
            var end := call.phase.start + call.ttl - c.drift;
            && (call'.phase.Holding? <==> 2 * |call.phase.got| > c.nodes && s.clock < end)
            && (call'.phase.Holding? ==> call'.phase.deadline == end)
  {
    QuorumIsLeastMajority(c, |s.calls[v].phase.got|);
  }

  /** The call that takes a step; time belongs to nobody. */
  predicate By(e: Step, v: Value) {
    !e.Tick? && e.v == v
  }

  ghost predicate Next(c: Config, s: State, s': State) {
    exists e :: Enabled(c, s, e) && s' == Apply(c, s, e)
  }

  ghost predicate IsRun(c: Config, run: seq<State>) {
    && |run| > 0
    && Init(c, run[0])
    && forall i :: 0 < i < |run| ==> Next(c, run[i - 1], run[i])
  }

  /** A step of anybody but `v` is interference of the kind `Cluster` tolerates. */
  lemma OthersRespectRely(c: Config, s: State, e: Step, r: Resource, v: Value)
    requires Enabled(c, s, e) && !By(e, v)
    ensures var s' := Apply(c, s, e);
            && Rely(r, v, s.clock, s.tables, s'.clock, s'.tables)
            && (v in s.calls ==> v in s'.calls && s'.calls[v] == s.calls[v])
  {
  }

  // ---------------------------------------------------------------- invariant

  /** Until `start + ttl`, node `n` carries `v`'s entry of this attempt. */
  ghost predicate Guarded(s: State, v: Value, n: nat, start: int)
    requires v in s.calls && n < |s.tables|
  {
    var call := s.calls[v];
    s.clock < start + call.ttl ==>
      && Holds(s.tables[n], call.resource, v)
      && s.tables[n][call.resource].timestamp >= start
      && s.tables[n][call.resource].ttl == call.ttl
  }

  ghost predicate GuardedAll(s: State, v: Value, got: set<nat>, start: int)
    requires v in s.calls
  {
    forall n :: n in got ==> n < |s.tables| && Guarded(s, v, n, start)
  }

  ghost predicate GoneBelow(s: State, v: Value, next: nat)
    requires v in s.calls
  {
    forall n :: 0 <= n < next && n < |s.tables| ==> !Holds(s.tables[n], s.calls[v].resource, v)
  }

  ghost predicate CallInv(c: Config, s: State, v: Value)
    requires v in s.calls
  {
    var call := s.calls[v];
    match call.phase
    case Locking(_, start, next, got) =>
      start <= s.clock && (forall n :: n in got ==> n < next) && GuardedAll(s, v, got, start)
    case Undoing(_, next) => GoneBelow(s, v, next)
    case Holding(start, deadline, got) =>
      && deadline == start + call.ttl - c.drift
      && |got| >= c.Quorum()
      && GuardedAll(s, v, got, start)
    case Releasing(next) => GoneBelow(s, v, next)
    case Failed => c.retries > 0 ==> GoneBelow(s, v, |s.tables|)
    case Released => GoneBelow(s, v, |s.tables|)
  }

  ghost predicate Inv(c: Config, s: State) {
    && |s.tables| == c.nodes
    && forall v :: v in s.calls ==> CallInv(c, s, v)
  }

  lemma OwnStepKeepsCall(c: Config, s: State, e: Step, v: Value)
    requires Inv(c, s) && Enabled(c, s, e) && By(e, v)
    ensures v in Apply(c, s, e).calls && CallInv(c, Apply(c, s, e), v)
  {
  }

  lemma OtherStepKeepsCall(c: Config, s: State, e: Step, v: Value)
    requires Inv(c, s) && Enabled(c, s, e) && !By(e, v) && v in s.calls
    ensures v in Apply(c, s, e).calls && CallInv(c, Apply(c, s, e), v)
  {
    OthersRespectRely(c, s, e, s.calls[v].resource, v);
  }

  lemma StepKeepsInv(c: Config, s: State, e: Step)
    requires Inv(c, s) && Enabled(c, s, e)
    ensures Inv(c, Apply(c, s, e))
  {
    var s' := Apply(c, s, e);
    forall v | v in s'.calls
      ensures CallInv(c, s', v)
    {
      if By(e, v) {
        OwnStepKeepsCall(c, s, e, v);
      } else {
        OtherStepKeepsCall(c, s, e, v);
      }
    }
  }

  lemma {:induction false} RunKeepsInv(c: Config, run: seq<State>, i: nat)
    requires IsRun(c, run) && i < |run|
    ensures Inv(c, run[i])
  {
    if i > 0 {
      RunKeepsInv(c, run, i - 1);
      var s := run[i - 1];
      assert Next(c, s, run[i]);
      var e :| Enabled(c, s, e) && run[i] == Apply(c, s, e);
      StepKeepsInv(c, s, e);
    }
  }

  // ---------------------------------------------------------------- main results

  /** A call is inside the validity window it was given, and has not begun to release. */
  predicate InWindow(s: State, v: Value) {
    v in s.calls && s.calls[v].phase.Holding? && s.clock < s.calls[v].phase.deadline
  }

  /** Throughout its window a call has a quorum of live entries, lasting `drift` past the deadline. */
  lemma WindowHasQuorum(c: Config, run: seq<State>, i: nat, v: Value)
    requires IsRun(c, run) && i < |run| && InWindow(run[i], v)
    ensures var s := run[i];
            2 * |Holders(s.tables, s.calls[v].resource, v, s.calls[v].phase.deadline + c.drift)| > c.nodes
  {
    RunKeepsInv(c, run, i);
    var s := run[i];
    var holders := Holders(s.tables, s.calls[v].resource, v, s.calls[v].phase.deadline + c.drift);
    assert CallInv(c, s, v) && s.calls[v].phase.got <= holders;
    SubsetSize(s.calls[v].phase.got, holders);
  }

  /** Mutual exclusion, in every state of every run: two windows for one resource belong to one call. */
  lemma MutualExclusion(c: Config, run: seq<State>, i: nat, v: Value, w: Value)
    requires IsRun(c, run) && i < |run|
    requires InWindow(run[i], v) && InWindow(run[i], w)
    requires run[i].calls[v].resource == run[i].calls[w].resource
    ensures v == w
  {
    var s := run[i];
    var r := s.calls[v].resource;
    var a := Holders(s.tables, r, v, s.calls[v].phase.deadline + c.drift);
    var b := Holders(s.tables, r, w, s.calls[w].phase.deadline + c.drift);
    RunKeepsInv(c, run, i);
    WindowHasQuorum(c, run, i, v);
    WindowHasQuorum(c, run, i, w);
    Pigeonhole(a, b, c.nodes);
    var n :| n in a * b;
    assert s.tables[n][r].value == v == w;
  }

  /** The windows do get handed out: a call alone in the cluster reaches its own in one sweep. */
  lemma AloneGetsWindow(c: Config, v: Value, r: Resource, ttl: int, clock: int) returns (run: seq<State>)
    requires c.nodes > 0 && c.retries > 0 && ttl > c.drift
    ensures IsRun(c, run)
    ensures var s := run[|run| - 1];
            InWindow(s, v) && s.calls[v].resource == r && s.calls[v].phase.deadline == clock + ttl - c.drift
  {
    var sweep := AloneSweeps(c, v, r, ttl, clock, c.nodes);
    var s := sweep[|sweep| - 1];
    WindowIffMajority(c, s, v);
    RunExtends(c, sweep, Decide(v));
    run := sweep + [Apply(c, s, Decide(v))];
  }

  lemma RunExtends(c: Config, run: seq<State>, e: Step)
    requires IsRun(c, run) && Enabled(c, run[|run| - 1], e)
    ensures IsRun(c, run + [Apply(c, run[|run| - 1], e)])
  {
    var longer := run + [Apply(c, run[|run| - 1], e)];
    forall i | 0 < i < |longer|
      ensures Next(c, longer[i - 1], longer[i])
    {
      assert i < |run| ==> Next(c, run[i - 1], run[i]);
    }
  }

  /** A first sweep that has locked the first `n` nodes and has the rest before it. */
  ghost predicate SweptTo(c: Config, s: State, v: Value, r: Resource, ttl: int, clock: int, n: nat) {
    && s.clock == clock && |s.tables| == c.nodes && v in s.calls
    && s.calls[v] == Call(r, ttl, Locking(0, clock, n, Below(n)))
    && forall m :: n <= m < c.nodes ==> s.tables[m] == map[]
  }

  lemma AloneLocks(c: Config, s: State, v: Value, r: Resource, ttl: int, clock: int, n: nat)
    requires SweptTo(c, s, v, r, ttl, clock, n) && n < c.nodes
    ensures Enabled(c, s, LockNode(v, clock))
    ensures SweptTo(c, Apply(c, s, LockNode(v, clock)), v, r, ttl, clock, n + 1)
  {
    assert Below(n + 1) == Below(n) + {n};
  }

  lemma {:induction false} AloneSweeps(c: Config, v: Value, r: Resource, ttl: int, clock: int, n: nat)
    returns (run: seq<State>)
    requires n <= c.nodes && c.retries > 0
    ensures IsRun(c, run) && SweptTo(c, run[|run| - 1], v, r, ttl, clock, n)
  {
    if n == 0 {
      var s := State(clock, seq(c.nodes, _ => map[]), map[]);
      RunExtends(c, [s], Begin(v, r, ttl));
      run := [s] + [Apply(c, s, Begin(v, r, ttl))];
    } else {
      var shorter := AloneSweeps(c, v, r, ttl, clock, n - 1);
      var s := shorter[|shorter| - 1];
      AloneLocks(c, s, v, r, ttl, clock, n - 1);
      RunExtends(c, shorter, LockNode(v, clock));
      run := shorter + [Apply(c, s, LockNode(v, clock))];
    }
  }

  predicate Finished(c: Config, s: State, v: Value) {
    v in s.calls && (s.calls[v].phase.Released? || (s.calls[v].phase.Failed? && c.retries > 0))
  }

  lemma {:induction false} FinishedStays(c: Config, run: seq<State>, i: nat, j: nat, v: Value)
    requires IsRun(c, run) && i <= j < |run| && Finished(c, run[i], v)
    ensures v in run[j].calls && run[j].calls[v] == run[i].calls[v]
    decreases j
  {
    if i < j {
      FinishedStays(c, run, i, j - 1, v);
      assert Next(c, run[j - 1], run[j]);
    }
  }

  /**
   A call that has finished releasing, or has given up after trying, holds no entry on any node, then
   or at any later moment.
   */
  lemma FinishedCallLeavesNothing(c: Config, run: seq<State>, i: nat, j: nat, v: Value)
    requires IsRun(c, run) && i <= j < |run| && Finished(c, run[i], v)
    ensures Absent(run[j].tables, run[i].calls[v].resource, v)
  {
    FinishedStays(c, run, i, j, v);
    RunKeepsInv(c, run, j);
  }

  /** All that happens between two moments of a run while a call takes no step is interference to it. */
  lemma {:induction false} OthersRespectRelyThroughout(c: Config, run: seq<State>, i: nat, j: nat, r: Resource,
                                                       v: Value)
    requires IsRun(c, run) && i <= j < |run|
    requires forall k :: i < k <= j ==> StepOfOthers(c, run[k - 1], run[k], v)
    ensures Rely(r, v, run[i].clock, run[i].tables, run[j].clock, run[j].tables)
    decreases j
  {
    if i == j {
      RelyIsReflexive(r, v, run[i].clock, run[i].tables);
    } else {
      OthersRespectRelyThroughout(c, run, i, j - 1, r, v);
      var s, s' := run[j - 1], run[j];
      assert StepOfOthers(c, s, s', v);
      var e :| Enabled(c, s, e) && !By(e, v) && s' == Apply(c, s, e);
      OthersRespectRely(c, s, e, r, v);
      RelyIsTransitive(r, v, run[i].clock, run[i].tables, s.clock, s.tables, s'.clock, s'.tables);
    }
  }

  ghost predicate StepOfOthers(c: Config, s: State, s': State, v: Value) {
    exists e :: Enabled(c, s, e) && !By(e, v) && s' == Apply(c, s, e)
  }
}
