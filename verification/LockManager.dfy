/**
 The no-wait shared/exclusive lock table, and what it guarantees to transactions that lock before
 every access and release everything at once at the end: a conflict-serializable history.
 */
module LockManager {

  type TxnId = nat
  type Resource = string

  datatype LockType = SharedLock | ExclusiveLock
  datatype Lock = Lock(txn: TxnId, resource: Resource, kind: LockType)

  type Table = map<Resource, seq<Lock>>

  function LocksOn(t: Table, r: Resource): seq<Lock> {
    if r in t then t[r] else []
  }

  predicate Clash(l: Lock, txn: TxnId, kind: LockType) {
    (l.kind.ExclusiveLock? || kind.ExclusiveLock?) && l.txn != txn
  }

  predicate Conflict(t: Table, txn: TxnId, r: Resource, kind: LockType) {
    exists l :: l in LocksOn(t, r) && Clash(l, txn, kind)
  }

  function Granted(t: Table, txn: TxnId, r: Resource, kind: LockType): Table {
    t[r := LocksOn(t, r) + [Lock(txn, r, kind)]]
  }

  function Without(ls: seq<Lock>, txn: TxnId): (rest: seq<Lock>)
    ensures forall l :: l in rest <==> l in ls && l.txn != txn
  {
    if ls == [] then []
    else
      var rest := Without(ls[..|ls| - 1], txn);
      assert forall l :: l in ls <==> l in ls[..|ls| - 1] || l == ls[|ls| - 1];
      if ls[|ls| - 1].txn != txn then rest + [ls[|ls| - 1]] else rest
  }

  lemma {:induction false} WithoutCounts(ls: seq<Lock>, txn: TxnId, l: Lock)
    ensures multiset(Without(ls, txn))[l] == if l.txn == txn then 0 else multiset(ls)[l]
  {
    if ls != [] {
      WithoutCounts(ls[..|ls| - 1], txn, l);
      assert ls == ls[..|ls| - 1] + [ls[|ls| - 1]];
    }
  }

  function Freed(t: Table, txn: TxnId): Table {
    map r | r in t :: Without(t[r], txn)
  }

  /** No two transactions hold clashing locks on one resource. */
  ghost predicate Compatible(t: Table) {
    forall r :: Peaceful(LocksOn(t, r))
  }

  ghost predicate Peaceful(ls: seq<Lock>) {
    forall a, b :: a in ls && b in ls ==> !Clash(a, b.txn, b.kind)
  }

  /** Does the transaction hold a lock that covers an access of this kind? */
  predicate Covers(t: Table, txn: TxnId, r: Resource, kind: LockType) {
    exists l :: l in LocksOn(t, r) && l.txn == txn && (kind.SharedLock? || l.kind.ExclusiveLock?)
  }

  class Manager {
    var locks: Table

    constructor ()
      ensures locks == map[]
    {
      locks := map[];
    }

    /** Fails at once on any clash; otherwise appends, so a holder may lock again or upgrade alone. */
    method AcquireLock(txn: TxnId, r: Resource, kind: LockType) returns (ok: bool)
      modifies this
      ensures ok <==> !Conflict(old(locks), txn, r, kind)
      ensures locks == if ok then Granted(old(locks), txn, r, kind) else old(locks)
      ensures ok <==> (r in old(locks) ==> forall l :: l in old(locks)[r] ==>
                         l.txn == txn || (l.kind.SharedLock? && kind.SharedLock?))
      ensures ok ==> locks == old(locks)[r := (if r in old(locks) then old(locks)[r] else []) + [Lock(txn, r, kind)]]
      ensures ok ==> Covers(locks, txn, r, kind)
      ensures old(Compatible(locks)) ==> Compatible(locks)
    {
      var existing := LocksOn(locks, r);
      for i := 0 to |existing|
        invariant locks == old(locks)
        invariant forall j :: 0 <= j < i ==> !Clash(existing[j], txn, kind)
      {
        var lock := existing[i];
        if lock.kind == ExclusiveLock || kind == ExclusiveLock {
          if lock.txn != txn {
            assert lock in LocksOn(locks, r) && Clash(lock, txn, kind);
            return false;
          }
        }
      }
      assert forall l :: l in existing ==> !Clash(l, txn, kind);
      locks := locks[r := existing + [Lock(txn, r, kind)]];
      assert Lock(txn, r, kind) in LocksOn(locks, r);
      if old(Compatible(locks)) {
        GrantKeepsCompatible(old(locks), txn, r, kind);
      }
      return true;
    }

    method ReleaseLocks(txn: TxnId)
      modifies this
      ensures locks == Freed(old(locks), txn)
      ensures locks.Keys == old(locks).Keys
      ensures forall r, l :: r in locks ==>
                multiset(locks[r])[l] == if l.txn == txn then 0 else multiset(old(locks)[r])[l]
      ensures forall r, kind :: !Covers(locks, txn, r, kind)
      ensures old(Compatible(locks)) ==> Compatible(locks)
    {
      var todo := locks.Keys;
      while todo != {}
        invariant todo <= locks.Keys == old(locks).Keys
        invariant forall r :: r in locks ==>
                  locks[r] == if r in todo then old(locks)[r] else Without(old(locks)[r], txn)
      {
        var r :| r in todo;
        var newLocks := Keep(locks[r], txn);
        locks := locks[r := newLocks];
        todo := todo - {r};
      }
      assert locks == Freed(old(locks), txn);
      FreeDropsCover(old(locks), txn);
      forall r, l | r in locks
        ensures multiset(locks[r])[l] == if l.txn == txn then 0 else multiset(old(locks)[r])[l]
      {
        WithoutCounts(old(locks)[r], txn, l);
      }
      if old(Compatible(locks)) {
        FreeKeepsCompatible(old(locks), txn);
      }
    }

    static method Keep(ls: seq<Lock>, txn: TxnId) returns (newLocks: seq<Lock>)
      ensures newLocks == Without(ls, txn)
    {
      newLocks := [];
      for i := 0 to |ls|
        invariant newLocks == Without(ls[..i], txn)
      {
        assert ls[..i + 1][..i] == ls[..i];
        if ls[i].txn != txn {
          newLocks := newLocks + [ls[i]];
        }
      }
      assert ls[..|ls|] == ls;
    }
  }

  lemma GrantKeepsCompatible(t: Table, txn: TxnId, r: Resource, kind: LockType)
    requires Compatible(t) && !Conflict(t, txn, r, kind)
    ensures Compatible(Granted(t, txn, r, kind))
  {
    var t', ls := Granted(t, txn, r, kind), LocksOn(t, r);
    forall x
      ensures Peaceful(LocksOn(t', x))
    {
      assert Peaceful(LocksOn(t, x));
      if x == r {
        assert forall l :: l in LocksOn(t', r) ==> l in ls || l == Lock(txn, r, kind);
        assert forall l :: l in ls ==> !Clash(l, txn, kind);
      }
    }
  }

  lemma FreeKeepsCompatible(t: Table, txn: TxnId)
    requires Compatible(t)
    ensures Compatible(Freed(t, txn))
  {
    forall x
      ensures Peaceful(LocksOn(Freed(t, txn), x))
    {
      assert Peaceful(LocksOn(t, x));
    }
  }

  lemma FreeDropsCover(t: Table, txn: TxnId)
    ensures forall r, kind :: !Covers(Freed(t, txn), txn, r, kind)
  {
  }

  // ---------------------------------------------------------------- histories

  datatype Event =
    | Acquire(txn: TxnId, r: Resource, kind: LockType)
    | Read(txn: TxnId, r: Resource, value: int)
    | Write(txn: TxnId, r: Resource, value: int)
    | Release(txn: TxnId)

  predicate IsAccess(e: Event) { e.Read? || e.Write? }

  function Needs(e: Event): LockType {
    if e.Write? then ExclusiveLock else SharedLock
  }

  /** The lock table after the first `i` events. */
  function TableAt(h: seq<Event>, i: nat): Table
    requires i <= |h|
  {
    if i == 0 then map[]
    else
      var t := TableAt(h, i - 1);
      match h[i - 1]
      case Acquire(txn, r, kind) => Granted(t, txn, r, kind)
      case Release(txn) => Freed(t, txn)
      case _ => t
  }

  /**
   A history the lock manager and its clients can produce: locks recorded were granted, every
   access is covered by a lock held at that moment, and a transaction is over once it releases.
   */
  ghost predicate StrictTwoPhase(h: seq<Event>) {
    forall i :: 0 <= i < |h| ==> Obeys(h, i)
  }

  ghost predicate Obeys(h: seq<Event>, i: nat)
    requires i < |h|
  {
    var e := h[i];
    && (e.Acquire? ==> !Conflict(TableAt(h, i), e.txn, e.r, e.kind))
    && (IsAccess(e) ==> Covers(TableAt(h, i), e.txn, e.r, Needs(e)))
    && Release(e.txn) !in h[..i]
  }

  /** Accesses of different transactions whose order matters. */
  predicate Conflicting(a: Event, b: Event) {
    IsAccess(a) && IsAccess(b) && a.txn != b.txn && a.r == b.r && (a.Write? || b.Write?)
  }

  lemma {:induction false} TablesStayCompatible(h: seq<Event>, i: nat)
    requires StrictTwoPhase(h) && i <= |h|
    ensures Compatible(TableAt(h, i))
  {
    if i > 0 {
      TablesStayCompatible(h, i - 1);
      assert Obeys(h, i - 1);
      var t := TableAt(h, i - 1);
      match h[i - 1] {
        case Acquire(txn, r, kind) => GrantKeepsCompatible(t, txn, r, kind);
        case Release(txn) => FreeKeepsCompatible(t, txn);
        case _ =>
      }
    }
  }

  /** A lock is held until its transaction releases. */
  lemma {:induction false} CoverLasts(h: seq<Event>, i: nat, j: nat, txn: TxnId, r: Resource, kind: LockType)
    requires i <= j <= |h| && Covers(TableAt(h, i), txn, r, kind)
    requires forall k :: i <= k < j ==> h[k] != Release(txn)
    ensures Covers(TableAt(h, j), txn, r, kind)
    decreases j
  {
    if i < j {
      CoverLasts(h, i, j - 1, txn, r, kind);
      var t := TableAt(h, j - 1);
      var l :| l in LocksOn(t, r) && l.txn == txn && (kind.SharedLock? || l.kind.ExclusiveLock?);
      assert l in LocksOn(TableAt(h, j), r);
    }
  }

  lemma CoversClash(t: Table, a: TxnId, b: TxnId, r: Resource, x: LockType, y: LockType)
    requires Compatible(t) && Covers(t, a, r, x) && Covers(t, b, r, y) && a != b
    ensures x.SharedLock? && y.SharedLock?
  {
    var ls := LocksOn(t, r);
    assert Peaceful(ls);
    var p :| p in ls && p.txn == a && (x.SharedLock? || p.kind.ExclusiveLock?);
    var q :| q in ls && q.txn == b && (y.SharedLock? || q.kind.ExclusiveLock?);
    assert !Clash(p, q.txn, q.kind);
  }

  /** While the first transaction still holds its lock, the second access cannot conflict. */
  lemma HeldMeansNoConflict(h: seq<Event>, i: nat, j: nat)
    requires i < j < |h| && IsAccess(h[i]) && IsAccess(h[j]) && Compatible(TableAt(h, j))
    requires Covers(TableAt(h, i), h[i].txn, h[i].r, Needs(h[i]))
    requires Covers(TableAt(h, j), h[j].txn, h[j].r, Needs(h[j]))
    requires forall k :: i <= k < j ==> h[k] != Release(h[i].txn)
    ensures !Conflicting(h[i], h[j])
  {
    CoverLasts(h, i, j, h[i].txn, h[i].r, Needs(h[i]));
    if h[i].txn != h[j].txn && h[i].r == h[j].r {
      CoversClash(TableAt(h, j), h[i].txn, h[j].txn, h[i].r, Needs(h[i]), Needs(h[j]));
    }
  }

  /** Between two conflicting accesses the first transaction released everything. */
  lemma ReleaseBetween(h: seq<Event>, i: nat, j: nat) returns (k: nat)
    requires StrictTwoPhase(h) && i < j < |h| && Conflicting(h[i], h[j])
    ensures i < k < j && h[k] == Release(h[i].txn)
  {
    TablesStayCompatible(h, j);
    assert Obeys(h, i) && Obeys(h, j);
    if forall x :: i <= x < j ==> h[x] != Release(h[i].txn) {
      HeldMeansNoConflict(h, i, j);
    }
    k :| i <= k < j && h[k] == Release(h[i].txn);
  }

  // ---------------------------------------------------------------- the serial order

  /** A transaction's place in the serial order: when it released, or after everybody who has. */
  ghost function Rank(h: seq<Event>, txn: TxnId): (k: nat)
    ensures k < |h| ==> h[k] == Release(txn)
    ensures k >= |h| ==> k == |h| + txn && Release(txn) !in h
  {
    if Release(txn) in h then var k :| 0 <= k < |h| && h[k] == Release(txn); k else |h| + txn
  }

  lemma RankIsInjective(h: seq<Event>, a: TxnId, b: TxnId)
    requires Rank(h, a) == Rank(h, b)
    ensures a == b
  {
  }

  /** Conflicts run forward in the serial order. */
  lemma ConflictsFollowRank(h: seq<Event>, i: nat, j: nat)
    requires StrictTwoPhase(h) && i < j < |h| && Conflicting(h[i], h[j])
    ensures Rank(h, h[i].txn) < Rank(h, h[j].txn)
  {
    var k := ReleaseBetween(h, i, j);
    var a, b := Rank(h, h[i].txn), Rank(h, h[j].txn);
    assert Release(h[i].txn) in h;
    assert Obeys(h, a) && Obeys(h, k) && Obeys(h, j);
    assert a == k && j <= b;
  }

  /** Transaction `a` has an access that conflicts with a later one of `b`. */
  ghost predicate Edge(h: seq<Event>, a: TxnId, b: TxnId) {
    exists i, j :: 0 <= i < j < |h| && h[i].txn == a && h[j].txn == b && Conflicting(h[i], h[j])
  }

  ghost predicate IsPath(h: seq<Event>, p: seq<TxnId>) {
    |p| > 1 && forall x :: 0 < x < |p| ==> Edge(h, p[x - 1], p[x])
  }

  lemma {:induction false} PathsClimb(h: seq<Event>, p: seq<TxnId>)
    requires StrictTwoPhase(h) && IsPath(h, p)
    ensures Rank(h, p[0]) < Rank(h, p[|p| - 1])
    decreases |p|
  {
    var x := |p| - 1;
    assert Edge(h, p[x - 1], p[x]);
    var i, j :| 0 <= i < j < |h| && h[i].txn == p[x - 1] && h[j].txn == p[x] && Conflicting(h[i], h[j]);
    ConflictsFollowRank(h, i, j);
    if |p| > 2 {
      PathsClimb(h, p[..x]);
    }
  }

  /** The conflict graph of every strict two-phase history is acyclic. */
  lemma ConflictGraphIsAcyclic(h: seq<Event>, p: seq<TxnId>)
    requires StrictTwoPhase(h) && IsPath(h, p)
    ensures p[0] != p[|p| - 1]
  {
    PathsClimb(h, p);
  }

  // ---------------------------------------------------------------- equivalence to a serial run

  type Db = map<Resource, int>

  function Value(db: Db, r: Resource): int {
    if r in db then db[r] else 0
  }

  function Do(db: Db, e: Event): Db {
    if e.Write? then db[e.r := e.value] else db
  }

  /** The database after the accesses of a history, from left to right. */
  function Final(db: Db, ops: seq<Event>): Db
    decreases |ops|
  {
    if ops == [] then db else Final(Do(db, ops[0]), ops[1..])
  }

  /** Every read returned the value last written. */
  predicate Legal(db: Db, ops: seq<Event>)
    decreases |ops|
  {
    ops == [] || ((ops[0].Read? ==> ops[0].value == Value(db, ops[0].r)) && Legal(Do(db, ops[0]), ops[1..]))
  }

  /** `x` moved behind every access of lower rank at the front of `ops`. */
  ghost function Insert(h: seq<Event>, x: Event, ops: seq<Event>): seq<Event> {
    if ops == [] || Rank(h, x.txn) <= Rank(h, ops[0].txn) then [x] + ops
    else [ops[0]] + Insert(h, x, ops[1..])
  }

  /** The accesses of `ops`, one transaction after another in rank order. */
  ghost function Serial(h: seq<Event>, ops: seq<Event>): seq<Event> {
    if ops == [] then []
    else if IsAccess(ops[0]) then Insert(h, ops[0], Serial(h, ops[1..]))
    else Serial(h, ops[1..])
  }

  function Accesses(ops: seq<Event>): seq<Event> {
    if ops == [] then []
    else (if IsAccess(ops[0]) then [ops[0]] else []) + Accesses(ops[1..])
  }

  function Of(ops: seq<Event>, txn: TxnId): seq<Event> {
    if ops == [] then []
    else (if ops[0].txn == txn then [ops[0]] else []) + Of(ops[1..], txn)
  }

  ghost predicate Ranked(h: seq<Event>, ops: seq<Event>) {
    forall i, j :: 0 <= i < j < |ops| ==> Rank(h, ops[i].txn) <= Rank(h, ops[j].txn)
  }

  /** `x` may stand before each of `ops`: none of lower rank conflicts with it. */
  ghost predicate MayLead(h: seq<Event>, x: Event, ops: seq<Event>) {
    && IsAccess(x)
    && forall i :: 0 <= i < |ops| ==>
         IsAccess(ops[i]) && (Rank(h, ops[i].txn) < Rank(h, x.txn) ==> !Conflicting(x, ops[i]))
  }

  /** The three views of a list, one element at a time. */
  lemma Cons(db: Db, x: Event, ops: seq<Event>, txn: TxnId)
    ensures Final(db, [x] + ops) == Final(Do(db, x), ops)
    ensures Legal(db, [x] + ops) <==> (x.Read? ==> x.value == Value(db, x.r)) && Legal(Do(db, x), ops)
    ensures Of([x] + ops, txn) == (if x.txn == txn then [x] else []) + Of(ops, txn)
  {
    assert ([x] + ops)[1..] == ops;
  }

  /** Moving an access behind those of lower rank changes no read and no final value. */
  lemma {:induction false} InsertPreservesMeaning(h: seq<Event>, db: Db, x: Event, ops: seq<Event>)
    requires MayLead(h, x, ops)
    ensures Final(db, Insert(h, x, ops)) == Final(db, [x] + ops)
    ensures Legal(db, Insert(h, x, ops)) <==> Legal(db, [x] + ops)
    decreases |ops|
  {
    if ops != [] && Rank(h, x.txn) > Rank(h, ops[0].txn) {
      var y, rest := ops[0], ops[1..];
      assert ops == [y] + rest;
      InsertPreservesMeaning(h, Do(db, y), x, rest);
      SwapPreservesMeaning(db, x, y, rest, Insert(h, x, rest));
    }
  }

  /** Two neighbours that do not conflict can change places in front of what comes to the same. */
  lemma SwapPreservesMeaning(db: Db, x: Event, y: Event, rest: seq<Event>, rest': seq<Event>)
    requires IsAccess(x) && IsAccess(y) && x.txn != y.txn && !Conflicting(x, y)
    requires Final(Do(db, y), rest') == Final(Do(db, y), [x] + rest)
    requires Legal(Do(db, y), rest') <==> Legal(Do(db, y), [x] + rest)
    ensures Final(db, [y] + rest') == Final(db, [x] + ([y] + rest))
    ensures Legal(db, [y] + rest') <==> Legal(db, [x] + ([y] + rest))
  {
    assert Do(Do(db, x), y) == Do(Do(db, y), x);
    Cons(db, x, [y] + rest, 0);
    Cons(Do(db, x), y, rest, 0);
    Cons(db, y, rest', 0);
    Cons(Do(db, y), x, rest, 0);
  }

  lemma {:induction false} InsertKeepsAll(h: seq<Event>, x: Event, ops: seq<Event>)
    ensures multiset(Insert(h, x, ops)) == multiset{x} + multiset(ops)
    decreases |ops|
  {
    if ops != [] && Rank(h, x.txn) > Rank(h, ops[0].txn) {
      InsertKeepsAll(h, x, ops[1..]);
      assert ops == [ops[0]] + ops[1..];
    }
  }

  lemma {:induction false} InsertKeepsRanked(h: seq<Event>, x: Event, ops: seq<Event>)
    requires Ranked(h, ops)
    ensures Ranked(h, Insert(h, x, ops))
    decreases |ops|
  {
    if ops != [] && Rank(h, x.txn) > Rank(h, ops[0].txn) {
      var y, rest := ops[0], ops[1..];
      var tail := Insert(h, x, rest);
      InsertKeepsRanked(h, x, rest);
      InsertKeepsAll(h, x, rest);
      forall j | 0 <= j < |tail|
        ensures Rank(h, y.txn) <= Rank(h, tail[j].txn)
      {
        assert tail[j] in multiset(tail);
        if tail[j] != x {
          assert tail[j] in rest;
        }
      }
    }
  }

  lemma {:induction false} InsertKeepsProgramOrder(h: seq<Event>, x: Event, ops: seq<Event>, txn: TxnId)
    ensures Of(Insert(h, x, ops), txn) == Of([x] + ops, txn)
    decreases |ops|
  {
    if ops != [] && Rank(h, x.txn) > Rank(h, ops[0].txn) {
      var y, rest := ops[0], ops[1..];
      assert ops == [y] + rest;
      InsertKeepsProgramOrder(h, x, rest, txn);
      Cons(map[], x, ops, txn);
      Cons(map[], y, rest, txn);
      Cons(map[], y, Insert(h, x, rest), txn);
      Cons(map[], x, rest, txn);
    }
  }

  /** What stands in the history suffix from `i` on, once sorted, are its accesses. */
  lemma {:induction false} SerialShape(h: seq<Event>, i: nat)
    requires i <= |h|
    ensures Ranked(h, Serial(h, h[i..]))
    ensures multiset(Serial(h, h[i..])) == multiset(Accesses(h[i..]))
    decreases |h| - i
  {
    if i < |h| {
      SerialShape(h, i + 1);
      assert h[i..][1..] == h[i + 1..];
      if IsAccess(h[i]) {
        InsertKeepsRanked(h, h[i], Serial(h, h[i + 1..]));
        InsertKeepsAll(h, h[i], Serial(h, h[i + 1..]));
      }
    }
  }

  lemma {:induction false} SerialKeepsProgramOrder(h: seq<Event>, i: nat, txn: TxnId)
    requires i <= |h|
    ensures Of(Serial(h, h[i..]), txn) == Of(Accesses(h[i..]), txn)
    decreases |h| - i
  {
    if i < |h| {
      SerialKeepsProgramOrder(h, i + 1, txn);
      assert h[i..][1..] == h[i + 1..];
      if IsAccess(h[i]) {
        InsertKeepsProgramOrder(h, h[i], Serial(h, h[i + 1..]), txn);
        Cons(map[], h[i], Serial(h, h[i + 1..]), txn);
        Cons(map[], h[i], Accesses(h[i + 1..]), txn);
      } else {
        assert Accesses(h[i..]) == Accesses(h[i + 1..]);
      }
    }
  }

  lemma {:induction false} AccessComesFromHistory(h: seq<Event>, i: nat, e: Event) returns (j: nat)
    requires i <= |h| && e in Accesses(h[i..])
    ensures i <= j < |h| && h[j] == e && IsAccess(e)
    decreases |h| - i
  {
    assert h[i..][1..] == h[i + 1..];
    if IsAccess(h[i]) && e == h[i] {
      j := i;
    } else {
      j := AccessComesFromHistory(h, i + 1, e);
    }
  }

  lemma HistoryMayLead(h: seq<Event>, i: nat)
    requires StrictTwoPhase(h) && i < |h| && IsAccess(h[i])
    ensures MayLead(h, h[i], Serial(h, h[i + 1..]))
  {
    var ops := Serial(h, h[i + 1..]);
    SerialShape(h, i + 1);
    forall x | 0 <= x < |ops|
      ensures IsAccess(ops[x]) && (Rank(h, ops[x].txn) < Rank(h, h[i].txn) ==> !Conflicting(h[i], ops[x]))
    {
      assert ops[x] in multiset(ops);
      var j := AccessComesFromHistory(h, i + 1, ops[x]);
      if Conflicting(h[i], h[j]) {
        ConflictsFollowRank(h, i, j);
      }
    }
  }

  lemma {:induction false} SerialPreservesMeaning(h: seq<Event>, i: nat, db: Db)
    requires StrictTwoPhase(h) && i <= |h|
    ensures Final(db, Serial(h, h[i..])) == Final(db, Accesses(h[i..]))
    ensures Legal(db, Serial(h, h[i..])) <==> Legal(db, Accesses(h[i..]))
    decreases |h| - i
  {
    if i < |h| {
      assert h[i..][1..] == h[i + 1..];
      if IsAccess(h[i]) {
        var ops := Serial(h, h[i + 1..]);
        HistoryMayLead(h, i);
        InsertPreservesMeaning(h, db, h[i], ops);
        SerialPreservesMeaning(h, i + 1, Do(db, h[i]));
        Cons(db, h[i], ops, 0);
        Cons(db, h[i], Accesses(h[i + 1..]), 0);
      } else {
        assert Accesses(h[i..]) == Accesses(h[i + 1..]);
        SerialPreservesMeaning(h, i + 1, db);
      }
    }
  }

  /**
   Serializability. Running the transactions of a strict two-phase history one after another, in the
   order they released, is a serial schedule of the same accesses with each transaction's own
   order kept; every read returns the same value and the final database is the same.
   */
  lemma Serializable(h: seq<Event>, db: Db)
    requires StrictTwoPhase(h)
    ensures var serial := Serial(h, h);
            && multiset(serial) == multiset(Accesses(h))
            && (forall txn :: Of(serial, txn) == Of(Accesses(h), txn))
            && (forall i, j, k :: 0 <= i < j < k < |serial| && serial[i].txn == serial[k].txn ==>
                  serial[j].txn == serial[i].txn)
            && (Legal(db, serial) <==> Legal(db, Accesses(h)))
            && Final(db, serial) == Final(db, Accesses(h))
  {
    assert h[0..] == h;
    SerialPreservesMeaning(h, 0, db);
    SerialShape(h, 0);
    forall txn
      ensures Of(Serial(h, h), txn) == Of(Accesses(h), txn)
    {
      SerialKeepsProgramOrder(h, 0, txn);
    }
    var serial := Serial(h, h);
    forall i, j, k | 0 <= i < j < k < |serial| && serial[i].txn == serial[k].txn
      ensures serial[j].txn == serial[i].txn
    {
      RankIsInjective(h, serial[i].txn, serial[j].txn);
    }
  }
}
