/**
 The lease manager. It hands out pointers to its own records, so a holder's lease object and the
 manager's may be one and the same; the operations are proved on objects and related to functions
 on values, which the runs then interleave.
 */
module LeaseManager {
  import FiniteSets

  type Resource = string
  type Holder = string

  /** A lease as a value. Identifiers are numbered in the order they are given out. */
  datatype Info = Info(id: nat, holder: Holder, expiresAt: int, version: int)

  type Table = map<Resource, Info>

  predicate Current(t: Table, r: Resource, now: int) {
    r in t && now < t[r].expiresAt
  }

  /** The record an acquisition leaves behind: renewed for the same holder, or new. */
  function Acquired(t: Table, counter: nat, r: Resource, holder: Holder, duration: int, now: int): Info {
    if Current(t, r, now) then Info(t[r].id, t[r].holder, now + duration, t[r].version + 1)
    else Info(counter + 1, holder, now + duration, 1)
  }

  predicate Renewable(t: Table, r: Resource, id: nat, version: int) {
    r in t && t[r].id == id && t[r].version == version
  }

  function Renewed(i: Info, duration: int, now: int): Info {
    Info(i.id, i.holder, now + duration, i.version + 1)
  }

  /** Identifiers in use are distinct and were given out. */
  ghost predicate Numbered(t: Table, counter: nat) {
    && (forall r :: r in t ==> 1 <= t[r].id <= counter)
    && (forall a, b :: a in t && b in t && a != b ==> t[a].id != t[b].id)
  }

  lemma PutKeepsNumbers(t: Table, counter: nat, r: Resource, i: Info)
    requires Numbered(t, counter) && (i.id == counter + 1 || (r in t && i.id == t[r].id))
    ensures Numbered(t[r := i], if r in t && i.id == t[r].id then counter else counter + 1)
  {
  }

  lemma RemoveThenPut(t: Table, r: Resource, i: Info)
    ensures (t - {r})[r := i] == t[r := i]
  {
  }

  function Swept(t: Table, now: int): Table {
    map r | r in t && now <= t[r].expiresAt :: t[r]
  }

  /** A sweep in progress: outside `todo` exactly the expired leases are gone. */
  ghost predicate Sweeping(t0: Table, t: Table, now: int, todo: set<Resource>) {
    && (forall r :: r in t <==> r in t0 && (r in todo || now <= t0[r].expiresAt))
    && (forall r :: r in t ==> t[r] == t0[r])
  }

  lemma SweepOne(t0: Table, t: Table, now: int, todo: set<Resource>, r: Resource)
    requires Sweeping(t0, t, now, todo) && r in todo && r in t
    ensures Sweeping(t0, if now > t[r].expiresAt then t - {r} else t, now, todo - {r})
  {
  }

  lemma SweepDone(t0: Table, t: Table, now: int)
    requires Sweeping(t0, t, now, {})
    ensures t == Swept(t0, now)
  {
  }

  class Lease {
    var id: nat
    var holder: Holder
    var expiresAt: int
    var version: int

    ghost function View(): Info reads this { Info(id, holder, expiresAt, version) }

    constructor (id: nat, holder: Holder, expiresAt: int, version: int)
      ensures View() == Info(id, holder, expiresAt, version)
    {
      this.id, this.holder, this.expiresAt, this.version := id, holder, expiresAt, version;
    }
  }

  ghost predicate SubMap<K, V>(a: map<K, V>, b: map<K, V>) {
    a.Keys <= b.Keys && forall k :: k in a ==> a[k] == b[k]
  }

  class Manager {
    var leases: map<Resource, Lease>
    var counter: nat

    /** No two resources share a record, or an identifier. */
    ghost predicate Valid()
      reads this, leases.Values
    {
      && (forall a, b :: a in leases && b in leases && a != b ==> leases[a] != leases[b])
      && Numbered(View(), counter)
    }

    ghost function View(): Table
      reads this, leases.Values
    {
      map r | r in leases :: leases[r].View()
    }

    constructor ()
      ensures Valid() && leases == map[] && counter == 0
    {
      leases, counter := map[], 0;
    }

    /** Lengthens the lease in place, without testing whose it is. */
    method Refresh(r: Resource, duration: int, now: int) returns (lease: Lease)
      requires Valid() && r in leases
      modifies leases.Values
      ensures Valid() && lease == leases[r]
      ensures View() == old(View())[r := Renewed(old(View())[r], duration, now)]
    {
      lease := leases[r];
      assert lease in leases.Values;
      ghost var next := Renewed(lease.View(), duration, now);
      PutKeepsNumbers(View(), counter, r, next);
      lease.expiresAt := now + duration;
      lease.version := lease.version + 1;
      assert View() == old(View())[r := next];
    }

    method Create(r: Resource, holder: Holder, expiresAt: int) returns (lease: Lease)
      requires Valid()
      modifies this
      ensures Valid() && counter == old(counter) + 1 && leases == old(leases)[r := lease] && fresh(lease)
      ensures lease.id == counter && lease.holder == holder && lease.expiresAt == expiresAt && lease.version == 1
      ensures View() == old(View())[r := Info(counter, holder, expiresAt, 1)]
    {
      ghost var next := Info(counter + 1, holder, expiresAt, 1);
      PutKeepsNumbers(View(), counter, r, next);
      counter := counter + 1;
      lease := new Lease(counter, holder, expiresAt, 1);
      leases := leases[r := lease];
      assert View() == old(View())[r := next];
    }

    /** On success the caller gets the manager's own record. */
    method AcquireLease(r: Resource, holder: Holder, duration: int, now: int) returns (lease: Lease?)
      requires Valid()
      modifies this, leases.Values
      ensures Valid()
      ensures lease == null <==> Current(old(View()), r, now) && old(View())[r].holder != holder
      ensures lease == null ==> View() == old(View()) && counter == old(counter)
      ensures lease != null ==> r in leases && lease == leases[r]
      ensures lease != null ==>
                View() == old(View())[r := Acquired(old(View()), old(counter), r, holder, duration, now)]
      ensures lease != null ==> counter == old(counter) + if Current(old(View()), r, now) then 0 else 1
      ensures lease == null <==>
                r in old(leases) && now < old(leases[r].expiresAt) && old(leases[r].holder) != holder
      ensures lease != null ==> lease.holder == holder && lease.expiresAt == now + duration
      ensures lease != null && r in old(leases) && now < old(leases[r].expiresAt) ==>
                lease == old(leases)[r] && lease.id == old(leases[r].id) && lease.version == old(leases[r].version) + 1
      ensures lease != null && (r in old(leases) ==> now >= old(leases[r].expiresAt)) ==>
                lease.id == counter == old(counter) + 1 && lease.version == 1
    {
      if r in leases {
        var existing := leases[r];
        if now < existing.expiresAt {
          if existing.holder == holder {
            lease := Refresh(r, duration, now);
            return;
          }
          return null;
        }
      }
      lease := Replace(r, holder, now + duration);
    }

    /** A new lease in the place of the expired one, if there is one. */
    method Replace(r: Resource, holder: Holder, expiresAt: int) returns (lease: Lease)
      requires Valid()
      modifies this
      ensures Valid() && counter == old(counter) + 1 && r in leases && lease == leases[r]
      ensures lease.id == counter && lease.holder == holder && lease.expiresAt == expiresAt && lease.version == 1
      ensures View() == old(View())[r := Info(counter, holder, expiresAt, 1)]
    {
      ghost var t := View();
      if r in leases {
        Remove(r);
      }
      RemoveThenPut(t, r, Info(counter + 1, holder, expiresAt, 1));
      lease := Create(r, holder, expiresAt);
    }

    method Remove(r: Resource)
      requires Valid()
      modifies this`leases
      ensures Valid() && leases == old(leases) - {r} && View() == old(View()) - {r}
    {
      leases := leases - {r};
      assert View() == old(View()) - {r};
    }

    /** Works on a holder's own copy as well as on the manager's record itself. */
    method RenewLease(r: Resource, lease: Lease, duration: int, now: int) returns (ok: bool)
      requires Valid()
      modifies leases.Values, lease
      ensures Valid()
      ensures ok <==> Renewable(old(View()), r, old(lease.id), old(lease.version))
      ensures ok ==> View() == old(View())[r := Renewed(old(View())[r], duration, now)] && lease.View() == View()[r]
      ensures !ok ==> View() == old(View()) && lease.View() == old(lease.View())
      ensures ok <==> r in leases && old(leases[r].id == lease.id) && old(leases[r].version == lease.version)
      ensures ok ==>
                && lease.id == leases[r].id == old(leases[r].id)
                && lease.holder == leases[r].holder == old(leases[r].holder)
                && lease.expiresAt == leases[r].expiresAt == now + duration
                && lease.version == leases[r].version == old(leases[r].version) + 1
    {
      if r !in leases {
        return false;
      }
      var current := leases[r];
      if current.id != lease.id || current.version != lease.version {
        return false;
      }
      forall a | a in leases && a != r
        ensures leases[a] != lease
      {
        assert View()[a].id != View()[r].id;
      }
      current := Refresh(r, duration, now);
      CopyInto(r, lease);
      return true;
    }

    /** The object is the manager's record of this resource or a copy, not the record of another one. */
    ghost predicate IsOwnOrForeign(r: Resource, lease: Lease)
      reads this
    {
      forall a :: a in leases && a != r ==> leases[a] != lease
    }

    /** Bring a holder's object up to date. */
    method CopyInto(r: Resource, lease: Lease)
      requires Valid() && r in leases && IsOwnOrForeign(r, lease)
      modifies lease
      ensures Valid() && View() == old(View()) && lease.View() == View()[r]
    {
      var current := leases[r];
      lease.id, lease.holder := current.id, current.holder;
      lease.expiresAt, lease.version := current.expiresAt, current.version;
      assert View() == old(View());
    }

    /** The identifier alone decides; version and expiry are not tested. */
    method ReleaseLease(r: Resource, lease: Lease) returns (ok: bool)
      requires Valid()
      modifies this`leases
      ensures Valid() && (ok <==> r in old(View()) && old(View())[r].id == lease.id)
      ensures View() == if ok then old(View()) - {r} else old(View())
      ensures ok <==> r in old(leases) && old(leases[r].id) == lease.id
      ensures leases == if ok then old(leases) - {r} else old(leases)
    {
      if r !in leases {
        return false;
      }
      if leases[r].id != lease.id {
        return false;
      }
      Remove(r);
      return true;
    }

    method Cleanup(now: int)
      requires Valid()
      modifies this`leases
      ensures Valid() && View() == Swept(old(View()), now)
      ensures forall r :: r in leases <==> r in old(leases) && now <= old(leases[r].expiresAt)
      ensures SubMap(leases, old(leases))
    {
      var todo := leases.Keys;
      while todo != {}
        invariant Valid() && todo <= leases.Keys && Sweeping(old(View()), View(), now, todo)
        invariant SubMap(leases, old(leases))
      {
        var r := FiniteSets.Take(todo);
        SweepOne(old(View()), View(), now, todo, r);
        if now > leases[r].expiresAt {
          Remove(r);
        }
        todo := todo - {r};
      }
      SweepDone(old(View()), View(), now);
    }
  }

  // ---------------------------------------------------------------- all runs

  datatype Promise = Promise(holder: Holder, until: int)
  datatype Grant = Grant(r: Resource, id: nat)

  /** `promises` keeps, per lease given out, how long it was last said to run, unless it was released. */
  datatype State = State(clock: int, table: Table, counter: nat, promises: map<Grant, Promise>)

  /** Renewals and releases present an identifier and version; these may come from anywhere. */
  datatype Step =
    | Tick(to: int)
    | Acquire(r: Resource, holder: Holder, duration: int, now: int)
    | Renew(r: Resource, id: nat, version: int, duration: int, now: int)
    | Release(r: Resource, id: nat)
    | Cleanup(now: int)

  predicate Init(s: State) {
    s.table == map[] && s.counter == 0 && s.promises == map[]
  }

  predicate Enabled(s: State, e: Step) {
    match e
    case Tick(to) => s.clock <= to
    case Acquire(_, _, _, now) => s.clock <= now
    case Renew(_, _, _, _, now) => s.clock <= now
    case Release(_, _) => true
    case Cleanup(now) => s.clock <= now
  }

  function Put(s: State, r: Resource, i: Info): State {
    s.(table := s.table[r := i], promises := s.promises[Grant(r, i.id) := Promise(i.holder, i.expiresAt)])
  }

  function Apply(s: State, e: Step): State
    requires Enabled(s, e)
  {
    match e
    case Tick(to) => s.(clock := to)
    case Acquire(r, holder, duration, now) =>
      if Current(s.table, r, now) && s.table[r].holder != holder then s.(clock := now)
      else
        Put(s.(clock := now, counter := s.counter + if Current(s.table, r, now) then 0 else 1), r,
            Acquired(s.table, s.counter, r, holder, duration, now))
    case Renew(r, id, version, duration, now) =>
      if Renewable(s.table, r, id, version)
      then Put(s.(clock := now), r, Renewed(s.table[r], duration, now)) else s.(clock := now)
    case Release(r, id) =>
      if r in s.table && s.table[r].id == id
      then s.(table := s.table - {r}, promises := s.promises - {Grant(r, id)}) else s
    case Cleanup(now) => s.(clock := now, table := Swept(s.table, now))
  }

  ghost predicate Next(s: State, s': State) {
    exists e :: Enabled(s, e) && s' == Apply(s, e)
  }

  ghost predicate IsRun(run: seq<State>) {
    && |run| > 0
    && Init(run[0])
    && forall i :: 0 < i < |run| ==> Next(run[i - 1], run[i])
  }

  /**
   A lease that has run out is anybody's: an acquisition gives the resource to its caller for `duration` exactly
   when the lease there is the caller's own or has run out. Otherwise nothing changes.
   */
  lemma AcquiresIffExpiredOrOwn(s: State, r: Resource, holder: Holder, duration: int, now: int)
    requires s.clock <= now
    ensures var s' := Apply(s, Acquire(r, holder, duration, now));
            if r in s.table && now < s.table[r].expiresAt && s.table[r].holder != holder then s' == s.(clock := now)
            else
              && r in s'.table && s'.table[r].holder == holder && s'.table[r].expiresAt == now + duration
              && (duration > 0 ==> Relies(s', Grant(r, s'.table[r].id)))
              && (forall x :: x in s.table && x != r ==> x in s'.table && s'.table[x] == s.table[x])
  {
  }

  ghost predicate Backed(s: State, g: Grant)
    requires g in s.promises
  {
    var p := s.promises[g];
    || s.clock >= p.until
    || (&& g.r in s.table && s.table[g.r].id == g.id
        && s.table[g.r].holder == p.holder && s.table[g.r].expiresAt == p.until)
  }

  ghost predicate Inv(s: State) {
    Numbered(s.table, s.counter) && forall g :: g in s.promises ==> g.id <= s.counter && Backed(s, g)
  }

  lemma StepKeepsNumbers(s: State, e: Step)
    requires Numbered(s.table, s.counter) && Enabled(s, e)
    ensures Numbered(Apply(s, e).table, Apply(s, e).counter)
  {
  }

  lemma StepKeepsBacking(s: State, e: Step, g: Grant)
    requires Inv(s) && Enabled(s, e) && g in Apply(s, e).promises
    ensures g.id <= Apply(s, e).counter && Backed(Apply(s, e), g)
  {
    assert g in s.promises ==> Backed(s, g);
  }

  lemma StepKeepsInv(s: State, e: Step)
    requires Inv(s) && Enabled(s, e)
    ensures Inv(Apply(s, e))
  {
    StepKeepsNumbers(s, e);
    forall g | g in Apply(s, e).promises
      ensures g.id <= Apply(s, e).counter && Backed(Apply(s, e), g)
    {
      StepKeepsBacking(s, e, g);
    }
  }

  lemma {:induction false} RunKeepsInv(run: seq<State>, i: nat)
    requires IsRun(run) && i < |run|
    ensures Inv(run[i])
  {
    if i > 0 {
      RunKeepsInv(run, i - 1);
      var s := run[i - 1];
      assert Next(s, run[i]);
      var e :| Enabled(s, e) && run[i] == Apply(s, e);
      StepKeepsInv(s, e);
    }
  }

  predicate Relies(s: State, g: Grant) {
    g in s.promises && s.clock < s.promises[g].until
  }

  /** At any moment of any run at most one lease of a resource is relied on. */
  lemma OneLeaseAtATime(run: seq<State>, i: nat, g: Grant, h: Grant)
    requires IsRun(run) && i < |run| && g.r == h.r && Relies(run[i], g) && Relies(run[i], h)
    ensures g == h
  {
    RunKeepsInv(run, i);
    assert Backed(run[i], g) && Backed(run[i], h);
  }

  lemma {:induction false} SupersededStays(run: seq<State>, i: nat, j: nat, r: Resource, id: nat)
    requires IsRun(run) && i <= j < |run| && id <= run[i].counter
    requires r !in run[i].table || run[i].table[r].id != id
    ensures run[i].counter <= run[j].counter && (r in run[j].table ==> run[j].table[r].id != id)
    decreases j
  {
    if i < j {
      SupersededStays(run, i, j - 1, r, id);
      assert Next(run[j - 1], run[j]);
    }
  }

  /**
   A lease identifier that has left its resource never renews or releases again, whatever version is
   presented with it; in particular the manager's former record, still in a holder's hands, is inert.
   */
  lemma SupersededIsPowerless(run: seq<State>, i: nat, j: nat, r: Resource, id: nat, version: int)
    requires IsRun(run) && i <= j < |run| && id <= run[i].counter
    requires r !in run[i].table || run[i].table[r].id != id
    ensures !Renewable(run[j].table, r, id, version)
    ensures Apply(run[j], Release(r, id)) == run[j]
  {
    SupersededStays(run, i, j, r, id);
  }

  /** On one lease the version never goes back. */
  lemma {:induction false} VersionsGrow(run: seq<State>, i: nat, j: nat, r: Resource, id: nat, version: int)
    requires IsRun(run) && i <= j < |run| && id <= run[i].counter
    requires r in run[i].table && run[i].table[r].id == id ==> run[i].table[r].version > version
    ensures run[i].counter <= run[j].counter
    ensures r in run[j].table && run[j].table[r].id == id ==> run[j].table[r].version > version
    decreases j
  {
    if i < j {
      VersionsGrow(run, i, j - 1, r, id, version);
      assert Next(run[j - 1], run[j]);
    }
  }

  /** Whoever else holds a copy of the lease, one identifier and version renew at most once in a run. */
  lemma RenewsAtMostOnce(run: seq<State>, i: nat, j: nat, r: Resource, id: nat, version: int, duration: int, now: int)
    requires IsRun(run) && i < j < |run| && run[i].clock <= now
    requires Renewable(run[i].table, r, id, version)
    requires run[i + 1] == Apply(run[i], Renew(r, id, version, duration, now))
    ensures !Renewable(run[j].table, r, id, version)
  {
    RunKeepsInv(run, i);
    VersionsGrow(run, i + 1, j, r, id, version);
  }
}
