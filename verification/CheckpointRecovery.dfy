/**
 Checkpoints of a stream processor: events are counted once per identifier into window sums;
 a checkpoint is a deep copy, and recovery starts again from a copy of one.
 */
module CheckpointRecovery {
  import opened Wrappers
  import FiniteSets

  type Id = string
  type Window = string

  /** `window` is the event's time rounded down to its window; `data` is absent unless it is a number. */
  datatype Event = Event(id: Id, offset: int, data: Option<int>, window: Window)

  /** What must come out the same after a crash. */
  datatype Tally = Tally(processed: set<Id>, sums: map<Window, int>)

  const EMPTY := Tally({}, map[])
  const MAX_HISTORY := 5

  function SumOf(sums: map<Window, int>, w: Window): int {
    if w in sums then sums[w] else 0
  }

  function Count(sums: map<Window, int>, e: Event): map<Window, int> {
    if e.data.Some? then sums[e.window := SumOf(sums, e.window) + e.data.value] else sums
  }

  /** One event: nothing if its identifier was seen, otherwise add it to its window. */
  function Step(t: Tally, e: Event): Tally {
    if e.id in t.processed then t else Tally(t.processed + {e.id}, Count(t.sums, e))
  }

  function Replay(t: Tally, es: seq<Event>): Tally
    decreases |es|
  {
    if es == [] then t else Replay(Step(t, es[0]), es[1..])
  }

  function Ids(es: seq<Event>): set<Id> {
    set e | e in es :: e.id
  }

  /** Equal identifiers mean equal events. */
  ghost predicate Consistent(es: seq<Event>) {
    forall a, b :: a in es && b in es && a.id == b.id ==> a == b
  }

  // ---------------------------------------------------------------- what the window sums are

  /** The event is counted for the window: it carries a number and lies there. */
  predicate CountsFor(e: Event, w: Window) {
    e.data.Some? && e.window == w
  }

  /** Event `i` is the first of the stream with its identifier, and that is not among those seen before. */
  predicate FirstOfItsId(seen: set<Id>, es: seq<Event>, i: nat)
    requires i < |es|
  {
    es[i].id !in seen && forall j :: 0 <= j < i ==> es[j].id != es[i].id
  }

  /** What the first events of their identifiers add to a window, repetitions left out. */
  function Total(seen: set<Id>, es: seq<Event>, w: Window): int {
    if es == [] then 0
    else
      var init, last := es[..|es| - 1], es[|es| - 1];
      Total(seen, init, w) + if FirstOfItsId(seen, es, |es| - 1) && CountsFor(last, w) then last.data.value else 0
  }

  /** Some first event of its identifier counts for the window. */
  ghost predicate Fed(seen: set<Id>, es: seq<Event>, w: Window) {
    exists i :: 0 <= i < |es| && FirstFor(seen, es, i, w)
  }

  ghost predicate FirstFor(seen: set<Id>, es: seq<Event>, i: nat, w: Window)
    requires i < |es|
  {
    FirstOfItsId(seen, es, i) && CountsFor(es[i], w)
  }

  lemma FedGrows(seen: set<Id>, es: seq<Event>, w: Window)
    requires es != []
    ensures Fed(seen, es, w) <==> Fed(seen, es[..|es| - 1], w) || FirstFor(seen, es, |es| - 1, w)
  {
    var init := es[..|es| - 1];
    if i :| 0 <= i < |init| && FirstFor(seen, init, i, w) {
      assert FirstFor(seen, es, i, w);
    }
    if i :| 0 <= i < |init| && FirstFor(seen, es, i, w) {
      assert FirstFor(seen, init, i, w);
    }
  }

  lemma ReplaySnoc(t: Tally, es: seq<Event>, e: Event)
    ensures Replay(t, es + [e]) == Step(Replay(t, es), e)
  {
    ReplayConcat(t, es, [e]);
  }

  /**
   A window's sum is what it was and the data of each new identifier once, whatever order and repetitions.
   A window that was not there is there exactly if some new identifier counted for it.
   */
  lemma {:induction false} WindowSums(t: Tally, es: seq<Event>, w: Window)
    ensures var sums := Replay(t, es).sums;
            && (w in sums <==> w in t.sums || Fed(t.processed, es, w))
            && (if w in sums then sums[w] else 0) == (if w in t.sums then t.sums[w] else 0) + Total(t.processed, es, w)
  {
    if es != [] {
      var n := |es| - 1;
      var init, last := es[..n], es[n];
      WindowSums(t, init, w);
      ReplaySnoc(t, init, last);
      assert init + [last] == es;
      ReplayMarks(t, init);
      assert last.id in Ids(init) <==> exists j :: 0 <= j < n && es[j].id == last.id;
      FedGrows(t.processed, es, w);
    }
  }

  // ---------------------------------------------------------------- order and repetition do not matter

  lemma {:induction false} ReplayConcat(t: Tally, a: seq<Event>, b: seq<Event>)
    ensures Replay(t, a + b) == Replay(Replay(t, a), b)
    decreases |a|
  {
    if a == [] {
      assert a + b == b;
    } else {
      assert (a + b)[1..] == a[1..] + b;
      ReplayConcat(Step(t, a[0]), a[1..], b);
    }
  }

  lemma {:induction false} ReplayMarks(t: Tally, es: seq<Event>)
    ensures Replay(t, es).processed == t.processed + Ids(es)
    decreases |es|
  {
    if es != [] {
      ReplayMarks(Step(t, es[0]), es[1..]);
      assert es == [es[0]] + es[1..];
      assert Ids(es) == {es[0].id} + Ids(es[1..]);
    }
  }

  lemma {:induction false} ReplaySeen(t: Tally, es: seq<Event>)
    requires Ids(es) <= t.processed
    ensures Replay(t, es) == t
    decreases |es|
  {
    if es != [] {
      assert es[0].id in Ids(es) && Ids(es[1..]) <= Ids(es);
      ReplaySeen(t, es[1..]);
    }
  }

  lemma StepsCommute(t: Tally, a: Event, b: Event)
    requires a.id != b.id
    ensures Step(Step(t, a), b) == Step(Step(t, b), a)
  {
    var x, y := Step(Step(t, a), b), Step(Step(t, b), a);
    assert x.processed == y.processed;
    assert x.sums == y.sums;
  }

  /** A new event somewhere in the stream may as well come first. */
  lemma {:induction false} MoveToFront(t: Tally, es: seq<Event>, e: Event)
    requires Consistent(es) && e in es
    ensures Replay(t, es) == Replay(Step(t, e), es)
    decreases |es|
  {
    var x, rest := es[0], es[1..];
    assert es == [x] + rest;
    if x.id == e.id {
      assert Step(Step(t, e), e) == Step(t, e);
    } else {
      MoveToFront(Step(t, x), rest, e);
      StepsCommute(t, x, e);
    }
  }

  /** The event both streams mean by an identifier they share. */
  lemma Carrier(es: seq<Event>, es': seq<Event>, id: Id) returns (e: Event)
    requires Consistent(es + es') && id in Ids(es) && id in Ids(es')
    ensures e in es && e in es' && e.id == id
  {
    e :| e in es && e.id == id;
    var e' :| e' in es' && e'.id == id;
    assert e in es + es' && e' in es + es';
  }

  lemma SeeOne(ids: set<Id>, ids': set<Id>, seen: set<Id>, id: Id)
    requires ids - seen == ids' - seen && id in ids - seen
    ensures ids - (seen + {id}) == ids' - (seen + {id}) == ids - seen - {id}
  {
    assert ids - (seen + {id}) == ids - seen - {id};
    assert ids' - (seen + {id}) == ids' - seen - {id};
  }

  /** The tally depends on the new identifiers in a stream, not on their order or number. */
  lemma {:induction false} SameNewIds(t: Tally, es: seq<Event>, es': seq<Event>)
    requires Consistent(es + es') && Ids(es) - t.processed == Ids(es') - t.processed
    ensures Replay(t, es) == Replay(t, es')
    decreases |Ids(es) - t.processed|
  {
    var unseen := Ids(es) - t.processed;
    assert forall e :: e in es || e in es' ==> e in es + es';
    if unseen == {} {
      FiniteSets.NothingLeft(Ids(es), t.processed);
      FiniteSets.NothingLeft(Ids(es'), t.processed);
      ReplaySeen(t, es);
      ReplaySeen(t, es');
    } else {
      var id := FiniteSets.Pick(unseen);
      var e := Carrier(es, es', id);
      MoveToFront(t, es, e);
      MoveToFront(t, es', e);
      SeeOne(Ids(es), Ids(es'), t.processed, id);
      SameNewIds(Step(t, e), es, es');
    }
  }

  /** Two streams of consistent events lead to the same tally exactly when they carry the same identifiers. */
  lemma SameTallyIffSameIds(es: seq<Event>, es': seq<Event>)
    requires Consistent(es + es')
    ensures Replay(EMPTY, es) == Replay(EMPTY, es') <==> Ids(es) == Ids(es')
  {
    ReplayMarks(EMPTY, es);
    ReplayMarks(EMPTY, es');
    if Ids(es) == Ids(es') {
      SameNewIds(EMPTY, es, es');
    }
  }

  /**
   Exactly-once recovery: process `before`, take a checkpoint, process `lost`, crash, recover, and
   receive `replay` in any order with any repetitions. The result is that of an uninterrupted run
   exactly when the replay supplies every identifier lost and no identifier never seen.
   */
  lemma RecoveryIsExactlyOnce(before: seq<Event>, lost: seq<Event>, replay: seq<Event>)
    requires Consistent(before + lost + replay)
    ensures Replay(Replay(EMPTY, before), replay) == Replay(EMPTY, before + lost)
       <==> Ids(before) + Ids(replay) == Ids(before) + Ids(lost)
  {
    ReplayConcat(EMPTY, before, replay);
    assert forall e :: e in (before + replay) + (before + lost) ==> e in before + lost + replay;
    SameTallyIffSameIds(before + replay, before + lost);
    IdsConcat(before, replay);
    IdsConcat(before, lost);
  }

  lemma IdsConcat(a: seq<Event>, b: seq<Event>)
    ensures Ids(a + b) == Ids(a) + Ids(b)
  {
    forall id | id in Ids(a) + Ids(b)
      ensures id in Ids(a + b)
    {
      if id in Ids(a) {
        var e :| e in a && e.id == id;
        assert e in a + b;
      } else {
        var e :| e in b && e.id == id;
        assert e in a + b;
      }
    }
  }

  // ---------------------------------------------------------------- the code

  class Checkpoint {
    var offset: int
    var processed: set<Id>
    var sums: map<Window, int>

    ghost function View(): Tally reads this { Tally(processed, sums) }

    constructor (offset: int)
      ensures View() == EMPTY && this.offset == offset
    {
      this.offset := offset;
      processed, sums := {}, map[];
    }

    /** Copy every entry of another checkpoint, one at a time. */
    method CopyFrom(other: Checkpoint)
      requires other != this && View() == EMPTY
      modifies this
      ensures processed == other.processed && sums == other.sums && offset == old(offset)
    {
      var ids := other.processed;
      while ids != {}
        invariant ids <= other.processed && processed == other.processed - ids
        invariant sums == map[] && offset == old(offset)
      {
        var id := FiniteSets.Take(ids);
        processed := processed + {id};
        ids := ids - {id};
      }
      var windows := other.sums.Keys;
      while windows != {}
        invariant windows <= other.sums.Keys && processed == other.processed && offset == old(offset)
        invariant sums == other.sums - windows
      {
        var w := FiniteSets.Take(windows);
        sums := sums[w := other.sums[w]];
        windows := windows - {w};
      }
      assert sums == other.sums;
    }
  }

  /** Where a tally comes from: a starting point and the events processed since. */
  datatype Past = Past(base: Tally, events: seq<Event>) {
    ghost function Tally(): Tally { Replay(base, events) }
  }

  class Manager {
    var current: Checkpoint
    var history: seq<Checkpoint>
    var processedCount: nat
    ghost var past: Past
    ghost var saved: map<Checkpoint, Past>  // every checkpoint ever made, and what it stands for

    /** The working state is no saved checkpoint, and each of them is what its past amounts to. */
    ghost predicate Valid()
      reads this, current, saved.Keys
    {
      && current !in saved
      && current.View() == past.Tally()
      && (forall c :: c in saved ==> c.View() == saved[c].Tally())
      && |history| <= MAX_HISTORY && forall c :: c in history ==> c in saved
    }

    constructor ()
      ensures Valid() && history == [] && saved == map[] && past == Past(EMPTY, []) && fresh(current)
    {
      current := new Checkpoint(0);
      history, processedCount := [], 0;
      past, saved := Past(EMPTY, []), map[];
    }

    /** Only the working state changes: a saved checkpoint never does. */
    method ProcessEvent(e: Event) returns (processed: bool)
      requires Valid()
      modifies this`processedCount, this`past, current
      ensures Valid() && past == Past(old(past).base, old(past).events + [e])
      ensures processed <==> e.id !in old(current.processed)
      ensures current.processed == old(current.processed) + {e.id}
      ensures current.offset == if processed then e.offset else old(current.offset)
      ensures processedCount == old(processedCount) + if processed then 1 else 0
      ensures processed && e.data.Some? ==>
                var before := if e.window in old(current.sums) then old(current.sums)[e.window] else 0;
                current.sums == old(current.sums)[e.window := before + e.data.value]
      ensures !processed || e.data.None? ==> current.sums == old(current.sums)
      ensures current.View() == Step(old(current.View()), e)
      ensures forall c :: c in saved ==> c.View() == old(c.View()) && c.offset == old(c.offset)
    {
      ReplayConcat(past.base, past.events, [e]);
      past := past.(events := past.events + [e]);
      if e.id in current.processed {
        return false;
      }
      if e.data.Some? {
        current.sums := current.sums[e.window := SumOf(current.sums, e.window) + e.data.value];
      }
      current.processed := current.processed + {e.id};
      current.offset := e.offset;
      processedCount := processedCount + 1;
      return true;
    }

    /** Save a copy; the oldest of more than five is forgotten. */
    method CreateCheckpoint() returns (c: Checkpoint)
      requires Valid()
      modifies this`history, this`saved
      ensures Valid() && fresh(c) && c.offset == current.offset
      ensures c.processed == current.processed && c.sums == current.sums
      ensures saved == old(saved)[c := past]
      ensures var all := old(history) + [c];
              history == if |all| > 5 then all[1..] else all
    {
      c := new Checkpoint(current.offset);
      c.CopyFrom(current);
      saved := saved[c := past];
      history := history + [c];
      if |history| > MAX_HISTORY {
        history := history[1..];
      }
    }

    /**
     Go back to any checkpoint. One that this manager made, forgotten or not, brings its own past back;
     another one is a new starting point.
     */
    method RecoverFromCheckpoint(c: Checkpoint)
      requires Valid()
      modifies this`current, this`past
      ensures Valid() && fresh(current)
      ensures past == if c in saved then saved[c] else Past(c.View(), [])
      ensures current.processed == c.processed && current.sums == c.sums && current.offset == c.offset
    {
      var restored := new Checkpoint(c.offset);
      restored.CopyFrom(c);
      current := restored;
      past := if c in saved then saved[c] else Past(c.View(), []);
    }
  }

  /** After any mixture of crashes, recoveries and replays: same identifiers, same state. */
  lemma ManagersAgreeIffSameIds(a: Manager, b: Manager)
    requires a.Valid() && b.Valid() && a.past.base == b.past.base && Consistent(a.past.events + b.past.events)
    ensures a.current.View() == b.current.View()
       <==> a.past.base.processed + Ids(a.past.events) == a.past.base.processed + Ids(b.past.events)
  {
    forall e | e in b.past.events + a.past.events
      ensures e in a.past.events + b.past.events
    {
    }
    SameFromHereIffSameIds(a.past.base, b.past.events, a.past.events);
  }

  /**
   The whole story on the code: checkpoint, work on, crash, recover from that checkpoint and receive
   `replay`. The tally is that of never having crashed exactly when the replay supplies every identifier
   lost and none that was never seen.
   */
  method CrashAndRecover(m: Manager, lost: seq<Event>, replay: seq<Event>) returns (ghost uninterrupted: Tally)
    requires m.Valid() && Consistent(lost + replay)
    modifies m, m.current
    ensures m.Valid() && uninterrupted == Replay(old(m.current.View()), lost)
    ensures var seen := old(m.current.processed);
            m.current.View() == uninterrupted <==> seen + Ids(replay) == seen + Ids(lost)
  {
    ghost var t := m.current.View();
    var c := m.CreateCheckpoint();
    ProcessAll(m, lost);
    uninterrupted := m.current.View();
    m.RecoverFromCheckpoint(c);
    ProcessAll(m, replay);
    SameFromHereIffSameIds(t, lost, replay);
  }

  method ProcessAll(m: Manager, es: seq<Event>)
    requires m.Valid()
    modifies m`processedCount, m`past, m.current
    ensures m.Valid() && m.current.View() == Replay(old(m.current.View()), es)
    ensures m.past == Past(old(m.past).base, old(m.past).events + es)
    ensures forall c :: c in m.saved ==> c.View() == old(c.View()) && c.offset == old(c.offset)
  {
    assert es[..0] == [] && m.past.events + [] == m.past.events;
    for i := 0 to |es|
      invariant m.Valid() && m.current == old(m.current) && m.current.View() == Replay(old(m.current.View()), es[..i])
      invariant m.past == Past(old(m.past).base, old(m.past).events + es[..i])
      invariant forall c :: c in m.saved ==> c.View() == old(c.View()) && c.offset == old(c.offset)
    {
      assert es[..i + 1] == es[..i] + [es[i]];
      ReplayConcat(old(m.current.View()), es[..i], [es[i]]);
      assert old(m.past).events + es[..i] + [es[i]] == old(m.past).events + es[..i + 1];
      var _ := m.ProcessEvent(es[i]);
    }
    assert es[..|es|] == es;
  }

  lemma SameFromHereIffSameIds(t: Tally, es: seq<Event>, es': seq<Event>)
    requires Consistent(es + es')
    ensures Replay(t, es') == Replay(t, es) <==> t.processed + Ids(es') == t.processed + Ids(es)
  {
    ReplayMarks(t, es);
    ReplayMarks(t, es');
    if t.processed + Ids(es') == t.processed + Ids(es) {
      assert Ids(es) - t.processed == (t.processed + Ids(es)) - t.processed;
      assert Ids(es') - t.processed == (t.processed + Ids(es')) - t.processed;
      SameNewIds(t, es, es');
    }
  }
}
