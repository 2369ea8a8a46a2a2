/**
 The sliding-window rate limiter. The code keeps only the admissions of the current window; it is
 compared with the list of all admissions ever made.
 */
module SlidingWindow {

  /** Pause between two attempts of a waiting caller: 100 ms, in nanoseconds. */
  const PAUSE: int := 100_000_000

  /** How many of these instants lie after `lo` and not after `hi`. */
  function Count(h: seq<int>, lo: int, hi: int): nat {
    if h == [] then 0
    else Count(h[..|h| - 1], lo, hi) + if lo < h[|h| - 1] <= hi then 1 else 0
  }

  lemma {:induction false} CountIs(h: seq<int>, lo: int, hi: int)
    ensures Count(h, lo, hi) == |set i | 0 <= i < |h| && lo < h[i] <= hi|
  {
    if h != [] {
      var n := |h| - 1;
      CountIs(h[..n], lo, hi);
      var before, all := set i | 0 <= i < n && lo < h[..n][i] <= hi, set i | 0 <= i < |h| && lo < h[i] <= hi;
      assert all == if lo < h[n] <= hi then before + {n} else before;
    }
  }

  function Kept(h: seq<int>, start: int): seq<int> {
    if h == [] then []
    else Kept(h[..|h| - 1], start) + if h[|h| - 1] > start then [h[|h| - 1]] else []
  }

  predicate NoLater(h: seq<int>, now: int) {
    forall i :: 0 <= i < |h| ==> h[i] <= now
  }

  lemma CountSnoc(h: seq<int>, t: int, lo: int, hi: int)
    ensures Count(h + [t], lo, hi) == Count(h, lo, hi) + if lo < t <= hi then 1 else 0
  {
    assert (h + [t])[..|h|] == h;
  }

  /** A narrower window holds no more. */
  lemma {:induction false} CountMonotone(h: seq<int>, lo: int, hi: int, lo': int, hi': int)
    requires lo' <= lo && hi <= hi'
    ensures Count(h, lo, hi) <= Count(h, lo', hi')
  {
    if h != [] {
      CountMonotone(h[..|h| - 1], lo, hi, lo', hi');
    }
  }

  /** Instants all up to `now` are not lost by cutting the window there. */
  lemma {:induction false} CountCut(h: seq<int>, now: int, lo: int, hi: int)
    requires NoLater(h, now) && now <= hi
    ensures Count(h, lo, hi) == Count(h, lo, now)
  {
    if h != [] {
      CountCut(h[..|h| - 1], now, lo, hi);
    }
  }

  /** Pruning does not change the count of any window that starts later. */
  lemma {:induction false} KeptCounts(h: seq<int>, start: int, lo: int, hi: int)
    requires start <= lo
    ensures Count(Kept(h, start), lo, hi) == Count(h, lo, hi)
  {
    if h != [] {
      var t := h[|h| - 1];
      KeptCounts(h[..|h| - 1], start, lo, hi);
      if t > start {
        CountSnoc(Kept(h[..|h| - 1], start), t, lo, hi);
      } else {
        assert Kept(h, start) == Kept(h[..|h| - 1], start);
      }
    }
  }

  lemma {:induction false} KeptSize(h: seq<int>, start: int, now: int)
    requires NoLater(h, now)
    ensures |Kept(h, start)| == Count(h, start, now) && NoLater(Kept(h, start), now)
  {
    if h != [] {
      KeptSize(h[..|h| - 1], start, now);
    }
  }

  /** The pruned list answers for the whole history in every window that can still be asked about. */
  ghost predicate Tracks(requests: seq<int>, history: seq<int>, clock: int, window: int) {
    && NoLater(requests, clock)
    && NoLater(history, clock)
    && forall lo, hi :: clock - window <= lo ==> Count(requests, lo, hi) == Count(history, lo, hi)
  }

  lemma PruneTracks(requests: seq<int>, history: seq<int>, clock: int, window: int, now: int)
    requires Tracks(requests, history, clock, window) && clock <= now
    ensures Tracks(Kept(requests, now - window), history, now, window)
    ensures |Kept(requests, now - window)| == Count(history, now - window, now)
  {
    KeptSize(requests, now - window, now);
    forall lo, hi | now - window <= lo
      ensures Count(Kept(requests, now - window), lo, hi) == Count(history, lo, hi)
    {
      KeptCounts(requests, now - window, lo, hi);
    }
  }

  lemma AdmitTracks(requests: seq<int>, history: seq<int>, clock: int, window: int)
    requires Tracks(requests, history, clock, window)
    ensures Tracks(requests + [clock], history + [clock], clock, window)
  {
    forall lo, hi | clock - window <= lo
      ensures Count(requests + [clock], lo, hi) == Count(history + [clock], lo, hi)
    {
      CountSnoc(requests, clock, lo, hi);
      CountSnoc(history, clock, lo, hi);
    }
  }

  /** On an undisturbed limiter nobody else calls while one caller waits. */
  class Limiter {
    const rate: int
    const window: int
    const undisturbed: bool
    var requests: seq<int>
    var clock: int
    ghost var history: seq<int>

    ghost predicate Valid()
      reads this
    {
      Tracks(requests, history, clock, window) && Smooth(history, rate, window)
    }

    constructor (rate: int, window: int, clock: int, undisturbed: bool)
      ensures Valid() && this.rate == rate && this.window == window && this.undisturbed == undisturbed
      ensures this.clock == clock && history == []
    {
      this.rate, this.window, this.undisturbed, this.clock := rate, window, undisturbed, clock;
      requests, history := [], [];
    }

    method Now(earliest: int) returns (now: int)
      requires earliest >= clock
      ensures now >= earliest
    {
      now :| now >= earliest;
    }

    /** Any number of calls by others; whatever they were admitted, the limiter admitted. */
    method Interfere()
      requires Valid()
      modifies this
      ensures Valid() && old(history) <= history && old(clock) <= clock
      ensures undisturbed ==> history == old(history) && clock == old(clock)
    {
    }

    method Prune(start: int) returns (valid: seq<int>)
      ensures valid == Kept(requests, start)
    {
      valid := [];
      for i := 0 to |requests|
        invariant valid == Kept(requests[..i], start)
      {
        assert requests[..i + 1][..i] == requests[..i];
        if requests[i] > start {
          valid := valid + [requests[i]];
        }
      }
      assert requests[..|requests|] == requests;
    }

    /** Admits exactly when the window ending now holds fewer than `rate` of all past admissions. */
    method Allow(now: int) returns (ok: bool)
      requires Valid() && now >= clock
      modifies this
      ensures Valid() && clock == now
      ensures ok <==> Count(old(history), now - window, now) < rate
      ensures history == if ok then old(history) + [now] else old(history)
      ensures history == Decided(old(history), rate, window, now)
    {
      Forget(now);
      if |requests| < rate {
        AdmitTracks(requests, history, clock, window);
        AdmitKeepsSmooth(history, rate, window, now);
        requests := requests + [now];
        history := history + [now];
        return true;
      }
      return false;
    }

    /** Drop what has left the window; what is kept still answers for the whole history. */
    method Forget(now: int)
      requires Valid() && now >= clock
      modifies this`requests, this`clock
      ensures clock == now && Tracks(requests, history, now, window)
      ensures |requests| == Count(history, now - window, now)
    {
      PruneTracks(requests, history, clock, window, now);
      var valid := Prune(now - window);
      requests, clock := valid, now;
    }

    /**
     Waits for a slot, making at most `patience` attempts while others compete. No slot is wasted: a
     caller that has failed although it slept a whole window saw others admitted at least `rate` times
     since it began. So with nobody competing and a positive rate the wait ends within a window. With a
     rate of zero or less it never ends, however many attempts are made.
     */
    method WaitForSlot(patience: nat) returns (ok: bool, failures: nat)
      requires Valid()
      modifies this
      ensures Valid() && old(history) <= history
      ensures if ok then failures < patience else failures == patience
      ensures ok ==> |history| > |old(history)| && history[|history| - 1] == clock
      ensures failures > 0 && (failures - 1) * 100_000_000 >= window ==>
                |history| - |old(history)| >= rate + if ok then 1 else 0
      ensures undisturbed ==> history == if ok then old(history) + [clock] else old(history)
      ensures undisturbed && rate > 0 && failures > 0 ==> (failures - 1) * 100_000_000 < window
      ensures rate <= 0 ==> !ok
    {
      ghost var start := clock;
      ok, failures := false, 0;
      var earliest := clock;
      while failures < patience
        invariant Valid() && old(history) <= history && NoLater(old(history), start) && failures <= patience
        invariant start <= clock && earliest >= start + failures * PAUSE
        invariant failures > 0 && (failures - 1) * PAUSE >= window ==> |history| - |old(history)| >= rate
        invariant undisturbed ==> history == old(history) && clock <= earliest
      {
        Interfere();
        ok := Attempt(old(history), start, earliest);
        if ok {
          return;
        }
        failures := failures + 1;
        earliest := clock + PAUSE;
      }
    }

    /** One attempt, not before `earliest`. */
    method Attempt(ghost h0: seq<int>, ghost start: int, earliest: int) returns (ok: bool)
      requires Valid() && h0 <= history && NoLater(h0, start) && start <= clock
      modifies this
      ensures Valid() && clock >= old(clock) && clock >= earliest
      ensures history == if ok then old(history) + [clock] else old(history)
      ensures ok ==> rate > 0
      ensures !ok && clock - window >= start ==> |history| - |h0| >= rate
    {
      var now := Now(if earliest >= clock then earliest else clock);
      ok := Allow(now);
      if !ok && now - window >= start {
        OthersTookThem(h0, history[|h0|..], start, now - window, now);
        assert h0 + history[|h0|..] == history;
      }
    }
  }

  /** Whatever lies in a window that begins after all of `h0` was admitted later. */
  lemma OthersTookThem(h0: seq<int>, later: seq<int>, start: int, lo: int, hi: int)
    requires NoLater(h0, start) && start <= lo
    ensures Count(h0 + later, lo, hi) <= |later|
  {
    NothingAfter(h0, start, lo, hi);
    CountConcat(h0, later, lo, hi);
  }

  lemma {:induction false} CountConcat(a: seq<int>, b: seq<int>, lo: int, hi: int)
    ensures Count(a + b, lo, hi) == Count(a, lo, hi) + Count(b, lo, hi) && Count(b, lo, hi) <= |b|
    decreases |b|
  {
    if b == [] {
      assert a + b == a;
    } else {
      assert (a + b)[..|a + b| - 1] == a + b[..|b| - 1];
      CountConcat(a, b[..|b| - 1], lo, hi);
    }
  }

  lemma {:induction false} NothingAfter(h: seq<int>, last: int, lo: int, hi: int)
    requires NoLater(h, last)
    ensures last <= lo ==> Count(h, lo, hi) == 0
  {
    if h != [] {
      NothingAfter(h[..|h| - 1], last, lo, hi);
    }
  }

  // ---------------------------------------------------------------- the rate, over any history

  /** No stretch of one window's length, wherever it begins, holds more than `rate` admissions. */
  ghost predicate Smooth(h: seq<int>, rate: int, window: int) {
    forall t, u :: u == t + window ==> Count(h, t, u) <= if rate > 0 then rate else 0
  }

  lemma AdmitKeepsSmooth(h: seq<int>, rate: int, window: int, now: int)
    requires Smooth(h, rate, window) && NoLater(h, now) && Count(h, now - window, now) < rate
    ensures Smooth(h + [now], rate, window)
  {
    forall t, u | u == t + window
      ensures Count(h + [now], t, u) <= rate
    {
      CountSnoc(h, now, t, u);
      if t < now <= u {
        CountCut(h, now, t, u);
        CountMonotone(h, t, now, now - window, now);
      }
    }
  }

  lemma CallKeepsSmooth(h: seq<int>, rate: int, window: int, now: int)
    requires Smooth(h, rate, window) && NoLater(h, now)
    ensures Smooth(Decided(h, rate, window, now), rate, window)
  {
    if Count(h, now - window, now) < rate {
      AdmitKeepsSmooth(h, rate, window, now);
    }
  }

  /** The history after a call, decided on the full history. */
  function Decided(h: seq<int>, rate: int, window: int, now: int): seq<int> {
    if Count(h, now - window, now) < rate then h + [now] else h
  }

  /** All admissions made by calls at these instants. */
  function Admitted(calls: seq<int>, rate: int, window: int): seq<int> {
    if calls == [] then []
    else Decided(Admitted(calls[..|calls| - 1], rate, window), rate, window, calls[|calls| - 1])
  }

  predicate Ordered(calls: seq<int>) {
    forall i, j :: 0 <= i < j < |calls| ==> calls[i] <= calls[j]
  }

  lemma DecidedNoLater(h: seq<int>, rate: int, window: int, t: int, now: int)
    requires NoLater(h, now) && t <= now
    ensures NoLater(Decided(h, rate, window, t), now)
  {
  }

  lemma {:induction false} AdmittedNoLater(calls: seq<int>, rate: int, window: int, now: int)
    requires NoLater(calls, now)
    ensures NoLater(Admitted(calls, rate, window), now)
  {
    if calls != [] {
      var rest := calls[..|calls| - 1];
      AdmittedNoLater(rest, rate, window, now);
      DecidedNoLater(Admitted(rest, rate, window), rate, window, calls[|calls| - 1], now);
    }
  }

  /** Whatever calls are made, as long as the clock does not run backwards, the rate is kept. */
  lemma {:induction false} RateIsKept(calls: seq<int>, rate: int, window: int)
    requires Ordered(calls)
    ensures Smooth(Admitted(calls, rate, window), rate, window)
  {
    if calls != [] {
      var rest, now := calls[..|calls| - 1], calls[|calls| - 1];
      RateIsKept(rest, rate, window);
      var h := Admitted(rest, rate, window);
      AdmittedNoLater(rest, rate, window, now);
      CallKeepsSmooth(h, rate, window, now);
    }
  }
}
