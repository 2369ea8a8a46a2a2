/**
 The graph store and its two breadth-first searches. Both searches walk a node's stored edges in
 an arbitrary order; a node stores the edges that leave it and the edges that enter it.
 */
module GraphStore {
  import opened Wrappers

  type Id = string

  datatype Edge = Edge(source: Id, target: Id, kind: string)

  datatype Graph = Graph(nodes: set<Id>, edges: set<Edge>) {
    ghost predicate Sound() {
      forall e :: e in edges ==> e.source in nodes && e.target in nodes
    }

    ghost predicate Adjacent(u: Id, v: Id) {
      exists e :: e in edges && e.source == u && e.target == v
    }

    /** A directed walk; a single node is one, whether or not it is stored. */
    ghost predicate IsPath(p: seq<Id>, a: Id, b: Id) {
      && |p| >= 1 && p[0] == a && p[|p| - 1] == b
      && forall i :: 0 < i < |p| ==> Adjacent(p[i - 1], p[i])
    }

    ghost predicate IsShortest(p: seq<Id>, a: Id, b: Id) {
      IsPath(p, a, b) && forall q :: IsPath(q, a, b) ==> |p| <= |q|
    }

    /** These nodes and what one more edge leads to. */
    ghost function Spread(s: set<Id>): set<Id> {
      s + set v | v in nodes && exists u :: u in s && Adjacent(u, v)
    }

    /** The nodes some walk of at most `k` edges leads to. */
    ghost function Ball(a: Id, k: nat): set<Id> {
      if k == 0 then {a}
      else Spread(Ball(a, k - 1))
    }
  }

  /** What is left of a walk after its last blank identifier. */
  function AfterBlank(p: seq<Id>): seq<Id> {
    if p == [] || p[|p| - 1] == "" then [] else AfterBlank(p[..|p| - 1]) + [p[|p| - 1]]
  }

  // ---------------------------------------------------------------- facts about walks

  lemma PathExtends(g: Graph, p: seq<Id>, a: Id, b: Id, c: Id)
    requires g.IsPath(p, a, b) && g.Adjacent(b, c)
    ensures g.IsPath(p + [c], a, c)
  {
    var q := p + [c];
    forall i | 0 < i < |q|
      ensures g.Adjacent(q[i - 1], q[i])
    {
    }
  }

  lemma PathPrefix(g: Graph, p: seq<Id>, a: Id, b: Id)
    requires g.IsPath(p, a, b) && |p| > 1
    ensures g.IsPath(p[..|p| - 1], a, p[|p| - 2]) && g.Adjacent(p[|p| - 2], b)
  {
    var q := p[..|p| - 1];
    forall i | 0 < i < |q|
      ensures g.Adjacent(q[i - 1], q[i])
    {
      assert g.Adjacent(p[i - 1], p[i]);
    }
    assert g.Adjacent(p[|p| - 2], p[|p| - 1]);
  }

  lemma {:induction false} BallHoldsPaths(g: Graph, p: seq<Id>, a: Id, b: Id)
    requires g.Sound() && g.IsPath(p, a, b)
    ensures b in g.Ball(a, |p| - 1)
    decreases |p|
  {
    if |p| > 1 {
      PathPrefix(g, p, a, b);
      BallHoldsPaths(g, p[..|p| - 1], a, p[|p| - 2]);
    }
  }

  lemma {:induction false} BallHasPath(g: Graph, a: Id, k: nat, b: Id) returns (p: seq<Id>)
    requires b in g.Ball(a, k)
    ensures g.IsPath(p, a, b) && |p| <= k + 1
    decreases k
  {
    if k == 0 {
      p := [a];
    } else if b in g.Ball(a, k - 1) {
      p := BallHasPath(g, a, k - 1, b);
    } else {
      var u :| u in g.Ball(a, k - 1) && g.Adjacent(u, b);
      var q := BallHasPath(g, a, k - 1, u);
      PathExtends(g, q, a, u, b);
      p := q + [b];
    }
  }

  lemma {:induction false} BallGrows(g: Graph, a: Id, j: nat, k: nat)
    requires j <= k
    ensures g.Ball(a, j) <= g.Ball(a, k)
    decreases k
  {
    if j < k {
      BallGrows(g, a, j, k - 1);
    }
  }

  /** No edge leads out of these nodes. */
  ghost predicate Shut(g: Graph, ball: set<Id>) {
    forall u, v :: u in ball && v in g.nodes && g.Adjacent(u, v) ==> v in ball
  }

  lemma {:induction false} StaysInside(g: Graph, a: Id, ball: set<Id>, k: nat)
    requires a in ball && Shut(g, ball)
    ensures g.Ball(a, k) <= ball
  {
    if k > 0 {
      StaysInside(g, a, ball, k - 1);
    }
  }

  /** A ball that does not grow in one step never grows again. */
  lemma BallSettles(g: Graph, a: Id, j: nat, k: nat)
    requires g.Ball(a, j + 1) <= g.Ball(a, j) && j <= k
    ensures g.Ball(a, k) == g.Ball(a, j)
  {
    BallGrows(g, a, 0, j);
    BallGrows(g, a, j, k);
    assert Shut(g, g.Ball(a, j));
    StaysInside(g, a, g.Ball(a, j), k);
  }

  // ---------------------------------------------------------------- the blank identifier

  lemma {:induction false} AfterBlankLength(p: seq<Id>)
    ensures |AfterBlank(p)| <= |p|
    ensures "" !in p <==> AfterBlank(p) == p
    ensures "" in p ==> |AfterBlank(p)| < |p|
    decreases |p|
  {
    if p != [] {
      assert p == p[..|p| - 1] + [p[|p| - 1]];
      AfterBlankLength(p[..|p| - 1]);
    }
  }

  /** It is the part of the walk behind its last blank identifier, all of it. */
  lemma {:induction false} AfterBlankIs(p: seq<Id>)
    ensures var rest := AfterBlank(p);
            && |rest| <= |p| && p[|p| - |rest|..] == rest && "" !in rest
            && (|rest| < |p| ==> p[|p| - |rest| - 1] == "")
    decreases |p|
  {
    if p != [] && p[|p| - 1] != "" {
      var init := p[..|p| - 1];
      AfterBlankIs(init);
      assert p == init + [p[|p| - 1]];
    }
  }

  /**
   The search cuts the walk it found at a blank identifier, so its answer is a shortest path
   exactly when no blank identifier lies on that walk.
   */
  lemma CutIsShortestIffNoBlank(g: Graph, q: seq<Id>, a: Id, b: Id)
    requires g.IsShortest(q, a, b)
    ensures g.IsShortest(AfterBlank(q), a, b) <==> "" !in q
  {
    AfterBlankLength(q);
  }

  /** Without a blank identifier in the store and at the start, no walk meets one. */
  lemma NoBlankOnPath(g: Graph, q: seq<Id>, a: Id, b: Id)
    requires g.Sound() && g.IsPath(q, a, b) && a != "" && "" !in g.nodes
    ensures "" !in q
  {
    forall i | 0 <= i < |q|
      ensures q[i] != ""
    {
      if i > 0 {
        assert g.Adjacent(q[i - 1], q[i]);
      }
    }
  }

  // What a caller can tell beforehand, in terms of distances in the store.

  lemma PathSuffix(g: Graph, p: seq<Id>, a: Id, b: Id, i: nat)
    requires g.IsPath(p, a, b) && i < |p|
    ensures g.IsPath(p[..i + 1], a, p[i]) && g.IsPath(p[i..], p[i], b)
  {
    var front, back := p[..i + 1], p[i..];
    forall x | 0 < x < |front|
      ensures g.Adjacent(front[x - 1], front[x])
    {
      assert g.Adjacent(p[x - 1], p[x]);
    }
    forall x | 0 < x < |back|
      ensures g.Adjacent(back[x - 1], back[x])
    {
      assert g.Adjacent(p[i + x - 1], p[i + x]);
    }
  }

  lemma PathsJoin(g: Graph, p: seq<Id>, q: seq<Id>, a: Id, m: Id, b: Id)
    requires g.IsPath(p, a, m) && g.IsPath(q, m, b)
    ensures g.IsPath(p + q[1..], a, b) && m in p + q[1..]
  {
    var r := p + q[1..];
    forall x | 0 < x < |r|
      ensures g.Adjacent(r[x - 1], r[x])
    {
      if x < |p| {
        assert g.Adjacent(p[x - 1], p[x]);
      } else {
        assert g.Adjacent(q[x - |p|], q[x - |p| + 1]);
      }
    }
    assert r[|p| - 1] == m;
  }

  /** No walk of fewer than `k` edges leads from `a` to `b`. */
  ghost predicate Beyond(g: Graph, a: Id, b: Id, k: nat) {
    k > 0 ==> b !in g.Ball(a, k - 1)
  }

  lemma BeyondMeansLong(g: Graph, a: Id, b: Id, k: nat, p: seq<Id>)
    requires g.Sound() && Beyond(g, a, b, k) && g.IsPath(p, a, b)
    ensures |p| >= k + 1
  {
    if |p| <= k {
      BallHoldsPaths(g, p, a, b);
      BallGrows(g, a, |p| - 1, k - 1);
    }
  }

  lemma ShortestIsBeyond(g: Graph, a: Id, b: Id, q: seq<Id>)
    requires g.IsShortest(q, a, b)
    ensures Beyond(g, a, b, |q| - 1)
  {
    if |q| > 1 && b in g.Ball(a, |q| - 2) {
      var p := BallHasPath(g, a, |q| - 2, b);
    }
  }

  /** The blank identifier is `j` edges from `a`, `b` is `k` edges from it, and there is no shorter way. */
  ghost predicate BlankBetween(g: Graph, a: Id, b: Id, j: nat, k: nat) {
    "" in g.Ball(a, j) && b in g.Ball("", k) && Beyond(g, a, b, j + k)
  }

  /** Some shortest walk meets the blank identifier exactly when the distances to it and from it add up. */
  lemma BlankOnShortestIff(g: Graph, a: Id, b: Id)
    requires g.Sound()
    ensures (exists q :: g.IsShortest(q, a, b) && "" in q) <==> (exists j: nat, k: nat :: BlankBetween(g, a, b, j, k))
  {
    if q :| g.IsShortest(q, a, b) && "" in q {
      var i :| 0 <= i < |q| && q[i] == "";
      BlankSplitsWalk(g, a, b, q, i);
    }
    if j: nat, k: nat :| BlankBetween(g, a, b, j, k) {
      var q := WalkThroughBlank(g, a, b, j, k);
    }
  }

  lemma BlankSplitsWalk(g: Graph, a: Id, b: Id, q: seq<Id>, i: nat)
    requires g.Sound() && g.IsShortest(q, a, b) && i < |q| && q[i] == ""
    ensures BlankBetween(g, a, b, i, |q| - 1 - i)
  {
    PathSuffix(g, q, a, b, i);
    BallHoldsPaths(g, q[..i + 1], a, "");
    BallHoldsPaths(g, q[i..], "", b);
    ShortestIsBeyond(g, a, b, q);
  }

  lemma WalkThroughBlank(g: Graph, a: Id, b: Id, j: nat, k: nat) returns (q: seq<Id>)
    requires g.Sound() && BlankBetween(g, a, b, j, k)
    ensures g.IsShortest(q, a, b) && "" in q
  {
    var front := BallHasPath(g, a, j, "");
    var back := BallHasPath(g, "", k, b);
    PathsJoin(g, front, back, a, "", b);
    q := front + back[1..];
    forall r | g.IsPath(r, a, b)
      ensures |q| <= |r|
    {
      BeyondMeansLong(g, a, b, j + k, r);
    }
  }

  /** The store without the blank identifier. */
  function Blankless(g: Graph): Graph {
    Graph(g.nodes - {""}, set e | e in g.edges && e.source != "" && e.target != "")
  }

  lemma BlanklessPaths(g: Graph, q: seq<Id>, a: Id, b: Id)
    requires a != ""
    ensures g.IsPath(q, a, b) && "" !in q <==> Blankless(g).IsPath(q, a, b)
  {
    if g.IsPath(q, a, b) && "" !in q {
      forall i | 0 < i < |q|
        ensures Blankless(g).Adjacent(q[i - 1], q[i])
      {
        assert g.Adjacent(q[i - 1], q[i]) && q[i - 1] in q && q[i] in q;
        var e :| e in g.edges && e.source == q[i - 1] && e.target == q[i];
        assert e in Blankless(g).edges;
      }
    }
    if Blankless(g).IsPath(q, a, b) {
      forall i | 0 <= i < |q|
        ensures q[i] != "" && (i > 0 ==> g.Adjacent(q[i - 1], q[i]))
      {
        if i > 0 {
          assert Blankless(g).Adjacent(q[i - 1], q[i]);
        }
      }
    }
  }

  /** Some shortest walk avoids the blank identifier exactly when leaving it out costs no detour. */
  lemma BlankAvoidableIff(g: Graph, a: Id, b: Id)
    requires g.Sound()
    ensures (exists q :: g.IsShortest(q, a, b) && "" !in q)
       <==> a != "" && exists k: nat :: b in Blankless(g).Ball(a, k) && Beyond(g, a, b, k)
  {
    if q :| g.IsShortest(q, a, b) && "" !in q {
      assert q[0] in q;
      BlanklessPaths(g, q, a, b);
      BallHoldsPaths(Blankless(g), q, a, b);
      ShortestIsBeyond(g, a, b, q);
      assert b in Blankless(g).Ball(a, |q| - 1) && Beyond(g, a, b, |q| - 1);
    }
    if a != "" {
      if k: nat :| b in Blankless(g).Ball(a, k) && Beyond(g, a, b, k) {
        var q := BallHasPath(Blankless(g), a, k, b);
        BlanklessPaths(g, q, a, b);
        forall r | g.IsPath(r, a, b)
          ensures |q| <= |r|
        {
          BeyondMeansLong(g, a, b, k, r);
        }
        assert g.IsShortest(q, a, b);
      }
    }
  }

  lemma IndirectIsLong(g: Graph, q: seq<Id>, a: Id, b: Id)
    requires g.IsPath(q, a, b) && a != b && !g.Adjacent(a, b)
    ensures |q| >= 3
  {
    assert g.Adjacent(q[0], q[1]);
  }

  function BlankStore(): Graph {
    Graph({"a", "", "b"}, {Edge("a", "", "t"), Edge("", "b", "t")})
  }

  /** A store with a blank node whose one shortest walk from "a" to "b" is cut to ["b"], which is no walk. */
  lemma BlankBreaksSearch()
    ensures var g := BlankStore();
            && g.Sound()
            && (forall q :: g.IsShortest(q, "a", "b") <==> q == ["a", "", "b"])
            && AfterBlank(["a", "", "b"]) == ["b"]
            && !g.IsPath(["b"], "a", "b")
  {
    var g := BlankStore();
    var p := ["a", "", "b"];
    assert Edge("a", "", "t") in g.edges && Edge("", "b", "t") in g.edges;
    assert g.Adjacent("a", "") && g.Adjacent("", "b");
    assert forall i :: 0 < i < 3 ==> g.Adjacent(p[i - 1], p[i]);
    forall q | g.IsPath(q, "a", "b")
      ensures |q| >= 3
    {
      IndirectIsLong(g, q, "a", "b");
    }
    assert g.IsShortest(p, "a", "b");
    forall q | g.IsShortest(q, "a", "b")
      ensures q == p
    {
      assert |q| == 3 && g.Adjacent(q[0], q[1]);
    }
    assert p[..2] == ["a", ""];
    assert AfterBlank(["a", ""]) == [];
  }

  // ---------------------------------------------------------------- the shortest-path search

  /** The search's variables. `route` is what the parents spell out, kept for the proof. */
  datatype Bfs = Bfs(visited: set<Id>, parent: map<Id, Id>, queue: seq<Id>)

  type Routes = map<Id, seq<Id>>

  ghost predicate RoutesSound(g: Graph, a: Id, s: Bfs, route: Routes) {
    && route.Keys == s.visited && a in s.visited && route[a] == [a]
    && s.parent.Keys == s.visited - {a}
    && (forall v :: v in s.visited ==> g.IsPath(route[v], a, v))
    && (forall v :: v in s.parent ==> s.parent[v] in s.visited && route[v] == route[s.parent[v]] + [v])
  }

  /** The queue is sorted by distance and spans two distances from `d`; nobody visited is farther. */
  ghost predicate Ordered(s: Bfs, route: Routes, d: nat)
    requires route.Keys == s.visited
  {
    && (forall x :: x in s.queue ==> x in s.visited && d <= |route[x]|)
    && (forall v :: v in s.visited ==> |route[v]| <= d + 1)
    && (forall i, j :: 0 <= i < j < |s.queue| ==>
          s.queue[i] != s.queue[j] && |route[s.queue[i]]| <= |route[s.queue[j]]|)
  }

  ghost predicate ClosedAt(g: Graph, s: Bfs, route: Routes, u: Id)
    requires route.Keys == s.visited && u in s.visited
  {
    forall w :: g.Adjacent(u, w) ==> w in s.visited && |route[w]| <= |route[u]| + 1
  }

  /** Between two turns of the outer loop. */
  ghost predicate Search(g: Graph, a: Id, s: Bfs, route: Routes) {
    && RoutesSound(g, a, s, route)
    && (forall x :: x in s.queue ==> x in s.visited)
    && (|s.queue| > 0 ==> Ordered(s, route, |route[s.queue[0]]|))
    && (forall u :: u in s.visited && u !in s.queue ==> ClosedAt(g, s, route, u))
  }

  /** Inside the loop over the edges of `current`, which has left the queue. */
  ghost predicate Scanning(g: Graph, a: Id, s: Bfs, route: Routes, current: Id) {
    && RoutesSound(g, a, s, route)
    && current in s.visited && current !in s.queue
    && Ordered(s, route, |route[current]|)
    && (forall u :: u in s.visited && u !in s.queue && u != current ==> ClosedAt(g, s, route, u))
  }

  lemma BeginScanning(g: Graph, a: Id, s: Bfs, route: Routes)
    requires Search(g, a, s, route) && |s.queue| > 0
    ensures Scanning(g, a, s.(queue := s.queue[1..]), route, s.queue[0])
  {
    var s', current := s.(queue := s.queue[1..]), s.queue[0];
    forall u | u in s'.visited && u !in s'.queue && u != current
      ensures ClosedAt(g, s', route, u)
    {
      assert u !in s.queue;
      assert ClosedAt(g, s, route, u);
    }
  }

  function Visit(s: Bfs, current: Id, next: Id): Bfs {
    Bfs(s.visited + {next}, s.parent[next := current], s.queue + [next])
  }

  lemma VisitKeepsRoutes(g: Graph, a: Id, s: Bfs, route: Routes, current: Id, next: Id)
    requires RoutesSound(g, a, s, route) && current in s.visited && next !in s.visited && g.Adjacent(current, next)
    ensures RoutesSound(g, a, Visit(s, current, next), route[next := route[current] + [next]])
  {
    PathExtends(g, route[current], a, current, next);
  }

  lemma VisitKeepsOrder(s: Bfs, route: Routes, current: Id, next: Id)
    requires route.Keys == s.visited && current in s.visited && next !in s.visited
    requires Ordered(s, route, |route[current]|)
    ensures Ordered(Visit(s, current, next), route[next := route[current] + [next]], |route[current]|)
  {
    var s', d := Visit(s, current, next), |route[current]|;
    forall x | x in s'.queue
      ensures x == next || x in s.queue
    {
    }
  }

  /** One edge to a node not yet visited. */
  lemma VisitKeepsScanning(g: Graph, a: Id, s: Bfs, route: Routes, current: Id, next: Id)
    requires Scanning(g, a, s, route, current) && next !in s.visited && g.Adjacent(current, next)
    ensures Scanning(g, a, Visit(s, current, next), route[next := route[current] + [next]], current)
  {
    var s', route' := Visit(s, current, next), route[next := route[current] + [next]];
    VisitKeepsRoutes(g, a, s, route, current, next);
    VisitKeepsOrder(s, route, current, next);
    assert forall x :: x in s'.queue <==> x == next || x in s.queue;
    forall u | u in s'.visited && u !in s'.queue && u != current
      ensures ClosedAt(g, s', route', u)
    {
      assert ClosedAt(g, s, route, u);
    }
  }

  lemma EndScanning(g: Graph, a: Id, s: Bfs, route: Routes, current: Id)
    requires Scanning(g, a, s, route, current)
    requires forall w :: g.Adjacent(current, w) ==> w in s.visited
    ensures Search(g, a, s, route)
  {
    assert ClosedAt(g, s, route, current);
    if |s.queue| > 0 {
      assert forall x :: x in s.queue ==> |route[s.queue[0]]| <= |route[x]|;
    }
  }

  /** A walk from the start meets the queue, at a node reached no later, or has been explored. */
  lemma {:induction false} MeetsQueue(g: Graph, a: Id, s: Bfs, route: Routes, p: seq<Id>, b: Id, k: nat)
    requires Search(g, a, s, route) && g.IsPath(p, a, b) && k < |p|
    ensures (exists j :: 0 <= j <= k && p[j] in s.queue && |route[p[j]]| <= j + 1)
         || (p[k] in s.visited && p[k] !in s.queue && |route[p[k]]| <= k + 1)
  {
    if k > 0 {
      MeetsQueue(g, a, s, route, p, b, k - 1);
      if p[k - 1] in s.visited && p[k - 1] !in s.queue && |route[p[k - 1]]| <= k {
        assert ClosedAt(g, s, route, p[k - 1]);
        assert g.Adjacent(p[k - 1], p[k]);
      }
    }
  }

  /** The node at the front of the queue is reached by a shortest walk. */
  lemma FrontIsShortest(g: Graph, a: Id, s: Bfs, route: Routes)
    requires Search(g, a, s, route) && |s.queue| > 0
    ensures g.IsShortest(route[s.queue[0]], a, s.queue[0])
  {
    var b := s.queue[0];
    forall p | g.IsPath(p, a, b)
      ensures |route[b]| <= |p|
    {
      MeetsQueue(g, a, s, route, p, b, |p| - 1);
    }
  }

  /** With an empty queue every walk stays among the visited nodes. */
  lemma NothingMore(g: Graph, a: Id, s: Bfs, route: Routes, b: Id)
    requires Search(g, a, s, route) && s.queue == [] && b !in s.visited
    ensures !exists p :: g.IsPath(p, a, b)
  {
    forall p | g.IsPath(p, a, b)
      ensures false
    {
      MeetsQueue(g, a, s, route, p, b, |p| - 1);
    }
  }

  /** What the search is done with. */
  function Explored(s: Bfs): set<Id> { set v | v in s.visited && v !in s.queue }

  /** Scanning edges only adds nodes, all of them stored, and queues what it adds. */
  ghost predicate Grows(s0: Bfs, s: Bfs, stored: set<Id>) {
    && s0.visited <= s.visited <= s0.visited + stored
    && (forall x :: x in s.queue <==> x in s0.queue || (x in s.visited && x !in s0.visited))
  }

  lemma VisitGrows(s0: Bfs, s: Bfs, current: Id, next: Id, stored: set<Id>)
    requires Grows(s0, s, stored) && next !in s.visited && next in stored
    ensures Grows(s0, Visit(s, current, next), stored)
  {
    assert forall x :: x in Visit(s, current, next).queue <==> x == next || x in s.queue;
  }

  lemma ExploresFront(s0: Bfs, s: Bfs, stored: set<Id>)
    requires |s0.queue| > 0 && s0.queue[0] in s0.visited && s0.queue[0] !in s0.queue[1..]
    requires Grows(s0.(queue := s0.queue[1..]), s, stored)
    ensures Explored(s) == Explored(s0) + {s0.queue[0]} && s0.queue[0] !in Explored(s0)
  {
    assert forall x :: x in s0.queue <==> x == s0.queue[0] || x in s0.queue[1..];
  }

  // ---------------------------------------------------------------- the level-by-level traversal

  ghost function Seen(g: Graph, a: Id, d: nat): set<Id> {
    if d == 0 then {} else g.Ball(a, d - 1)
  }

  /** Before level `d`: everything nearer is visited, and the queue holds everything at distance `d`. */
  ghost predicate Level(g: Graph, a: Id, d: nat, visited: set<Id>, queue: seq<Id>) {
    && visited == Seen(g, a, d)
    && (forall x :: x in queue ==> x in g.Ball(a, d))
    && (forall x :: x in g.Ball(a, d) && x !in visited ==> x in queue)
  }

  /** Every walk length that reaches a later node reaches an earlier one. */
  ghost predicate NearerFirst(g: Graph, a: Id, found: seq<Id>) {
    forall i, j, k: nat :: 0 <= i < j < |found| && found[j] in g.Ball(a, k) ==> found[i] in g.Ball(a, k)
  }

  ghost predicate Listed(g: Graph, a: Id, found: seq<Id>, visited: set<Id>) {
    && (forall v :: v in found <==> v in visited)
    && (forall i, j :: 0 <= i < j < |found| ==> found[i] != found[j])
    && NearerFirst(g, a, found)
  }

  /** What the level has appended so far are the edges out of what it has visited so far. */
  ghost predicate LevelSoFar(g: Graph, visited0: set<Id>, visited: set<Id>, added: seq<Id>) {
    && (forall x :: x in added ==> exists u :: u in visited && g.Adjacent(u, x))
    && (forall u, w :: u in visited && u !in visited0 && g.Adjacent(u, w) ==> w in visited || w in added)
  }

  lemma BallIsStored(g: Graph, a: Id, d: nat, v: Id)
    requires a in g.nodes && v in g.Ball(a, d)
    ensures v in g.nodes
  {
    if d > 0 && v in g.Ball(a, d - 1) {
      BallIsStored(g, a, d - 1, v);
    }
  }

  lemma NewlyFound(g: Graph, a: Id, d: nat, visited0: set<Id>, queue0: seq<Id>, found: seq<Id>, visited: set<Id>, x: Id)
    requires Level(g, a, d, visited0, queue0) && Listed(g, a, found, visited)
    requires visited0 <= visited && (forall v :: v in visited ==> v in visited0 || v in queue0)
    requires x in queue0 && x !in visited
    ensures Listed(g, a, found + [x], visited + {x}) && x in g.Ball(a, d)
  {
    var found' := found + [x];
    forall i, k: nat | 0 <= i < |found| && x in g.Ball(a, k)
      ensures found[i] in g.Ball(a, k)
    {
      assert found[i] in visited;
      FartherThanVisited(g, a, d, visited0, queue0, x, found[i], k);
    }
  }

  /** What the level visits for the first time is no nearer than anything visited before. */
  lemma FartherThanVisited(g: Graph, a: Id, d: nat, visited: set<Id>, queue: seq<Id>, x: Id, y: Id, k: nat)
    requires Level(g, a, d, visited, queue) && x in queue && x !in visited && (y in visited || y in queue)
    requires x in g.Ball(a, k)
    ensures y in g.Ball(a, k)
  {
    NotNearer(g, a, d, visited, x, k);
    assert y in g.Ball(a, d) by {
      if d > 0 {
        BallGrows(g, a, d - 1, d);
      }
    }
    BallGrows(g, a, d, k);
  }

  lemma NotNearer(g: Graph, a: Id, d: nat, visited: set<Id>, x: Id, k: nat)
    requires visited == Seen(g, a, d) && x !in visited && x in g.Ball(a, k)
    ensures d <= k
  {
    if k < d {
      BallGrows(g, a, k, d - 1);
    }
  }

  lemma VisitKeepsLevel(g: Graph, visited0: set<Id>, visited: set<Id>, added: seq<Id>, x: Id, targets: seq<Id>)
    requires LevelSoFar(g, visited0, visited, added)
    requires forall v :: v in targets <==> v != x && g.Adjacent(x, v)
    ensures LevelSoFar(g, visited0, visited + {x}, added + targets)
  {
    var visited', added' := visited + {x}, added + targets;
    forall y | y in added'
      ensures exists u :: u in visited' && g.Adjacent(u, y)
    {
      if y in added {
        var u :| u in visited && g.Adjacent(u, y);
        assert u in visited';
      } else {
        assert x in visited' && g.Adjacent(x, y);
      }
    }
  }

  lemma LevelComplete(g: Graph, a: Id, d: nat, visited0: set<Id>, queue0: seq<Id>, visited: set<Id>, added: seq<Id>)
    requires g.Sound() && Level(g, a, d, visited0, queue0) && LevelSoFar(g, visited0, visited, added)
    requires visited == visited0 + set x | x in queue0
    ensures Level(g, a, d + 1, visited, added)
  {
    if d > 0 {
      BallGrows(g, a, d - 1, d);
    }
    assert visited == g.Ball(a, d);
    forall x | x in g.Ball(a, d + 1) && x !in visited
      ensures x in added
    {
      var u :| u in g.Ball(a, d) && g.Adjacent(u, x);
      assert u in visited0 ==> x in g.Ball(a, d);
    }
  }

  lemma LevelsDone(g: Graph, a: Id, d: nat, visited: set<Id>, queue: seq<Id>, m: nat)
    requires Level(g, a, d, visited, queue) && (d == m + 1 || (queue == [] && d <= m))
    ensures visited == g.Ball(a, m)
  {
    if d <= m {
      assert a in g.Ball(a, 0);
      assert d > 0;
      BallGrows(g, a, d - 1, d);
      assert g.Ball(a, d - 1) == g.Ball(a, d);
      BallSettles(g, a, d - 1, m);
    }
  }

  /** Exactly the nodes fewer than `maxDepth` edges away, each once, nearer ones first. */
  ghost predicate IsTraversal(g: Graph, start: Id, maxDepth: int, found: seq<Id>) {
    && (forall v :: v in found <==> maxDepth > 0 && v in g.Ball(start, maxDepth - 1))
    && (forall i, j :: 0 <= i < j < |found| ==> found[i] != found[j])
    && NearerFirst(g, start, found)
  }

  lemma TraversalIsComplete(g: Graph, a: Id, d: nat, visited: set<Id>, queue: seq<Id>, found: seq<Id>, maxDepth: int)
    requires Level(g, a, d, visited, queue) && Listed(g, a, found, visited)
    requires if maxDepth <= 0 then d == 0 else d <= maxDepth && (d == maxDepth || queue == [])
    ensures IsTraversal(g, a, maxDepth, found)
  {
    if maxDepth > 0 {
      LevelsDone(g, a, d, visited, queue, maxDepth - 1);
    }
  }

  // ---------------------------------------------------------------- the store

  class GraphDatabase {
    var nodes: map<Id, set<Edge>>
    var edges: set<Edge>

    ghost function View(): Graph reads this { Graph(nodes.Keys, edges) }

    /** A node's own edge table holds exactly the edges that touch it. */
    ghost predicate Valid()
      reads this
    {
      && View().Sound()
      && forall id :: id in nodes ==> nodes[id] == set e | e in edges && (e.source == id || e.target == id)
    }

    constructor ()
      ensures Valid() && View() == Graph({}, {})
    {
      nodes := map[];
      edges := {};
    }

    method CreateNode(id: Id) returns (ok: bool)
      requires Valid()
      modifies this
      ensures Valid() && (ok <==> id !in old(View()).nodes)
      ensures View() == Graph(old(View()).nodes + {id}, old(View()).edges)
    {
      if id in nodes {
        return false;
      }
      nodes := nodes[id := {}];
      return true;
    }

    /** The code locks both end nodes, so an edge from a stored node to itself would wait forever. */
    method CreateEdge(source: Id, target: Id, kind: string) returns (ok: bool)
      requires Valid() && (source == target ==> source !in nodes)
      modifies this
      ensures Valid() && (ok <==> source in old(View()).nodes && target in old(View()).nodes)
      ensures View() == Graph(old(View()).nodes, old(View()).edges + if ok then {Edge(source, target, kind)} else {})
    {
      if source !in nodes || target !in nodes {
        return false;
      }
      var edge := Edge(source, target, kind);
      nodes := nodes[source := nodes[source] + {edge}];
      nodes := nodes[target := nodes[target] + {edge}];
      edges := edges + {edge};
      return true;
    }

    /**
     Answers `None` exactly when no walk exists. Otherwise the answer is a shortest walk, cut after
     its last blank identifier.
     */
    method ShortestPath(a: Id, b: Id) returns (path: Option<seq<Id>>)
      requires Valid()
      ensures path.None? <==> !exists p :: View().IsPath(p, a, b)
      ensures path.Some? ==> exists q :: View().IsShortest(q, a, b) && path.value == AfterBlank(q)
      ensures path.Some? && a != "" && "" !in nodes ==> View().IsShortest(path.value, a, b)
      ensures path.Some? && (forall q :: View().IsShortest(q, a, b) ==> "" !in q) ==>
                View().IsShortest(path.value, a, b)
      ensures path.Some? && (forall q :: View().IsShortest(q, a, b) ==> "" in q) ==>
                !View().IsShortest(path.value, a, b)
    {
      var s := Bfs({a}, map[], [a]);
      ghost var route: Routes := map[a := [a]];
      ghost var all := {a} + nodes.Keys;
      while |s.queue| > 0
        invariant Search(View(), a, s, route)
        invariant s.visited <= all && (b in s.visited ==> b in s.queue)
        decreases all - Explored(s)
      {
        var current := s.queue[0];
        if current == b {
          FrontIsShortest(View(), a, s, route);
          var found := Restore(a, b, s, route);
          CutIsShortestIffNoBlank(View(), route[b], a, b);
          if a != "" && "" !in nodes {
            NoBlankOnPath(View(), route[b], a, b);
          }
          return Some(found);
        }
        s, route := Expand(a, b, s, route);
      }
      NothingMore(View(), a, s, route, b);
      return None;
    }

    /** One turn of the outer loop: take the front of the queue and look along its edges. */
    method Expand(a: Id, ghost b: Id, s0: Bfs, ghost route0: Routes) returns (s: Bfs, ghost route: Routes)
      requires Valid() && |s0.queue| > 0 && s0.queue[0] != b
      requires Search(View(), a, s0, route0) && (b in s0.visited ==> b in s0.queue)
      ensures Search(View(), a, s, route) && (b in s.visited ==> b in s.queue)
      ensures s.visited <= s0.visited + nodes.Keys
      ensures Explored(s) == Explored(s0) + {s0.queue[0]} && s0.queue[0] !in Explored(s0)
    {
      var current := s0.queue[0];
      s, route := s0.(queue := s0.queue[1..]), route0;
      BeginScanning(View(), a, s0, route0);
      if current in nodes {
        s, route := ScanEdges(a, current, s, route);
      }
      EndScanning(View(), a, s, route, current);
      ExploresFront(s0, s, nodes.Keys);
    }

    method ScanEdges(a: Id, current: Id, s0: Bfs, ghost route0: Routes) returns (s: Bfs, ghost route: Routes)
      requires Valid() && current in nodes && Scanning(View(), a, s0, route0, current)
      ensures Scanning(View(), a, s, route, current) && Grows(s0, s, nodes.Keys)
      ensures forall w :: View().Adjacent(current, w) ==> w in s.visited
    {
      s, route := s0, route0;
      var todo := nodes[current];
      while todo != {}
        invariant todo <= nodes[current]
        invariant Scanning(View(), a, s, route, current) && Grows(s0, s, nodes.Keys)
        invariant forall e :: e in nodes[current] && e !in todo ==> e.target in s.visited
      {
        var edge :| edge in todo;
        var next := edge.target;
        if next !in s.visited {
          assert View().Adjacent(current, next);
          VisitKeepsScanning(View(), a, s, route, current, next);
          VisitGrows(s0, s, current, next, nodes.Keys);
          route := route[next := route[current] + [next]];
          s := Visit(s, current, next);
        }
        todo := todo - {edge};
      }
    }

    /** The walk back along the parents; a missing parent reads as blank, and a blank ends it. */
    method Restore(a: Id, b: Id, s: Bfs, ghost route: Routes) returns (path: seq<Id>)
      requires RoutesSound(View(), a, s, route) && b in s.visited
      ensures path == AfterBlank(route[b])
    {
      path := [];
      var current := b;
      ghost var rest := route[b];
      while current != ""
        invariant AfterBlank(route[b]) == AfterBlank(rest) + path
        invariant if rest == [] then current == "" else current in s.visited && rest == route[current]
        decreases |rest|
      {
        path := [current] + path;
        assert rest[|rest| - 1] == current;
        rest := rest[..|rest| - 1];
        assert current in s.parent ==> rest == route[s.parent[current]];
        current := if current in s.parent then s.parent[current] else "";
      }
      assert rest != [] ==> rest[|rest| - 1] == "";
    }

    // -------------------------------------------------------------- traversal

    /**
     The nodes within fewer than `maxDepth` edges of the start, each once and nearer ones first;
     an error when the start is not stored.
     */
    method TraverseBFS(start: Id, maxDepth: int) returns (result: Option<seq<Id>>)
      requires Valid()
      ensures result.None? <==> start !in nodes
      ensures result.Some? ==> IsTraversal(View(), start, maxDepth, result.value)
    {
      if start !in nodes {
        return None;
      }
      var visited: set<Id> := {};
      var queue := [start];
      var depth := 0;
      var found: seq<Id> := [];
      while |queue| > 0 && depth < maxDepth
        invariant depth >= 0 && (maxDepth <= 0 ==> depth == 0) && (maxDepth > 0 ==> depth <= maxDepth)
        invariant Level(View(), start, depth, visited, queue) && Listed(View(), start, found, visited)
        decreases maxDepth - depth
      {
        visited, queue, found := VisitLevel(start, depth, visited, queue, found);
        depth := depth + 1;
      }
      TraversalIsComplete(View(), start, depth, visited, queue, found, maxDepth);
      return Some(found);
    }

    /** The inner loop: everything queued when the level began, skipping what was visited before. */
    method VisitLevel(start: Id, ghost depth: nat, visited0: set<Id>, queue0: seq<Id>, found0: seq<Id>)
      returns (visited: set<Id>, queue: seq<Id>, found: seq<Id>)
      requires Valid() && start in nodes
      requires Level(View(), start, depth, visited0, queue0) && Listed(View(), start, found0, visited0)
      ensures Level(View(), start, depth + 1, visited, queue) && Listed(View(), start, found, visited)
    {
      visited, queue, found := visited0, queue0, found0;
      var levelSize := |queue|;
      ghost var added: seq<Id> := [];
      for i := 0 to levelSize
        invariant queue == queue0[i..] + added
        invariant visited == visited0 + set x | x in queue0[..i]
        invariant LevelSoFar(View(), visited0, visited, added)
        invariant Listed(View(), start, found, visited)
      {
        var nodeId := queue[0];
        queue := queue[1..];
        assert queue0[..i + 1] == queue0[..i] + [nodeId] && queue0[i] in queue0;
        if nodeId !in visited {
          NewlyFound(View(), start, depth, visited0, queue0, found, visited, nodeId);
          BallIsStored(View(), start, depth, nodeId);
          found := found + [nodeId];
          var targets := Targets(nodeId);
          VisitKeepsLevel(View(), visited0, visited, added, nodeId, targets);
          visited := visited + {nodeId};
          queue := queue + targets;
          added := added + targets;
        }
      }
      assert queue0[..levelSize] == queue0;
      LevelComplete(View(), start, depth, visited0, queue0, visited, added);
    }

    /** Where the edges of a node lead, in whatever order its table yields them. */
    method Targets(nodeId: Id) returns (targets: seq<Id>)
      requires Valid() && nodeId in nodes
      ensures forall v :: v in targets <==> v != nodeId && View().Adjacent(nodeId, v)
    {
      targets := [];
      var todo := nodes[nodeId];
      while todo != {}
        invariant todo <= nodes[nodeId]
        invariant forall v :: v in targets <==> v != nodeId && exists e :: e in nodes[nodeId] - todo && e.target == v
      {
        var edge :| edge in todo;
        if edge.target != nodeId {
          targets := targets + [edge.target];
        }
        todo := todo - {edge};
      }
    }
  }

  method BuildBlankStore() returns (db: GraphDatabase)
    ensures db.Valid() && db.View() == BlankStore()
  {
    db := BuildBlankNodes();
    var _ := db.CreateEdge("a", "", "t");
    var _ := db.CreateEdge("", "b", "t");
  }

  method BuildBlankNodes() returns (db: GraphDatabase)
    ensures fresh(db) && db.Valid() && db.View() == Graph({"a", "", "b"}, {})
  {
    db := new GraphDatabase();
    var _ := db.CreateNode("a");
    var _ := db.CreateNode("");
    var _ := db.CreateNode("b");
  }

  /** That store, built and searched: the answer leaves out where the walk starts. */
  method SearchBlankStore() returns (path: Option<seq<Id>>)
    ensures path == Some(["b"])
  {
    var db := BuildBlankStore();
    BlankBreaksSearch();
    assert BlankStore().IsShortest(["a", "", "b"], "a", "b");
    path := db.ShortestPath("a", "b");
  }
}
