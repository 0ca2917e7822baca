/**
 * The generic breadth-first search `solve` of minipt1/minipt1_2/main.cpp. A search problem
 * supplies an initial state, a target test, the actions offered in a state and the state an
 * action leads to; `solve` returns the actions of a path from the initial state to a target
 * state, the empty path when the initial state is a target, and no path when no target is
 * reachable.
 */
module StateSpace {
  import opened Wrappers

  /** The interface `solve` is generic over (`initial_state`, `is_target`,
      `possible_actions`, `next_state`). */
  datatype Problem<!S, !A> = Problem(initial: S, isTarget: S -> bool, actions: S -> seq<A>, next: (S, A) -> S)

  /** The state reached from `s` by performing `path`, each action being one of those
      offered in the state where it is performed; None when some action is not offered. */
  function Run<S, A(==)>(P: Problem<S, A>, s: S, path: seq<A>): Option<S>
    decreases |path|
  {
    if path == [] then Some(s)
    else
      match Run(P, s, path[..|path| - 1])
      case None => None
      case Some(u) =>
        var a := path[|path| - 1];
        if a in P.actions(u) then Some(P.next(u, a)) else None
  }

  /** A path that can be followed to its end can be followed through every prefix, and
      its action number `k` is offered in the state the prefix of length `k` reaches. */
  lemma {:induction false} RunPrefix<S, A>(P: Problem<S, A>, s: S, path: seq<A>, k: nat)
    requires Run(P, s, path).Some? && k < |path|
    ensures Run(P, s, path[..k]).Some?
    ensures path[k] in P.actions(Run(P, s, path[..k]).value)
    ensures Run(P, s, path[..k + 1]) == Some(P.next(Run(P, s, path[..k]).value, path[k]))
    decreases |path|
  {
    var prefix := path[..|path| - 1];
    if k < |path| - 1 {
      RunPrefix(P, s, prefix, k);
      assert prefix[..k] == path[..k] && prefix[..k + 1] == path[..k + 1];
    } else {
      assert path[..k + 1] == path;
    }
  }

  /** `path` leads from the initial state to a target state. */
  ghost predicate Solves<S, A>(P: Problem<S, A>, path: seq<A>) {
    Run(P, P.initial, path).Some? && P.isTarget(Run(P, P.initial, path).value)
  }

  /** Every action offered in `s` leads into `visited`. */
  ghost predicate Expanded<S, A>(P: Problem<S, A>, visited: set<S>, s: S) {
    forall a :: a in P.actions(s) ==> P.next(s, a) in visited
  }

  /** `universe` is closed under the actions of the problem. */
  ghost predicate Closed<S, A>(P: Problem<S, A>, universe: set<S>) {
    forall s :: s in universe ==> Expanded(P, universe, s)
  }

  /** The reverse of a sequence (`std::reverse`). */
  function Reversed<T>(s: seq<T>): (r: seq<T>)
    ensures |r| == |s|
    decreases |s|
  {
    if s == [] then [] else Reversed(s[1..]) + [s[0]]
  }

  lemma {:induction false} ReversedIndex<T>(s: seq<T>, i: nat)
    requires i < |s|
    ensures Reversed(s)[i] == s[|s| - 1 - i]
    decreases |s|
  {
    if i < |s| - 1 {
      ReversedIndex(s[1..], i);
    }
  }

  /** Reversing twice gives the sequence back. */
  lemma ReversedTwice<T>(s: seq<T>)
    ensures Reversed(Reversed(s)) == s
  {
    forall i | 0 <= i < |s| ensures Reversed(Reversed(s))[i] == s[i] {
      ReversedIndex(Reversed(s), i);
      ReversedIndex(s, |s| - 1 - i);
    }
  }

  lemma ReversedSnoc<T>(s: seq<T>, x: T)
    ensures Reversed(s + [x]) == [x] + Reversed(s)
  {
    var r := s + [x];
    forall i | 0 <= i < |r| ensures Reversed(r)[i] == ([x] + Reversed(s))[i] {
      ReversedIndex(r, i);
      if i > 0 {
        ReversedIndex(s, i - 1);
      }
    }
  }

  /** The parent links: every linked state was reached from its parent by its action. */
  ghost predicate Linked<S, A>(p: map<S, (S, A)>, route: map<S, seq<A>>) {
    forall v {:trigger p[v]} :: v in p ==> v in route && p[v].0 in route && route[v] == route[p[v].0] + [p[v].1]
  }

  lemma EmptyPrefix<A>(r: seq<A>, s: seq<A>, whole: seq<A>)
    requires r == [] && r + s == whole
    ensures s == whole
  {
  }

  lemma RouteStep<A>(r: seq<A>, r0: seq<A>, a: A, collected: seq<A>, whole: seq<A>)
    requires r == r0 + [a] && r + Reversed(collected) == whole
    ensures r0 + Reversed(collected + [a]) == whole
  {
    ReversedSnoc(collected, a);
    assert r0 + ([a] + Reversed(collected)) == r + Reversed(collected);
  }

  /** The walk of lines 297-307: follow the parent links from `target` back to `start`,
      collecting the actions, and reverse them. With the links and the recorded routes this
      is the route recorded for `target`. */
  method ReconstructPath<S(==), A>(p: map<S, (S, A)>, start: S, target: S, ghost route: map<S, seq<A>>)
    returns (path: seq<A>)
    requires Linked(p, route) && target in route && start in route && route[start] == []
    requires forall v :: v in route && v != start ==> v in p
    ensures path == route[target]
  {
    var collected: seq<A> := [];
    var vIt := target;
    while vIt != start
      invariant vIt in route
      invariant route[vIt] + Reversed(collected) == route[target]
      decreases |route[vIt]|
    {
      if vIt !in p {
        assert false;
        break;
      }
      var parent := p[vIt];
      RouteStep(route[vIt], route[parent.0], parent.1, collected, route[target]);
      collected := collected + [parent.1];
      vIt := parent.0;
    }
    path := Reversed(collected);
    EmptyPrefix(route[vIt], path, route[target]);
  }

  /** The measure of the main loop goes down when something new was visited. */
  lemma Progress<T>(universe: set<T>, v0: set<T>, v1: set<T>)
    requires v0 <= v1 && v1 <= universe && v0 != v1
    ensures |universe - v1| < |universe - v0|
  {
    var x :| x in v1 && x !in v0;
    assert universe - v0 == (universe - v1) + (v1 - v0);
    assert (universe - v1) * (v1 - v0) == {};
    assert x in v1 - v0;
  }

  /** A set that holds the initial state and is closed under the actions holds every state
      a path reaches. */
  lemma {:induction false} ClosedHoldsRuns<S, A>(P: Problem<S, A>, visited: set<S>, path: seq<A>)
    requires P.initial in visited
    requires forall s :: s in visited ==> Expanded(P, visited, s)
    ensures Run(P, P.initial, path).Some? ==> Run(P, P.initial, path).value in visited
    decreases |path|
  {
    if path != [] {
      ClosedHoldsRuns(P, visited, path[..|path| - 1]);
    }
  }

  /** What the main loop keeps of the visited set, the parent links and the routes. */
  ghost predicate Recorded<S, A>(P: Problem<S, A>, universe: set<S>, visited: set<S>,
                                 p: map<S, (S, A)>, route: map<S, seq<A>>)
  {
    && visited <= universe
    && P.initial in visited
    && route.Keys == visited
    && route[P.initial] == []
    && (forall s :: s in route ==> Run(P, P.initial, route[s]) == Some(s))
    && Linked(p, route)
    && (forall v :: v in visited && v != P.initial ==> v in p)
  }

  /** Visiting `next`, reached from the visited `current` by the offered action `a`, keeps
      the records. */
  lemma RecordedAdd<S, A>(P: Problem<S, A>, universe: set<S>, visited: set<S>, p: map<S, (S, A)>,
                          route: map<S, seq<A>>, current: S, a: A)
    requires Recorded(P, universe, visited, p, route)
    requires current in visited && a in P.actions(current) && Expanded(P, universe, current)
    requires P.next(current, a) !in visited
    ensures var next := P.next(current, a);
      Recorded(P, universe, visited + {next}, p[next := (current, a)], route[next := route[current] + [a]])
  {
    RoutesAdd(P, route, current, a);
    LinksAdd(p, route, current, a, P.next(current, a));
  }

  lemma RoutesAdd<S, A>(P: Problem<S, A>, route: map<S, seq<A>>, current: S, a: A)
    requires forall s :: s in route ==> Run(P, P.initial, route[s]) == Some(s)
    requires current in route && a in P.actions(current)
    ensures var route' := route[P.next(current, a) := route[current] + [a]];
      forall s :: s in route' ==> Run(P, P.initial, route'[s]) == Some(s)
  {
    var next := P.next(current, a);
    var route' := route[next := route[current] + [a]];
    assert (route[current] + [a])[..|route[current]|] == route[current];
    assert Run(P, P.initial, route'[next]) == Some(next);
    forall s | s in route' ensures Run(P, P.initial, route'[s]) == Some(s) {
      if s != next {
        assert route'[s] == route[s];
      }
    }
  }

  lemma LinksAdd<S, A>(p: map<S, (S, A)>, route: map<S, seq<A>>, current: S, a: A, next: S)
    requires Linked(p, route) && current in route && next !in route
    ensures Linked(p[next := (current, a)], route[next := route[current] + [a]])
  {
    var p' := p[next := (current, a)];
    var route' := route[next := route[current] + [a]];
    forall v | v in p' ensures v in route' && p'[v].0 in route' && route'[v] == route'[p'[v].0] + [p'[v].1] {
      if v != next {
        assert p'[v] == p[v] && p[v].0 in route;
      }
    }
  }

  /** Every action offered in the recorded state `s` leads to a recorded state whose route
      is at most one action longer than that of `s`. */
  ghost predicate ExpandedNear<S, A>(P: Problem<S, A>, route: map<S, seq<A>>, s: S) {
    s in route &&
    forall a :: a in P.actions(s) ==> P.next(s, a) in route && |route[P.next(s, a)]| <= |route[s]| + 1
  }

  /** The layers of a breadth-first search: the queue holds recorded states in order of the
      lengths of their routes, which lie between `level` and `level + 1`, and no recorded
      route is longer than `level + 1`. */
  ghost predicate Layered<S, A>(route: map<S, seq<A>>, q: seq<S>, level: nat) {
    && (forall i :: 0 <= i < |q| ==> q[i] in route && level <= |route[q[i]]| <= level + 1)
    && (forall i, j :: 0 <= i < j < |q| ==> |route[q[i]]| <= |route[q[j]]|)
    && (forall s :: s in route ==> |route[s]| <= level + 1)
  }

  /** Taking the first state off the queue keeps the layers and leaves it to be expanded. */
  lemma QueuePop<S, A>(P: Problem<S, A>, route: map<S, seq<A>>, visited: set<S>, q: seq<S>)
    requires q != [] && q[0] in route && Layered(route, q, |route[q[0]]|)
    requires forall s :: s in visited ==> s in q || ExpandedNear(P, route, s)
    ensures Layered(route, q[1..], |route[q[0]]|)
    ensures forall s :: s in visited ==> s in q[1..] || s == q[0] || ExpandedNear(P, route, s)
  {
    forall s | s in visited && s in q && s != q[0] ensures s in q[1..] {
      var i :| 0 <= i < |q| && q[i] == s;
      assert q[1..][i - 1] == s;
    }
  }

  /** The next state in the queue fixes the level of the next round. */
  lemma QueueNext<S, A>(route: map<S, seq<A>>, q: seq<S>, level: nat)
    requires q != [] && Layered(route, q, level)
    ensures Layered(route, q, |route[q[0]]|)
  {
  }

  /** Recording a new state with a route one action longer than the level, and queueing it,
      keeps the layers and every expanded state expanded. */
  lemma QueuePush<S, A>(P: Problem<S, A>, route: map<S, seq<A>>, visited: set<S>, q: seq<S>, level: nat,
                        current: S, next: S, r: seq<A>)
    requires Layered(route, q, level) && route.Keys == visited && next !in route && |r| == level + 1
    requires forall s :: s in visited ==> s in q || s == current || ExpandedNear(P, route, s)
    ensures Layered(route[next := r], q + [next], level)
    ensures forall s :: s in visited + {next} ==>
      s in q + [next] || s == current || ExpandedNear(P, route[next := r], s)
  {
    var route', q' := route[next := r], q + [next];
    forall i | 0 <= i < |q'| ensures q'[i] in route' && level <= |route'[q'[i]]| <= level + 1 {
      if i < |q| {
        assert q'[i] == q[i] && q[i] != next;
      }
    }
    forall i, j | 0 <= i < j < |q'| ensures |route'[q'[i]]| <= |route'[q'[j]]| {
      assert q'[i] == q[i] && q[i] != next;
      if j < |q| {
        assert q'[j] == q[j] && q[j] != next;
      }
    }
    forall s | s in route && s !in q && s != current ensures ExpandedNear(P, route', s) {
      assert ExpandedNear(P, route, s);
    }
  }

  /** A path no longer than the level reaches a recorded state whose route is no longer
      than the path: the states with shorter routes than the level have all been
      expanded. */
  lemma {:induction false} NearRoutes<S, A>(P: Problem<S, A>, route: map<S, seq<A>>, q: seq<S>, current: S,
                                            level: nat, path: seq<A>)
    requires P.initial in route && route[P.initial] == []
    requires forall s :: s in route ==> s in q || s == current || ExpandedNear(P, route, s)
    requires forall i :: 0 <= i < |q| ==> q[i] in route && level <= |route[q[i]]|
    requires current in route && |route[current]| == level
    requires |path| <= level && Run(P, P.initial, path).Some?
    ensures Run(P, P.initial, path).value in route
    ensures |route[Run(P, P.initial, path).value]| <= |path|
    decreases |path|
  {
    if path != [] {
      var prefix := path[..|path| - 1];
      NearRoutes(P, route, q, current, level, prefix);
      var u := Run(P, P.initial, prefix).value;
      assert u !in q;
      assert ExpandedNear(P, route, u);
    }
  }

  /** No path solving the problem is shorter than `path`. */
  ghost predicate NoneShorter<S, A(!new)>(P: Problem<S, A>, path: seq<A>) {
    forall path' :: Solves(P, path') ==> |path| <= |path'|
  }

  /** When a target is first met on a route one action longer than the level, no path of at
      most `level` actions solves the problem. */
  lemma NoShorterSolution<S, A(!new)>(P: Problem<S, A>, universe: set<S>, visited: set<S>, q: seq<S>,
                                p: map<S, (S, A)>, route: map<S, seq<A>>, current: S, level: nat,
                                found: seq<A>)
    requires SearchInv(P, universe, visited, q, p, route)
    requires forall s :: s in visited ==> s in q || s == current || ExpandedNear(P, route, s)
    requires Layered(route, q, level) && current in route && |route[current]| == level
    requires |found| == level + 1
    ensures NoneShorter(P, found)
  {
    forall path | |path| <= level ensures !Solves(P, path) {
      if Run(P, P.initial, path).Some? {
        NearRoutes(P, route, q, current, level, path);
      }
    }
  }

  /** An expanded state of the routes is expanded in the visited set they cover. */
  lemma NearIsExpanded<S, A>(P: Problem<S, A>, visited: set<S>, route: map<S, seq<A>>)
    requires route.Keys == visited
    requires forall s :: s in visited ==> ExpandedNear(P, route, s)
    ensures forall s :: s in visited ==> Expanded(P, visited, s)
  {
    forall s | s in visited ensures Expanded(P, visited, s) {
      assert ExpandedNear(P, route, s);
    }
  }

  /** The invariant of the main loop. */
  ghost predicate SearchInv<S, A>(P: Problem<S, A>, universe: set<S>, visited: set<S>, q: seq<S>,
                                         p: map<S, (S, A)>, route: map<S, seq<A>>)
  {
    && Recorded(P, universe, visited, p, route)
    && (forall s :: s in visited ==> !P.isTarget(s))
    && (forall i :: 0 <= i < |q| ==> q[i] in visited)
  }

  /** The invariant of the loop over the actions offered in `current`: `v0` and `q0` are
      the visited set and the queue when `current` was dequeued, `level` is the length of
      its route, and the actions before `j` have been handled. */
  ghost predicate ActionsInv<S, A>(P: Problem<S, A>, universe: set<S>, v0: set<S>, q0: seq<S>, current: S,
                                   level: nat, acts: seq<A>, j: nat, visited: set<S>, q: seq<S>,
                                   p: map<S, (S, A)>, route: map<S, seq<A>>)
  {
    && j <= |acts|
    && SearchInv(P, universe, visited, q, p, route)
    && v0 <= visited && (visited == v0 ==> q == q0)
    && current in visited && Expanded(P, universe, current)
    && |route[current]| == level && Layered(route, q, level)
    && (forall s :: s in visited ==> s in q || s == current || ExpandedNear(P, route, s))
    && (forall k :: 0 <= k < j ==> P.next(current, acts[k]) in visited)
  }

  /** An action leading to a visited state changes nothing. */
  lemma ActionsSkip<S, A>(P: Problem<S, A>, universe: set<S>, v0: set<S>, q0: seq<S>, current: S,
                          level: nat, acts: seq<A>, j: nat, visited: set<S>, q: seq<S>,
                          p: map<S, (S, A)>, route: map<S, seq<A>>)
    requires ActionsInv(P, universe, v0, q0, current, level, acts, j, visited, q, p, route)
    requires j < |acts| && P.next(current, acts[j]) in visited
    ensures ActionsInv(P, universe, v0, q0, current, level, acts, j + 1, visited, q, p, route)
  {
  }

  /** An action leading to a new state that is not a target visits and queues it. */
  lemma ActionsAdd<S, A>(P: Problem<S, A>, universe: set<S>, v0: set<S>, q0: seq<S>, current: S,
                         level: nat, acts: seq<A>, j: nat, visited: set<S>, q: seq<S>,
                         p: map<S, (S, A)>, route: map<S, seq<A>>)
    requires ActionsInv(P, universe, v0, q0, current, level, acts, j, visited, q, p, route)
    requires acts == P.actions(current)
    requires j < |acts| && P.next(current, acts[j]) !in visited && !P.isTarget(P.next(current, acts[j]))
    ensures var next := P.next(current, acts[j]);
      ActionsInv(P, universe, v0, q0, current, level, acts, j + 1, visited + {next}, q + [next],
                 p[next := (current, acts[j])], route[next := route[current] + [acts[j]]])
  {
    var next := P.next(current, acts[j]);
    var visited', q', p', route' := visited + {next}, q + [next], p[next := (current, acts[j])], route[next := route[current] + [acts[j]]];
    RecordedAdd(P, universe, visited, p, route, current, acts[j]);
    QueuePush(P, route, visited, q, level, current, next, route[current] + [acts[j]]);
    forall i | 0 <= i < |q'| ensures q'[i] in visited' {
      if i < |q| {
        assert q'[i] == q[i];
      }
    }
  }

  /** After the loop over the actions `current` is expanded. */
  lemma ActionsDone<S, A>(P: Problem<S, A>, universe: set<S>, v0: set<S>, q0: seq<S>, current: S,
                          level: nat, acts: seq<A>, visited: set<S>, q: seq<S>,
                          p: map<S, (S, A)>, route: map<S, seq<A>>)
    requires ActionsInv(P, universe, v0, q0, current, level, acts, |acts|, visited, q, p, route)
    requires acts == P.actions(current)
    ensures SearchInv(P, universe, visited, q, p, route)
    ensures forall s :: s in visited ==> s in q || ExpandedNear(P, route, s)
  {
    forall a | a in P.actions(current) ensures P.next(current, a) in visited {
      var k :| 0 <= k < |acts| && acts[k] == a;
    }
    assert ExpandedNear(P, route, current);
  }

  /** `solve` (lines 272-313): breadth-first search from the initial state with a FIFO
      queue, a visited set and parent links. `universe` is a finite set of states closed
      under the actions; it bounds the search and is not used by it. A returned path is a
      shortest one: the queue holds states in order of distance from the initial state, so
      every state of a shorter path was visited before, and none was a target. */
  method Solve<S(==), A(==, !new)>(P: Problem<S, A>, ghost universe: set<S>) returns (r: Option<seq<A>>)
    requires P.initial in universe && Closed(P, universe)
    ensures r == Some([]) <==> P.isTarget(P.initial)
    ensures r.Some? ==> Solves(P, r.value)
    ensures r.Some? ==> NoneShorter(P, r.value)
    ensures r.None? ==> forall path :: !Solves(P, path)
  {
    var visited: set<S> := {};
    var q: seq<S> := [];
    var p: map<S, (S, A)> := map[];
    var start := P.initial;
    q := q + [start];
    visited := visited + {start};
    if P.isTarget(start) {
      return Some([]);
    }
    ghost var route: map<S, seq<A>> := map[start := []];
    while q != []
      invariant SearchInv(P, universe, visited, q, p, route)
      invariant q != [] ==> Layered(route, q, |route[q[0]]|)
      invariant forall s :: s in visited ==> s in q || ExpandedNear(P, route, s)
      decreases |universe - visited|, |q|
    {
      var current := q[0];
      ghost var level := |route[current]|;
      QueuePop(P, route, visited, q);
      q := q[1..];
      ghost var v0, q0 := visited, q;
      var acts := P.actions(current);
      assert Expanded(P, universe, current);
      for j := 0 to |acts|
        invariant ActionsInv(P, universe, v0, q0, current, level, acts, j, visited, q, p, route)
      {
        var next := P.next(current, acts[j]);
        if next in visited {
          ActionsSkip(P, universe, v0, q0, current, level, acts, j, visited, q, p, route);
        } else {
          if !P.isTarget(next) {
            ActionsAdd(P, universe, v0, q0, current, level, acts, j, visited, q, p, route);
          } else {
            NoShorterSolution(P, universe, visited, q, p, route, current, level, route[current] + [acts[j]]);
            RecordedAdd(P, universe, visited, p, route, current, acts[j]);
          }
          visited := visited + {next};
          p := p[next := (current, acts[j])];
          route := route[next := route[current] + [acts[j]]];
          if P.isTarget(next) {
            var path := ReconstructPath(p, start, next, route);
            return Some(path);
          }
          q := q + [next];
        }
      }
      ActionsDone(P, universe, v0, q0, current, level, acts, visited, q, p, route);
      if q != [] {
        QueueNext(route, q, level);
      }
      if visited != v0 {
        Progress(universe, v0, visited);
      }
    }
    NearIsExpanded(P, visited, route);
    forall path ensures !Solves(P, path) {
      ClosedHoldsRuns(P, visited, path);
    }
    return None;
  }
}
