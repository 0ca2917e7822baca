/**
 * `SuperstitiousHero` of minipt1/minipt1_2/main.cpp: the lost hero again, but every fifth
 * move (counting from 1) must be a move up. The state adds the number of moves made so
 * far modulo 5.
 */
module SuperstitiousHero {
  import opened Wrappers
  import opened Mazes
  import opened StateSpace
  import LostHero

  datatype State = State(position: Position, movesDoneMod5: nat)

  /** `initial_state` (lines 351-353). */
  function InitialState(start: Position): State {
    State(start, 0)
  }

  /** The actions `possible_actions` offers: only Up, when it is valid, if the next move is
      a fifth one, otherwise every valid direction. */
  function Actions(maze: Maze, v: State): (r: seq<Direction>)
    ensures v.movesDoneMod5 == 4 ==> forall d :: d in r <==> d == Up && IsValidMove(maze, PerformMove(v.position, Up))
    ensures v.movesDoneMod5 != 4 ==> forall d :: d in r <==> IsValidMove(maze, PerformMove(v.position, d))
  {
    if v.movesDoneMod5 == 4 then
      if IsValidMove(maze, PerformMove(v.position, Up)) then [Up] else []
    else
      LostHero.OrderComplete();
      LostHero.ValidDirections(maze, v.position, LostHero.Order)
  }

  /** `possible_actions` (lines 355-369). */
  method PossibleActions(maze: Maze, v: State) returns (actions: seq<Direction>)
    ensures actions == Actions(maze, v)
  {
    actions := [];
    if v.movesDoneMod5 == 4 {
      if IsValidMove(maze, PerformMove(v.position, Up)) {
        actions := actions + [Up];
      }
      return;
    }
    var order := LostHero.Order;
    for i := 0 to |order|
      invariant actions == LostHero.ValidDirections(maze, v.position, order[..i])
    {
      var d := order[i];
      if IsValidMove(maze, PerformMove(v.position, d)) {
        actions := actions + [d];
      }
      assert order[..i + 1][..i] == order[..i];
    }
    assert order[..|order|] == order;
  }

  /** `next_state` (lines 371-373): the step, and one more move modulo 5. */
  function NextState(v: State, a: Direction): (r: State)
    ensures r.position == PerformMove(v.position, a)
    ensures r.movesDoneMod5 < 5 && r.movesDoneMod5 == (v.movesDoneMod5 + 1) % 5
  {
    State(PerformMove(v.position, a), (v.movesDoneMod5 + 1) % 5)
  }

  /** The search problem (lines 326-390); `is_target` (lines 375-377) tests the tile. */
  function AsProblem(maze: Maze, start: Position): Problem<State, Direction> {
    Problem(InitialState(start), (v: State) => IsExit(maze, v.position), (v: State) => Actions(maze, v), NextState)
  }

  /** The rule a returned path is held to: every step lands on a tile inside the maze that
      is not a wall, and the moves numbered 5, 10, 15, ... are moves up. The position
      reached, or None when some step breaks the rule. */
  function Walk(maze: Maze, start: Position, path: seq<Direction>): Option<Position>
    decreases |path|
  {
    if path == [] then Some(start)
    else
      var d := path[|path| - 1];
      match Walk(maze, start, path[..|path| - 1])
      case None => None
      case Some(p) =>
        if |path| % 5 == 0 && d != Up then None
        else if IsValidMove(maze, PerformMove(p, d)) then Some(PerformMove(p, d))
        else None
  }

  /** One more move advances the count modulo 5; the move numbered `n` is a fifth one
      exactly when `n - 1` moves leave the count at 4. */
  lemma CountStep(n: nat)
    requires n >= 1
    ensures ((n - 1) % 5 + 1) % 5 == n % 5
    ensures (n - 1) % 5 == 4 <==> n % 5 == 0
  {
    var q, r := (n - 1) / 5, (n - 1) % 5;
    assert n == 5 * q + r + 1;
    if r == 4 {
      assert n == 5 * (q + 1);
    } else {
      assert n % 5 == r + 1;
    }
  }

  /** The state of a hero standing at the end of a walk of `n` moves. */
  function Counted(w: Option<Position>, n: nat): Option<State> {
    match w
    case None => None
    case Some(p) => Some(State(p, n % 5))
  }

  /** Running the search problem is walking by the rule, and the state counts the moves
      made modulo 5. */
  lemma {:induction false} RunIsWalk(maze: Maze, start: Position, path: seq<Direction>)
    ensures Run(AsProblem(maze, start), InitialState(start), path) == Counted(Walk(maze, start, path), |path|)
    decreases |path|
  {
    if path != [] {
      var n := |path|;
      var prefix := path[..n - 1];
      RunIsWalk(maze, start, prefix);
      var d := path[n - 1];
      if Walk(maze, start, prefix).Some? {
        var p := Walk(maze, start, prefix).value;
        ActionAt(maze, p, n, d);
      }
    }
  }

  /** The move numbered `n` from `p`, as the search offers and performs it. */
  lemma ActionAt(maze: Maze, p: Position, n: nat, d: Direction)
    requires n >= 1
    ensures d in Actions(maze, State(p, (n - 1) % 5)) <==> !(n % 5 == 0 && d != Up) && IsValidMove(maze, PerformMove(p, d))
    ensures NextState(State(p, (n - 1) % 5), d) == State(PerformMove(p, d), n % 5)
  {
    CountStep(n);
  }

  /** The fifth, tenth, ... move of every path the search can follow is a move up. */
  lemma {:induction false} EveryFifthMoveUp(maze: Maze, start: Position, path: seq<Direction>, k: nat)
    requires Run(AsProblem(maze, start), InitialState(start), path).Some?
    requires k < |path| && (k + 1) % 5 == 0
    ensures path[k] == Up
    decreases |path|
  {
    RunIsWalk(maze, start, path);
    if k < |path| - 1 {
      var prefix := path[..|path| - 1];
      RunIsWalk(maze, start, prefix);
      EveryFifthMoveUp(maze, start, prefix, k);
    }
  }

  /** The states the search can reach: positions inside the maze or the start, with a
      move count below 5. */
  ghost function Universe(maze: Maze, start: Position): set<State> {
    set p, m | p in Cells(maze) + {start} && 0 <= m < 5 :: State(p, m)
  }

  lemma UniverseClosed(maze: Maze, start: Position)
    ensures InitialState(start) in Universe(maze, start)
    ensures Closed(AsProblem(maze, start), Universe(maze, start))
  {
    var P := AsProblem(maze, start);
    var U := Universe(maze, start);
    forall v | v in U ensures Expanded(P, U, v) {
      forall a | a in P.actions(v) ensures P.next(v, a) in U {
        var w := NextState(v, a);
        assert w.position in Cells(maze);
        assert w == State(w.position, w.movesDoneMod5);
      }
    }
  }

  /** `solve(SuperstitiousHero(maze, start))`: a shortest walk by the rule from `start` to an exit,
      the empty walk exactly when the hero starts on an exit, and nothing only when no walk
      by the rule reaches an exit. */
  method Solve(maze: Maze, start: Position) returns (r: Option<seq<Direction>>)
    ensures r == Some([]) <==> IsExit(maze, start)
    ensures r.Some? ==> Walk(maze, start, r.value).Some? && IsExit(maze, Walk(maze, start, r.value).value)
    ensures r.Some? ==> forall path :: Walk(maze, start, path).Some? && IsExit(maze, Walk(maze, start, path).value) ==>
      |r.value| <= |path|
    ensures r.None? ==> forall path :: Walk(maze, start, path).Some? ==> !IsExit(maze, Walk(maze, start, path).value)
  {
    UniverseClosed(maze, start);
    r := StateSpace.Solve(AsProblem(maze, start), Universe(maze, start));
    if r.Some? {
      RunIsWalk(maze, start, r.value);
      forall path | Walk(maze, start, path).Some? && IsExit(maze, Walk(maze, start, path).value) ensures |r.value| <= |path| {
        RunIsWalk(maze, start, path);
        assert Solves(AsProblem(maze, start), path);
      }
    } else {
      forall path | Walk(maze, start, path).Some? ensures !IsExit(maze, Walk(maze, start, path).value) {
        RunIsWalk(maze, start, path);
        assert !Solves(AsProblem(maze, start), path);
      }
    }
  }
}
