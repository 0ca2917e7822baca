/**
 * `LostHero` of minipt1/minipt1_2/main.cpp: the hero walks through the maze one tile at a
 * time and looks for an exit; the state is the hero's position.
 */
module LostHero {
  import opened Wrappers
  import opened Mazes
  import opened StateSpace

  /** The order in which `possible_actions` tries the directions (line 241). */
  const Order: seq<Direction> := [Down, Up, Right, Left]

  /** Every direction is tried. */
  lemma OrderComplete()
    ensures forall d: Direction :: d in Order
  {
    forall d: Direction ensures d in Order {
      match d
      case Down => assert Order[0] == d;
      case Up => assert Order[1] == d;
      case Right => assert Order[2] == d;
      case Left => assert Order[3] == d;
    }
  }

  /** The directions of `ds`, in order, whose step from `v` is valid. */
  function ValidDirections(maze: Maze, v: Position, ds: seq<Direction>): (r: seq<Direction>)
    ensures forall d :: d in r <==> d in ds && IsValidMove(maze, PerformMove(v, d))
    decreases |ds|
  {
    if ds == [] then []
    else
      var d := ds[|ds| - 1];
      ValidDirections(maze, v, ds[..|ds| - 1]) + (if IsValidMove(maze, PerformMove(v, d)) then [d] else [])
  }

  /** Trying one more direction appends it when its step is valid. */
  lemma ValidDirectionsSnoc(maze: Maze, v: Position, ds: seq<Direction>, d: Direction)
    ensures ValidDirections(maze, v, ds + [d]) ==
      ValidDirections(maze, v, ds) + (if IsValidMove(maze, PerformMove(v, d)) then [d] else [])
  {
    assert (ds + [d])[..|ds|] == ds;
  }

  /** `possible_actions` (lines 237-252). */
  method PossibleActions(maze: Maze, v: Position) returns (ret: seq<Direction>)
    ensures ret == ValidDirections(maze, v, Order)
    ensures forall d :: d in ret <==> IsValidMove(maze, PerformMove(v, d))
  {
    ret := [];
    for i := 0 to |Order|
      invariant ret == ValidDirections(maze, v, Order[..i])
    {
      var d := Order[i];
      var next := PerformMove(v, d);
      if IsValidMove(maze, next) {
        ret := ret + [d];
      }
      assert Order[..i + 1] == Order[..i] + [d];
      ValidDirectionsSnoc(maze, v, Order[..i], d);
    }
    assert Order[..|Order|] == Order;
    OrderComplete();
  }

  /** The search problem (lines 219-259): `initial_state`, `is_target`,
      `possible_actions` and `next_state`. */
  function AsProblem(maze: Maze, hero: Position): Problem<Position, Direction> {
    Problem(hero, p => IsExit(maze, p), p => ValidDirections(maze, p, Order), (p, d) => PerformMove(p, d))
  }

  /** The rule a returned path is held to: every step lands on a tile inside the maze that
      is not a wall. The position reached, or None when some step breaks the rule. */
  function Walk(maze: Maze, hero: Position, path: seq<Direction>): Option<Position>
    decreases |path|
  {
    if path == [] then Some(hero)
    else
      match Walk(maze, hero, path[..|path| - 1])
      case None => None
      case Some(p) =>
        var next := PerformMove(p, path[|path| - 1]);
        if IsValidMove(maze, next) then Some(next) else None
  }

  /** Running the search problem is walking by the rule. */
  lemma {:induction false} RunIsWalk(maze: Maze, hero: Position, path: seq<Direction>)
    ensures Run(AsProblem(maze, hero), hero, path) == Walk(maze, hero, path)
    decreases |path|
  {
    if path != [] {
      RunIsWalk(maze, hero, path[..|path| - 1]);
      OrderComplete();
    }
  }

  /** Every state the search can reach lies in the maze, apart from the start. */
  lemma UniverseClosed(maze: Maze, hero: Position)
    ensures Closed(AsProblem(maze, hero), Cells(maze) + {hero})
  {
  }

  /** `solve(LostHero(maze, hero))`: a shortest walk by the rule from `hero` to an exit,
      the empty walk exactly when the hero starts on an exit, and nothing only when no walk
      by the rule reaches an exit. */
  method Solve(maze: Maze, hero: Position) returns (r: Option<seq<Direction>>)
    ensures r == Some([]) <==> IsExit(maze, hero)
    ensures r.Some? ==> Walk(maze, hero, r.value).Some? && IsExit(maze, Walk(maze, hero, r.value).value)
    ensures r.Some? ==> forall path :: Walk(maze, hero, path).Some? && IsExit(maze, Walk(maze, hero, path).value) ==>
      |r.value| <= |path|
    ensures r.None? ==> forall path :: Walk(maze, hero, path).Some? ==> !IsExit(maze, Walk(maze, hero, path).value)
  {
    UniverseClosed(maze, hero);
    r := StateSpace.Solve(AsProblem(maze, hero), Cells(maze) + {hero});
    if r.Some? {
      RunIsWalk(maze, hero, r.value);
      forall path | Walk(maze, hero, path).Some? && IsExit(maze, Walk(maze, hero, path).value) ensures |r.value| <= |path| {
        RunIsWalk(maze, hero, path);
        assert Solves(AsProblem(maze, hero), path);
      }
    } else {
      forall path | Walk(maze, hero, path).Some? ensures !IsExit(maze, Walk(maze, hero, path).value) {
        RunIsWalk(maze, hero, path);
        assert !Solves(AsProblem(maze, hero), path);
      }
    }
  }
}
