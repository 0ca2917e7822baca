/**
 * `LimpingKnight` of minipt1/minipt1_2/main.cpp: the hero steps to adjacent tiles, rests,
 * or jumps like a chess knight (over walls), but at most once every 8 moves. The state
 * adds the number of moves left before the next jump is allowed.
 */
module LimpingKnight {
  import opened Wrappers
  import opened Mazes
  import opened StateSpace

  /** `LimpingKnightAction` (lines 162-173). */
  datatype LimpingKnightAction =
    | Rest | Up | Down | Left | Right
    | UpUpLeft | UpUpRight | DownDownLeft | DownDownRight
    | LeftLeftUp | LeftLeftDown | RightRightUp | RightRightDown

  /** `is_knight_move` (lines 175-187). */
  predicate IsKnightMove(a: LimpingKnightAction) {
    match a
    case Rest | Up | Down | Left | Right => false
    case _ => true
  }

  /** `perform_move` for a knight action (lines 189-208), with `size_t` wrap-around. */
  function PerformKnightMove(p: Position, a: LimpingKnightAction): Position {
    var r, c := p.row, p.col;
    match a
    case Rest => Position(r, c)
    case Up => Position(Wrap(r - 1), c)
    case Down => Position(Wrap(r + 1), c)
    case Left => Position(r, Wrap(c - 1))
    case Right => Position(r, Wrap(c + 1))
    case UpUpLeft => Position(Wrap(r - 2), Wrap(c - 1))
    case UpUpRight => Position(Wrap(r - 2), Wrap(c + 1))
    case DownDownLeft => Position(Wrap(r + 2), Wrap(c - 1))
    case DownDownRight => Position(Wrap(r + 2), Wrap(c + 1))
    case LeftLeftUp => Position(Wrap(r - 1), Wrap(c - 2))
    case LeftLeftDown => Position(Wrap(r + 1), Wrap(c - 2))
    case RightRightUp => Position(Wrap(r - 1), Wrap(c + 2))
    case RightRightDown => Position(Wrap(r + 1), Wrap(c + 2))
  }

  /** Away from the edges of the coordinate range, the knight actions are exactly the
      L-shaped jumps (three tiles apart, neither in a row nor in a column) and every other
      action moves at most one tile. */
  lemma KnightMoveShape(p: Position, a: LimpingKnightAction)
    requires 2 <= p.row < SIZE_T_MODULUS - 2 && 2 <= p.col < SIZE_T_MODULUS - 2
    ensures var q := PerformKnightMove(p, a);
      IsKnightMove(a) <==> Distance(p, q) == 3 && q.row != p.row && q.col != p.col
    ensures !IsKnightMove(a) ==> Distance(p, PerformKnightMove(p, a)) <= 1
  {
  }

  /** The single steps tried by `possible_actions` (line 423) and the jumps it tries
      (the member `actions`, lines 456-459), in order. */
  const Steps: seq<LimpingKnightAction> :=
    [LimpingKnightAction.Up, LimpingKnightAction.Down, LimpingKnightAction.Left, LimpingKnightAction.Right]
  const Jumps: seq<LimpingKnightAction> :=
    [UpUpLeft, UpUpRight, DownDownLeft, DownDownRight, LeftLeftUp, LeftLeftDown, RightRightUp, RightRightDown]

  /** The list of jumps holds exactly the knight actions. */
  lemma JumpsAreKnightMoves()
    ensures forall a :: a in Jumps <==> IsKnightMove(a)
    ensures forall a :: a in Steps <==> a != Rest && !IsKnightMove(a)
  {
    forall a ensures (a in Jumps <==> IsKnightMove(a)) && (a in Steps <==> a != Rest && !IsKnightMove(a)) {
      match a
      case Up => assert Steps[0] == a;
      case Down => assert Steps[1] == a;
      case Left => assert Steps[2] == a;
      case Right => assert Steps[3] == a;
      case UpUpLeft => assert Jumps[0] == a;
      case UpUpRight => assert Jumps[1] == a;
      case DownDownLeft => assert Jumps[2] == a;
      case DownDownRight => assert Jumps[3] == a;
      case LeftLeftUp => assert Jumps[4] == a;
      case LeftLeftDown => assert Jumps[5] == a;
      case RightRightUp => assert Jumps[6] == a;
      case RightRightDown => assert Jumps[7] == a;
      case Rest =>
    }
  }

  /** `isKnightAction` (lines 461-467): a linear search through the list of jumps. */
  method IsKnightAction(action: LimpingKnightAction) returns (b: bool)
    ensures b == IsKnightMove(action)
  {
    JumpsAreKnightMoves();
    for i := 0 to |Jumps|
      invariant action !in Jumps[..i]
    {
      if Jumps[i] == action {
        return true;
      }
    }
    assert Jumps[..|Jumps|] == Jumps;
    return false;
  }

  datatype State = State(currentPosition: Position, cooldown: nat)

  /** `initial_state` (lines 415-417). */
  function InitialState(start: Position): State {
    State(start, 0)
  }

  /** The actions of `cands`, in order, whose move from `p` is valid. */
  function ValidAmong(maze: Maze, p: Position, cands: seq<LimpingKnightAction>): seq<LimpingKnightAction>
    decreases |cands|
  {
    if cands == [] then []
    else
      var a := cands[|cands| - 1];
      ValidAmong(maze, p, cands[..|cands| - 1]) + (if IsValidMove(maze, PerformKnightMove(p, a)) then [a] else [])
  }

  lemma {:induction false} ValidAmongMeaning(maze: Maze, p: Position, cands: seq<LimpingKnightAction>, a: LimpingKnightAction)
    ensures a in ValidAmong(maze, p, cands) <==> a in cands && IsValidMove(maze, PerformKnightMove(p, a))
    decreases |cands|
  {
    if cands != [] {
      ValidAmongMeaning(maze, p, cands[..|cands| - 1], a);
      assert cands == cands[..|cands| - 1] + [cands[|cands| - 1]];
    }
  }

  /** The actions `possible_actions` offers, in its order. */
  function Actions(maze: Maze, v: State): seq<LimpingKnightAction> {
    [Rest] + ValidAmong(maze, v.currentPosition, Steps)
           + (if v.cooldown == 0 then ValidAmong(maze, v.currentPosition, Jumps) else [])
  }

  /** Resting is always offered; a step is offered when it is valid; a jump is offered when
      it is valid and the cooldown is over. */
  lemma ActionsMeaning(maze: Maze, v: State, a: LimpingKnightAction)
    ensures a in Actions(maze, v) <==>
      a == Rest || (IsValidMove(maze, PerformKnightMove(v.currentPosition, a)) && (IsKnightMove(a) ==> v.cooldown == 0))
  {
    JumpsAreKnightMoves();
    ValidAmongMeaning(maze, v.currentPosition, Steps, a);
    ValidAmongMeaning(maze, v.currentPosition, Jumps, a);
  }

  /** The loops of `possible_actions` (lines 422-435): append every action of `cands`
      whose move from `p` is valid. */
  method AppendValid(maze: Maze, p: Position, cands: seq<LimpingKnightAction>, acc: seq<LimpingKnightAction>)
    returns (actions: seq<LimpingKnightAction>)
    ensures actions == acc + ValidAmong(maze, p, cands)
  {
    actions := acc;
    for i := 0 to |cands|
      invariant actions == acc + ValidAmong(maze, p, cands[..i])
    {
      var d := cands[i];
      var newPos := PerformKnightMove(p, d);
      if IsValidMove(maze, newPos) {
        actions := actions + [d];
      }
      assert cands[..i + 1][..i] == cands[..i];
    }
    assert cands[..|cands|] == cands;
  }

  /** `possible_actions` (lines 419-437). */
  method PossibleActions(maze: Maze, v: State) returns (actions: seq<LimpingKnightAction>)
    ensures actions == Actions(maze, v)
  {
    actions := [Rest];
    actions := AppendValid(maze, v.currentPosition, Steps, actions);
    if v.cooldown == 0 {
      actions := AppendValid(maze, v.currentPosition, Jumps, actions);
    }
  }

  /** `next_state` (lines 439-447): a jump sets the cooldown to 8, and every move then
      takes one off it, down to 0; so a jump leaves 7 moves to wait. */
  function NextState(v: State, a: LimpingKnightAction): (r: State)
    ensures r.currentPosition == PerformKnightMove(v.currentPosition, a)
    ensures IsKnightMove(a) ==> r.cooldown == 7
    ensures !IsKnightMove(a) ==> r.cooldown == if v.cooldown >= 1 then v.cooldown - 1 else 0
  {
    var nextPos := PerformKnightMove(v.currentPosition, a);
    var newCooldown := if IsKnightMove(a) then 8 else v.cooldown;
    State(nextPos, if newCooldown >= 1 then newCooldown - 1 else 0)
  }

  /** The search problem (lines 402-478); `is_target` (lines 449-451) tests the tile. */
  function AsProblem(maze: Maze, start: Position): Problem<State, LimpingKnightAction> {
    Problem(InitialState(start), (v: State) => IsExit(maze, v.currentPosition), (v: State) => Actions(maze, v), NextState)
  }

  /** The states the search can reach: the start or a position inside the maze, with a
      cooldown of at most 7. */
  ghost function Universe(maze: Maze, start: Position): set<State> {
    set p, c | p in Cells(maze) + {start} && 0 <= c <= 7 :: State(p, c)
  }

  lemma UniverseClosed(maze: Maze, start: Position)
    ensures InitialState(start) in Universe(maze, start)
    ensures Closed(AsProblem(maze, start), Universe(maze, start))
  {
    var P := AsProblem(maze, start);
    var U := Universe(maze, start);
    forall v | v in U ensures Expanded(P, U, v) {
      forall a | a in P.actions(v) ensures P.next(v, a) in U {
        ActionsMeaning(maze, v, a);
        var w := NextState(v, a);
        assert w.currentPosition in Cells(maze) + {start};
        assert w == State(w.currentPosition, w.cooldown);
      }
    }
  }

  /** The cooldown never exceeds 7 along any path the search can follow. */
  lemma CooldownBound(maze: Maze, start: Position, path: seq<LimpingKnightAction>)
    requires Run(AsProblem(maze, start), InitialState(start), path).Some?
    ensures Run(AsProblem(maze, start), InitialState(start), path).value.cooldown <= 7
  {
    var P := AsProblem(maze, start);
    UniverseClosed(maze, start);
    ClosedHoldsRuns(P, Universe(maze, start), path);
  }

  /** After a jump at move `i`, the cooldown counts down from 7, one per move. */
  lemma {:induction false} CooldownAfterJump(maze: Maze, start: Position, path: seq<LimpingKnightAction>, i: nat, k: nat)
    requires Run(AsProblem(maze, start), InitialState(start), path).Some?
    requires i < k <= |path| && k <= i + 8 && IsKnightMove(path[i])
    ensures Run(AsProblem(maze, start), InitialState(start), path[..k]).Some?
    ensures Run(AsProblem(maze, start), InitialState(start), path[..k]).value.cooldown >= 8 - (k - i)
    decreases k
  {
    var P := AsProblem(maze, start);
    var s := InitialState(start);
    RunPrefix(P, s, path, k - 1);
    var u := Run(P, s, path[..k - 1]).value;
    var w := NextState(u, path[k - 1]);
    assert Run(P, s, path[..k]) == Some(w);
    if k > i + 1 {
      CooldownAfterJump(maze, start, path, i, k - 1);
      ActionsMeaning(maze, u, path[k - 1]);
      assert u.cooldown >= 1 && !IsKnightMove(path[k - 1]);
    }
  }

  /** Two jumps on a path the search can follow are at least 8 moves apart, the rule of
      the problem statement (lines 394-400). */
  lemma JumpsAreSpaced(maze: Maze, start: Position, path: seq<LimpingKnightAction>, i: nat, j: nat)
    requires Run(AsProblem(maze, start), InitialState(start), path).Some?
    requires i < j < |path| && IsKnightMove(path[i]) && IsKnightMove(path[j])
    ensures j >= i + 8
  {
    if j < i + 8 {
      CooldownAfterJump(maze, start, path, i, j);
      RunPrefix(AsProblem(maze, start), InitialState(start), path, j);
      ActionsMeaning(maze, Run(AsProblem(maze, start), InitialState(start), path[..j]).value, path[j]);
    }
  }

  /** The rule a returned path is held to, with the jump counter of the check it must pass:
      a move first takes one off the counter (down to 0), a jump needs the counter at 0
      and sets it to 8, and every move, resting included, must end on a tile inside the
      maze that is not a wall. The position and the counter reached, or None. */
  function Walk(maze: Maze, start: Position, path: seq<LimpingKnightAction>): Option<(Position, nat)>
    decreases |path|
  {
    if path == [] then Some((start, 0))
    else
      var a := path[|path| - 1];
      match Walk(maze, start, path[..|path| - 1])
      case None => None
      case Some((p, counter)) =>
        var counter' := if counter > 0 then counter - 1 else 0;
        var q := PerformKnightMove(p, a);
        if counter' != 0 && IsKnightMove(a) then None
        else if !IsValidMove(maze, q) then None
        else Some((q, if IsKnightMove(a) then 8 else counter'))
  }

  /** The search state that corresponds to a position and a counter of the rule. */
  function AsState(w: Option<(Position, nat)>): Option<State> {
    match w
    case None => None
    case Some((p, counter)) => Some(State(p, if counter >= 1 then counter - 1 else 0))
  }

  /** From a start inside the maze on a free tile, running the search problem is walking
      by the rule; the search's cooldown is the rule's counter less one. */
  lemma {:induction false} RunIsWalk(maze: Maze, start: Position, path: seq<LimpingKnightAction>)
    requires IsValidMove(maze, start)
    ensures Run(AsProblem(maze, start), InitialState(start), path) == AsState(Walk(maze, start, path))
    ensures Walk(maze, start, path).Some? ==> IsValidMove(maze, Walk(maze, start, path).value.0)
    decreases |path|
  {
    if path != [] {
      var prefix := path[..|path| - 1];
      RunIsWalk(maze, start, prefix);
      if Walk(maze, start, prefix).Some? {
        var (p, counter) := Walk(maze, start, prefix).value;
        ActionAt(maze, p, counter, path[|path| - 1]);
      }
    }
  }

  /** One move from a free tile, as the search offers and performs it and as the rule
      allows it. */
  lemma ActionAt(maze: Maze, p: Position, counter: nat, a: LimpingKnightAction)
    requires IsValidMove(maze, p)
    ensures var v := State(p, if counter >= 1 then counter - 1 else 0);
      var counter' := if counter > 0 then counter - 1 else 0;
      && (a in Actions(maze, v) <==> !(counter' != 0 && IsKnightMove(a)) && IsValidMove(maze, PerformKnightMove(p, a)))
      && NextState(v, a).cooldown == (var c := if IsKnightMove(a) then 8 else counter'; if c >= 1 then c - 1 else 0)
  {
    ActionsMeaning(maze, State(p, if counter >= 1 then counter - 1 else 0), a);
  }

  /** `solve(LimpingKnight(maze, start))`: from a start on a free tile, a shortest walk by
      the rule to an exit, the empty walk exactly when the start is an exit, and nothing only when
      no walk by the rule reaches an exit. */
  method Solve(maze: Maze, start: Position) returns (r: Option<seq<LimpingKnightAction>>)
    ensures r == Some([]) <==> IsExit(maze, start)
    ensures IsValidMove(maze, start) && r.Some? ==>
      Walk(maze, start, r.value).Some? && IsExit(maze, Walk(maze, start, r.value).value.0)
    ensures IsValidMove(maze, start) && r.Some? ==>
      forall path :: Walk(maze, start, path).Some? && IsExit(maze, Walk(maze, start, path).value.0) ==> |r.value| <= |path|
    ensures IsValidMove(maze, start) && r.None? ==>
      forall path :: Walk(maze, start, path).Some? ==> !IsExit(maze, Walk(maze, start, path).value.0)
  {
    UniverseClosed(maze, start);
    r := StateSpace.Solve(AsProblem(maze, start), Universe(maze, start));
    if IsValidMove(maze, start) {
      if r.Some? {
        RunIsWalk(maze, start, r.value);
        forall path | Walk(maze, start, path).Some? && IsExit(maze, Walk(maze, start, path).value.0) ensures |r.value| <= |path| {
          RunIsWalk(maze, start, path);
          assert Solves(AsProblem(maze, start), path);
        }
      } else {
        forall path | Walk(maze, start, path).Some? ensures !IsExit(maze, Walk(maze, start, path).value.0) {
          RunIsWalk(maze, start, path);
          assert !Solves(AsProblem(maze, start), path);
        }
      }
    }
  }
}
