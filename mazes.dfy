/**
 * The maze vocabulary of the hero problems of minipt1/minipt1_2/main.cpp: tiles, positions
 * with `size_t` coordinates, the four directions and `perform_move`.
 */
module Mazes {

  /** `size_t` arithmetic is arithmetic modulo 2^64. */
  const SIZE_T_MODULUS: int := 0x1_0000_0000_0000_0000

  function Wrap(x: int): (r: nat)
    ensures r < SIZE_T_MODULUS
    ensures 0 <= x < SIZE_T_MODULUS ==> r == x
    ensures -SIZE_T_MODULUS <= x < 0 ==> r == x + SIZE_T_MODULUS
    ensures SIZE_T_MODULUS <= x < 2 * SIZE_T_MODULUS ==> r == x - SIZE_T_MODULUS
  {
    x % SIZE_T_MODULUS
  }

  datatype Tile = Empty | Wall | Exit

  /** A maze is a sequence of rows; rows may differ in length. */
  type Maze = seq<seq<Tile>>

  datatype Position = Position(row: nat, col: nat)

  /** A coordinate a `size_t` can hold. */
  predicate InRange(p: Position) {
    p.row < SIZE_T_MODULUS && p.col < SIZE_T_MODULUS
  }

  datatype Direction = Up | Down | Left | Right

  /** `perform_move` for a direction (lines 150-160): one step, with `size_t` wrap-around,
      so that a step up from row 0 lands on row 2^64 - 1. */
  function PerformMove(p: Position, d: Direction): (r: Position)
    ensures InRange(p) ==> InRange(r)
  {
    match d
    case Up => Position(Wrap(p.row - 1), p.col)
    case Down => Position(Wrap(p.row + 1), p.col)
    case Left => Position(p.row, Wrap(p.col - 1))
    case Right => Position(p.row, Wrap(p.col + 1))
  }

  function Opposite(d: Direction): Direction {
    match d
    case Up => Down
    case Down => Up
    case Left => Right
    case Right => Left
  }

  /** A step followed by the opposite step comes back, the wrap-around included. */
  lemma MoveBack(p: Position, d: Direction)
    requires InRange(p)
    ensures PerformMove(PerformMove(p, d), Opposite(d)) == p
  {
  }

  /** The tile test of `isValidMove` (lines 382-389, 469-476; the same test in
      `LostHero::possible_actions`, lines 242-245): inside the maze and not a wall. A step
      off the top or the left edge wraps to a huge coordinate and fails the test. */
  predicate IsValidMove(maze: Maze, p: Position) {
    p.row < |maze| && p.col < |maze[p.row]| && maze[p.row][p.col] != Wall
  }

  /** The test of `is_target`: the tile is an exit. The source reads the maze without a
      bounds check; outside the maze the model answers false. */
  predicate IsExit(maze: Maze, p: Position) {
    p.row < |maze| && p.col < |maze[p.row]| && maze[p.row][p.col] == Exit
  }

  function Distance(p: Position, q: Position): nat {
    (if p.row <= q.row then q.row - p.row else p.row - q.row) + (if p.col <= q.col then q.col - p.col else p.col - q.col)
  }

  /** A valid step leads to an orthogonally adjacent tile: the wrap-around never carries
      the hero across the maze. */
  lemma ValidStepIsAdjacent(maze: Maze, p: Position, d: Direction)
    requires |maze| < SIZE_T_MODULUS && forall r :: 0 <= r < |maze| ==> |maze[r]| < SIZE_T_MODULUS
    requires IsValidMove(maze, p)
    requires IsValidMove(maze, PerformMove(p, d))
    ensures Distance(p, PerformMove(p, d)) == 1
  {
  }

  /** The positions inside the maze, a finite set every valid position belongs to. */
  ghost function Cells(maze: Maze): (cells: set<Position>)
    ensures forall p :: IsValidMove(maze, p) ==> p in cells
  {
    set r, c | 0 <= r < |maze| && 0 <= c < |maze[r]| :: Position(r, c)
  }
}
