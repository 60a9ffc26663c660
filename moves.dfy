/** The four unit directions of the maze and their opposites (`Move.java`). */
module Moves {

  /** Declared in the order UP, DOWN, RIGHT, LEFT, as in the enum. */
  datatype Move = Up | Down | Right | Left

  /** `Move.values()`: every direction, in declaration order. This is the
      order in which the search tries moves and in which path reconstruction
      scans them. */
  const Values: seq<Move> := [Up, Down, Right, Left]

  /** `getOpposite`: the exhaustive switch, so the `default` throw has no
      counterpart here. */
  function Opposite(m: Move): (r: Move)
    ensures r != m
    ensures (m == Up || m == Down) <==> (r == Up || r == Down)
  {
    match m
    case Up => Down
    case Down => Up
    case Right => Left
    case Left => Right
  }

  /** Taking the opposite twice gives the move back. */
  lemma OppositeInvolutive(m: Move)
    ensures Opposite(Opposite(m)) == m
  {
  }

  /** The vertical pair and the horizontal pair are each swapped. */
  lemma OppositePairs()
    ensures Opposite(Up) == Down && Opposite(Down) == Up
    ensures Opposite(Right) == Left && Opposite(Left) == Right
  {
  }

  /** `ordinal()`: the position of a direction in `values()`. */
  function Ordinal(m: Move): (k: nat)
    ensures k < |Values| && Values[k] == m
  {
    match m
    case Up => 0
    case Down => 1
    case Right => 2
    case Left => 3
  }

  /** `values()` lists each of the four directions exactly once. */
  lemma ValuesEnumerateMoves(m: Move)
    ensures |Values| == 4
    ensures m in Values
    ensures forall i, j :: 0 <= i < j < |Values| ==> Values[i] != Values[j]
  {
  }
}
