/** Board dimensions shared by every component of the engine. */
module TetrisCore {
  /** Number of columns. */
  const BoardWidth: nat := 10
  /** Number of rows, including the two hidden rows at the top. */
  const BoardHeight: nat := 22
  /** Number of rows shown to the player. */
  const VisibleHeight: nat := 20
}
