/**
 Positions of an `ActiveActor`. JavaFX places a node at its layout point and moves it by
 changing its translation; the screen position is the sum of the two. All coordinates are
 whole numbers here: every velocity and offset in the game is an integer constant.
 */
module Geometry {

  datatype Pos = Pos(layoutX: int, layoutY: int, translateX: int, translateY: int)
  {
    /** Horizontal screen position, `getLayoutX() + getTranslateX()`. */
    function X(): int { layoutX + translateX }

    /** Vertical screen position, `getLayoutY() + getTranslateY()`. */
    function Y(): int { layoutY + translateY }
  }

  /** The constructor's placement: the layout point is the initial position, nothing is translated yet. */
  function Place(x: int, y: int): (p: Pos)
    ensures p.layoutX == x && p.layoutY == y
    ensures p.translateX == 0 && p.translateY == 0
  {
    Pos(x, y, 0, 0)
  }

  /** `moveHorizontally`: shifts the actor sideways by `d`; the vertical position and the layout stay. */
  function MoveHorizontally(p: Pos, d: int): (q: Pos)
    ensures q.X() == p.X() + d && q.Y() == p.Y()
    ensures q.layoutX == p.layoutX && q.layoutY == p.layoutY && q.translateY == p.translateY
  {
    p.(translateX := p.translateX + d)
  }

  /** `moveVertically`: shifts the actor up or down by `d`; the horizontal position and the layout stay. */
  function MoveVertically(p: Pos, d: int): (q: Pos)
    ensures q.Y() == p.Y() + d && q.X() == p.X()
    ensures q.layoutX == p.layoutX && q.layoutY == p.layoutY && q.translateX == p.translateX
  {
    p.(translateY := p.translateY + d)
  }

  /** Two horizontal moves are one move by the sum. */
  lemma HorizontalMovesAdd(p: Pos, a: int, b: int)
    ensures MoveHorizontally(MoveHorizontally(p, a), b) == MoveHorizontally(p, a + b)
  {
  }

  /** Two vertical moves are one move by the sum. */
  lemma VerticalMovesAdd(p: Pos, a: int, b: int)
    ensures MoveVertically(MoveVertically(p, a), b) == MoveVertically(p, a + b)
  {
  }

  /** A move is undone by the opposite move. */
  lemma HorizontalMoveUndone(p: Pos, d: int)
    ensures MoveHorizontally(MoveHorizontally(p, d), -d) == p
  {
  }

  /** The two axes are independent. */
  lemma MovesCommute(p: Pos, dx: int, dy: int)
    ensures MoveHorizontally(MoveVertically(p, dy), dx) == MoveVertically(MoveHorizontally(p, dx), dy)
  {
  }
}
