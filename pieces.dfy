/**
 * The pieces (discs) as the controller sees them. The piece class itself,
 * with its physics, is not part of this model: a piece is an object identity
 * that remembers the options it was created with, its queries are passed to
 * the controller as functions, and the controller's calls into it are
 * recorded as events.
 */
module Pieces {

  import opened Options

  /** Dark pieces belong to the enemy, light ones to the player. */
  datatype Colour = Dark | Light

  /** A disc, created with a centre, a radius and a colour; its later motion is not modelled. */
  class Piece {
    const startX: real
    const startY: real
    const radius: real
    const colour: Colour

    constructor (x: real, y: real, radius: real, colour: Colour)
      ensures startX == x && startY == y && this.radius == radius && this.colour == colour
    {
      startX := x;
      startY := y;
      this.radius := radius;
      this.colour := colour;
    }
  }

  /** A call the controller makes into a piece. */
  datatype Event =
    | Advanced(piece: Piece, dt: real)            // piece.update(dt): one tick of motion
    | Collided(piece: Piece, other: Piece)        // piece.collide(other)
    | Thrown(piece: Piece, x: real, y: real)      // piece.throw(x, y)
    | Activated(piece: Piece)                     // piece.makeActive()
    | Deactivated(piece: Piece)                   // piece.makeInactive()

  /** The events of advancing every piece of s by dt, in list order. */
  function Advances(s: seq<Piece>, dt: real): (r: seq<Event>)
    ensures |r| == |s|
    ensures forall k :: 0 <= k < |s| ==> r[k] == Advanced(s[k], dt)
  {
    if s == [] then [] else Advances(s[..|s| - 1], dt) + [Advanced(s[|s| - 1], dt)]
  }

  /** makeInactive on the selection, if there is one (the `?.` call of the source). */
  function Release(sel: Option<Piece>): (r: seq<Event>)
    ensures sel.None? <==> r == []
    ensures sel.Some? ==> r == [Deactivated(sel.value)]
  {
    if sel.Some? then [Deactivated(sel.value)] else []
  }
}
