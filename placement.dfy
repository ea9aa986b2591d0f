/**
 * Where the pieces are put on the first tick: one row of eight per side,
 * the enemy on the first row of the playing area and the player on the last,
 * each piece in the centre of its cell (cells are an eighth of the area).
 */
module Placement {

  import opened Constants

  /** Side of one board cell, the placement step. */
  function Step(screenW: real, screenH: real): real
  {
    AreaWidth(screenW, screenH) / 8.0
  }

  /** Centre abscissa of the piece in column i. */
  function ColumnX(screenW: real, screenH: real, i: nat): real
  {
    StartCoord(screenW, screenH) + Step(screenW, screenH) / 2.0 + Step(screenW, screenH) * (i as real)
  }

  /** Centre ordinate of the enemy row (the first row of the area). */
  function EnemyRowY(screenW: real, screenH: real): real
  {
    StartCoord(screenW, screenH) + Step(screenW, screenH) / 2.0
  }

  /** Centre ordinate of the player row (the eighth row of the area). */
  function PlayerRowY(screenW: real, screenH: real): real
  {
    StartCoord(screenW, screenH) + Step(screenW, screenH) * 7.0 + Step(screenW, screenH) / 2.0
  }

  /** A coordinate c whose disc of the piece radius lies inside the playing area on that axis. */
  predicate InsideArea(screenW: real, screenH: real, c: real)
  {
    StartCoord(screenW, screenH) <= c - CheckerRadius(screenW, screenH)
    && c + CheckerRadius(screenW, screenH) <= StartCoord(screenW, screenH) + AreaWidth(screenW, screenH)
  }

  /** Every initial piece lies entirely inside the playing area. */
  lemma InitialPiecesInsideArea(screenW: real, screenH: real, i: nat)
    requires i < 8
    ensures InsideArea(screenW, screenH, ColumnX(screenW, screenH, i))
    ensures InsideArea(screenW, screenH, EnemyRowY(screenW, screenH))
    ensures InsideArea(screenW, screenH, PlayerRowY(screenW, screenH))
  {
    var step := Step(screenW, screenH);
    assert step > 0.0;
    assert 0.0 <= step * (i as real) <= step * 7.0 by {
      assert 0.0 <= (i as real) <= 7.0;
      MulMonotone(step, i as real, 7.0);
    }
  }

  lemma MulMonotone(a: real, x: real, y: real)
    requires 0.0 <= a && 0.0 <= x <= y
    ensures 0.0 <= a * x <= a * y
  {
  }

  /**
   * Neighbouring pieces of a row are one step apart, the two rows seven steps
   * apart, and a step is more than a diameter: no two initial pieces overlap.
   */
  lemma InitialPiecesApart(screenW: real, screenH: real, i: nat)
    ensures ColumnX(screenW, screenH, i + 1) - ColumnX(screenW, screenH, i) == Step(screenW, screenH)
    ensures PlayerRowY(screenW, screenH) - EnemyRowY(screenW, screenH) == 7.0 * Step(screenW, screenH)
    ensures Step(screenW, screenH) > 2.0 * CheckerRadius(screenW, screenH)
  {
    var step := Step(screenW, screenH);
    assert step * ((i + 1) as real) == step * (i as real) + step;
  }
}
