/**
 * The match-state enumeration and the layout arithmetic of the board.
 * The source reads the screen size from the browser; here the screen width
 * and height are parameters of every layout function.
 */
module Constants {

  /** The seven match states, declared in this order. */
  datatype GameState =
    | Init
    | Ready
    | PlayerTurn
    | PlayerTurnAnimation
    | EnemyTurn
    | EnemyTurnAnimation
    | GameOver

  /** The numeric value the enumeration gives each state. */
  function Ordinal(s: GameState): (n: nat)
    ensures n < 7
  {
    match s
    case Init => 0
    case Ready => 1
    case PlayerTurn => 2
    case PlayerTurnAnimation => 3
    case EnemyTurn => 4
    case EnemyTurnAnimation => 5
    case GameOver => 6
  }

  /** The state with a given numeric value; together with Ordinal a bijection onto 0..6. */
  function FromOrdinal(n: nat): (s: GameState)
    requires n < 7
    ensures Ordinal(s) == n
  {
    if n == 0 then Init
    else if n == 1 then Ready
    else if n == 2 then PlayerTurn
    else if n == 3 then PlayerTurnAnimation
    else if n == 4 then EnemyTurn
    else if n == 5 then EnemyTurnAnimation
    else GameOver
  }

  /** Distinct states have distinct values, so there are exactly seven states. */
  lemma OrdinalIsBijective(s: GameState, t: GameState)
    ensures FromOrdinal(Ordinal(s)) == s
    ensures Ordinal(s) == Ordinal(t) ==> s == t
  {
  }

  function Min(a: real, b: real): real { if a <= b then a else b }

  function Max(a: real, b: real): real { if a >= b then a else b }

  /**
   * Side of the square canvas: the largest square fitting 90% of the screen
   * width and three quarters of the screen height less 100 pixels, but never
   * narrower than 270 pixels: it is the larger of 270 and the smaller of the two.
   */
  function CanvasWidth(screenW: real, screenH: real): (w: real)
    ensures w >= 270.0
    ensures w >= Min(0.9 * screenW, 0.75 * (screenH - 100.0))
    ensures w > 270.0 ==> w <= 0.9 * screenW && w <= 0.75 * (screenH - 100.0)
    ensures w > 270.0 ==> w == 0.9 * screenW || w == 0.75 * (screenH - 100.0)
    ensures 270.0 <= 0.9 * screenW && 270.0 <= 0.75 * (screenH - 100.0) ==>
              w <= 0.9 * screenW && w <= 0.75 * (screenH - 100.0)
  {
    Max(Min(screenW * 0.9, (screenH - 100.0) * 0.75), 270.0)
  }

  /** Side of the playing area: three quarters of the canvas. */
  function AreaWidth(screenW: real, screenH: real): (a: real)
    ensures 202.5 <= a < CanvasWidth(screenW, screenH)
  {
    CanvasWidth(screenW, screenH) * 0.75
  }

  /** Radius of every piece: a twentieth of the playing area. */
  function CheckerRadius(screenW: real, screenH: real): (r: real)
    ensures 0.0 < r
    ensures 2.0 * r < AreaWidth(screenW, screenH) / 8.0
  {
    AreaWidth(screenW, screenH) / 20.0
  }

  /** Offset of the playing area from the canvas edge on both axes; the area is centred. */
  function StartCoord(screenW: real, screenH: real): (s: real)
    ensures 0.0 < s
    ensures 2.0 * s + AreaWidth(screenW, screenH) == CanvasWidth(screenW, screenH)
  {
    (CanvasWidth(screenW, screenH) - AreaWidth(screenW, screenH)) / 2.0
  }

  /** Largest launch speed of a throw: 1000/800 of the canvas side. */
  function MaxSpeed(screenW: real, screenH: real): (v: real)
    ensures v >= 337.5
    ensures v > CanvasWidth(screenW, screenH)
  {
    1000.0 / 800.0 * CanvasWidth(screenW, screenH)
  }

  /** Drag distance at which a throw reaches the largest speed: 30% of MaxSpeed. */
  function MaxSpeedDist(screenW: real, screenH: real): (d: real)
    ensures 0.0 < d < MaxSpeed(screenW, screenH)
  {
    MaxSpeed(screenW, screenH) * 0.3
  }
}
