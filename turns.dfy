/**
 * The turn logic of the controller as values: the score, the decision a
 * left click takes, the hand-over of the turn once the board is still, and
 * the end of a tick with its game-over check.
 */
module Turns {

  import opened Options
  import opened Constants

  /** getScore: 100 per captured enemy piece, minus 50 per lost own piece, out of 8 each. */
  function Score(nEnemy: nat, nPlayer: nat): (s: int)
    ensures nEnemy <= 8 && nPlayer <= 8 ==> -400 <= s <= 800
    ensures nEnemy <= 8 && nPlayer <= 8 ==> (s == 800 <==> nEnemy == 0 && nPlayer == 8)
    ensures nEnemy <= 8 && nPlayer <= 8 ==> (s == -400 <==> nEnemy == 8 && nPlayer == 0)
  {
    (8 - nEnemy) * 100 - (8 - nPlayer) * 50
  }

  lemma ScoreExamples()
    ensures Score(8, 8) == 0
    ensures Score(5, 8) == 300
    ensures Score(8, 3) == -250
  {
  }

  /** Capturing an enemy piece gains 100; losing an own piece costs 50. */
  lemma ScoreIncrements(nEnemy: nat, nPlayer: nat)
    ensures Score(nEnemy, nPlayer) == Score(nEnemy + 1, nPlayer) + 100
    ensures Score(nEnemy, nPlayer + 1) == Score(nEnemy, nPlayer) + 50
  {
  }

  /** isGameOver: one side has no pieces left. */
  predicate Over(nEnemy: nat, nPlayer: nat)
  {
    nEnemy == 0 || nPlayer == 0
  }

  /** The states in which a left click is handled; with the bot, its turn is not the user's. */
  predicate TakesClicks(s: GameState, withBot: bool): (b: bool)
    ensures b ==> s == PlayerTurn || s == EnemyTurn
    ensures withBot ==> (b <==> s == PlayerTurn)
    ensures !withBot ==> (b <==> s == PlayerTurn || s == EnemyTurn)
  {
    (s == PlayerTurn || s == EnemyTurn) && !(withBot && s == EnemyTurn)
  }

  /** The state a shot of the side to move starts. */
  function Animating(s: GameState): (t: GameState)
    requires s == PlayerTurn || s == EnemyTurn
    ensures s == PlayerTurn <==> t == PlayerTurnAnimation
    ensures s == EnemyTurn <==> t == EnemyTurnAnimation
  {
    if s == PlayerTurn then PlayerTurnAnimation else EnemyTurnAnimation
  }

  /** The pieces of the side to move. */
  function Mover<T>(s: GameState, player: seq<T>, enemy: seq<T>): seq<T>
  {
    if s == PlayerTurn then player else enemy
  }

  /** What a left click does. */
  datatype ClickEffect<T> =
    | Ignored            // not a state that takes clicks: nothing changes
    | Select(piece: T)   // a piece of the side to move becomes the selection
    | Shoot(piece: T)    // the selected piece is thrown at the click
    | Nothing            // no selection and no own piece hit: only the release happens

  /**
   * The decision of the left-click handler, given the state, the selection
   * and the piece the hit test found.
   */
  function Click<T(==)>(s: GameState, withBot: bool, sel: Option<T>, hit: Option<T>,
                        player: seq<T>, enemy: seq<T>): (e: ClickEffect<T>)
    ensures e.Ignored? <==> !TakesClicks(s, withBot)
    ensures e.Select? <==> TakesClicks(s, withBot) && hit.Some? && hit.value in Mover(s, player, enemy)
    ensures e.Select? ==> e.piece == hit.value
    ensures e.Shoot? <==>
      TakesClicks(s, withBot) && !(hit.Some? && hit.value in Mover(s, player, enemy)) && sel.Some?
    ensures e.Shoot? ==> e.piece == sel.value
  {
    if !TakesClicks(s, withBot) then Ignored
    else if hit.Some? && hit.value in Mover(s, player, enemy) then Select(hit.value)
    else if sel.Some? then Shoot(sel.value)
    else Nothing
  }

  /** A click never selects a piece of the side that is not to move, nor one the hit test did not find. */
  lemma SelectionBelongsToMover<T>(s: GameState, withBot: bool, sel: Option<T>, hit: Option<T>,
                                   player: seq<T>, enemy: seq<T>)
    requires Click(s, withBot, sel, hit, player, enemy).Select?
    ensures s == PlayerTurn ==> Click(s, withBot, sel, hit, player, enemy).piece in player
    ensures s == EnemyTurn ==> Click(s, withBot, sel, hit, player, enemy).piece in enemy
    ensures s == PlayerTurn || (s == EnemyTurn && !withBot)
    ensures hit == Some(Click(s, withBot, sel, hit, player, enemy).piece)
  {
  }

  /** The turn hand-over once every piece is still; the other states are left alone. */
  function Handover(s: GameState, still: bool): (t: GameState)
    ensures still && s == PlayerTurnAnimation ==> t == EnemyTurn
    ensures still && s == EnemyTurnAnimation ==> t == PlayerTurn
    ensures !(still && (s == PlayerTurnAnimation || s == EnemyTurnAnimation)) ==> t == s
  {
    if still && s == PlayerTurnAnimation then EnemyTurn
    else if still && s == EnemyTurnAnimation then PlayerTurn
    else s
  }

  /** The hand-over fires once: a still board handed over stays as it is. */
  lemma HandoverOnce(s: GameState)
    ensures Handover(Handover(s, true), true) == Handover(s, true)
  {
  }

  /** A shot of one side, once the board is still, gives the turn to the other side. */
  lemma TurnsAlternate(s: GameState)
    requires s == PlayerTurn || s == EnemyTurn
    ensures Handover(Animating(s), true) != s
    ensures Handover(Animating(s), true) == PlayerTurn || Handover(Animating(s), true) == EnemyTurn
  {
  }

  /** How a tick ends: the new state, whether the bot was started, whether it failed. */
  datatype TickEnd = TickEnd(state: GameState, botRuns: bool, crashed: bool)

  /**
   * The end of update as written: the hand-over first, starting the bot when
   * the player's shot has come to rest, and the game-over check only after
   * it. Started on an empty list the bot's search fails: with no enemy
   * piece it calls distTo on a missing piece (with only the player list
   * empty, this assumes distTo fails on a missing piece), and the tick ends
   * there, in enemyTurn.
   */
  function EndOfTick(s: GameState, still: bool, withBot: bool, nEnemy: nat, nPlayer: nat): (t: TickEnd)
    ensures t.botRuns <==> still && s == PlayerTurnAnimation && withBot
    ensures t.crashed <==> t.botRuns && Over(nEnemy, nPlayer)
    ensures t.crashed ==> t.state == EnemyTurn
    ensures !t.crashed && Over(nEnemy, nPlayer) ==> t.state == GameOver
    ensures !Over(nEnemy, nPlayer) ==> t.state == Handover(s, still)
  {
    var botRuns := still && s == PlayerTurnAnimation && withBot;
    if botRuns && Over(nEnemy, nPlayer) then TickEnd(EnemyTurn, true, true)
    else TickEnd(if Over(nEnemy, nPlayer) then GameOver else Handover(s, still), botRuns, false)
  }

  /**
   * The failing path exists: the player's shot knocks out the last enemy
   * piece, or (assuming distTo fails on a missing piece) the last own piece.
   */
  lemma EndOfTickCrashes()
    ensures EndOfTick(PlayerTurnAnimation, true, true, 0, 8).crashed
    ensures EndOfTick(PlayerTurnAnimation, true, true, 5, 0).crashed
  {
  }

  /** The end of the tick with the game-over check first, before the turn is handed over. */
  function GuardedEndOfTick(s: GameState, still: bool, withBot: bool, nEnemy: nat, nPlayer: nat): (t: TickEnd)
    ensures !t.crashed
    ensures Over(nEnemy, nPlayer) ==> t.state == GameOver && !t.botRuns
  {
    if Over(nEnemy, nPlayer) then TickEnd(GameOver, false, false)
    else EndOfTick(s, still, withBot, nEnemy, nPlayer)
  }

  /**
   * The guarded end of tick differs from the one as written only where that
   * one fails, and there it ends the game instead.
   */
  lemma GuardedAgrees(s: GameState, still: bool, withBot: bool, nEnemy: nat, nPlayer: nat)
    ensures !EndOfTick(s, still, withBot, nEnemy, nPlayer).crashed ==>
      GuardedEndOfTick(s, still, withBot, nEnemy, nPlayer) == EndOfTick(s, still, withBot, nEnemy, nPlayer)
    ensures EndOfTick(s, still, withBot, nEnemy, nPlayer).crashed ==>
      GuardedEndOfTick(s, still, withBot, nEnemy, nPlayer) == TickEnd(GameOver, false, false)
  {
  }

  /** Game over is final: no tick leaves it. */
  lemma GameOverIsFinal(still: bool, withBot: bool, nEnemy: nat, nPlayer: nat)
    ensures EndOfTick(GameOver, still, withBot, nEnemy, nPlayer) == TickEnd(GameOver, false, false)
    ensures GuardedEndOfTick(GameOver, still, withBot, nEnemy, nPlayer) == TickEnd(GameOver, false, false)
  {
  }

  /**
   * A tick only ever hands the turn over or ends the game: the state after
   * it is the one before, its hand-over, or gameOver.
   */
  lemma EndOfTickMoves(s: GameState, still: bool, withBot: bool, nEnemy: nat, nPlayer: nat)
    ensures var t := EndOfTick(s, still, withBot, nEnemy, nPlayer).state;
      t == s || t == Handover(s, still) || t == GameOver
  {
  }
}
