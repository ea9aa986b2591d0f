/**
 * The match controller: two ordered lists of live pieces, an optional
 * selected piece and the match state, changed by clicks, by the per-tick
 * update and by the bot's deferred shot.
 *
 * The queries the controller puts to a piece (out of bounds, still, contains
 * a point, distance to another piece) are parameters of the methods that ask
 * them, standing for the answers the pieces give at that point of the tick.
 * The calls the controller makes into pieces are appended to `events`.
 */
module Controller {

  import opened Options
  import opened Constants
  import opened Pieces
  import opened Scans
  import opened Survivors
  import opened Collisions
  import opened BotSearch
  import opened Turns
  import Placement

  /** A shot the bot has scheduled: its piece and the player piece it aims at. */
  datatype Shot = Shot(bot: Piece, target: Piece)

  /** How an update or a deferred shot ended: normally, or with an exception. */
  datatype Outcome = Done | Crashed

  /** row holds pieces 0 .. |row| - 1 of a row created at (x, y) with this step, radius and colour. */
  ghost predicate RowOf(row: seq<Piece>, x: real, y: real, step: real, radius: real, colour: Colour)
  {
    && (forall k, l :: 0 <= k < l < |row| ==> row[k] != row[l])
    && (forall k :: 0 <= k < |row| ==>
          && row[k].startX == x + step / 2.0 + step * (k as real)
          && row[k].startY == y + step / 2.0
          && row[k].radius == radius && row[k].colour == colour)
  }

  /** A new piece in the next column extends a row. */
  lemma RowOfSnoc(row: seq<Piece>, c: Piece, x: real, y: real, step: real, radius: real, colour: Colour)
    requires RowOf(row, x, y, step, radius, colour) && c !in row
    requires c.startX == x + step / 2.0 + step * (|row| as real) && c.startY == y + step / 2.0
    requires c.radius == radius && c.colour == colour
    ensures RowOf(row + [c], x, y, step, radius, colour)
  {
  }

  /**
   * The two rows of a new match: eight distinct dark enemy pieces centred on
   * the first row of the playing area and eight distinct light player
   * pieces on its eighth row, piece k of each in column k.
   */
  ghost predicate InitialRows(es: seq<Piece>, ps: seq<Piece>, screenW: real, screenH: real)
  {
    && |es| == 8 && |ps| == 8
    && (forall k, l :: 0 <= k < l < 8 ==> es[k] != es[l] && ps[k] != ps[l])
    && (forall k :: 0 <= k < 8 ==>
          && es[k].startX == ps[k].startX == Placement.ColumnX(screenW, screenH, k)
          && es[k].startY == Placement.EnemyRowY(screenW, screenH)
          && ps[k].startY == Placement.PlayerRowY(screenW, screenH)
          && es[k].radius == ps[k].radius == CheckerRadius(screenW, screenH)
          && es[k].colour == Dark && ps[k].colour == Light)
  }

  /** A dark row at the area's corner and a light row seven steps below it are the rows of a new match. */
  lemma RowsAreInitial(es: seq<Piece>, ps: seq<Piece>, screenW: real, screenH: real)
    requires |es| == 8 && |ps| == 8
    requires var start, step := StartCoord(screenW, screenH), Placement.Step(screenW, screenH);
      RowOf(es, start, start, step, CheckerRadius(screenW, screenH), Dark)
    requires var start, step := StartCoord(screenW, screenH), Placement.Step(screenW, screenH);
      RowOf(ps, start, start + step * 7.0, step, CheckerRadius(screenW, screenH), Light)
    ensures InitialRows(es, ps, screenW, screenH)
  {
  }

  class Checkers {
    var player: seq<Piece>
    var enemy: seq<Piece>
    var selected: Option<Piece>
    /** The shared match state, read and written through the engine's accessors. */
    var state: GameState
    const withBot: bool
    /** Every call made into a piece, oldest first. */
    var events: seq<Event>
    /** Bot shots waiting for their timer, oldest first. */
    var pending: seq<Shot>

    constructor (withBot: bool, state: GameState)
      ensures this.withBot == withBot && this.state == state
      ensures player == [] && enemy == [] && selected == None
      ensures events == [] && pending == []
    {
      this.withBot := withBot;
      this.state := state;
      player, enemy, selected := [], [], None;
      events, pending := [], [];
    }

    /** isGameOver: one side has no pieces left. */
    function IsGameOver(): (over: bool)
      reads this
      ensures over <==> enemy == [] || player == []
    {
      Over(|enemy|, |player|)
    }

    /** getScore, recomputed from the current list lengths. */
    function GetScore(): (s: int)
      reads this
      ensures |enemy| <= 8 && |player| <= 8 ==> -400 <= s <= 800
      ensures s == Score(|enemy|, |player|)
    {
      Score(|enemy|, |player|)
    }

    /**
     * Hit-testing: the first enemy piece containing (x, y), else the first
     * player piece containing it, else nothing.
     */
    method FindCheckerByCords(x: real, y: real, contains: (Piece, real, real) -> bool)
      returns (found: Option<Piece>)
      ensures found == FirstHit(enemy + player, At(contains, x, y))
      ensures found.Some? ==> found.value in enemy + player && contains(found.value, x, y)
      ensures found.None? <==> forall p :: p in enemy + player ==> !contains(p, x, y)
    {
      FirstHitConcat(enemy, player, At(contains, x, y));
      found := FindIn(enemy, x, y, contains);
      if found.None? {
        found := FindIn(player, x, y, contains);
      }
    }

    /** Every piece of both sides is still, tested player side first. */
    method AreCheckersStill(still: Piece -> bool) returns (b: bool)
      ensures b <==> AllStill(player, still) && AllStill(enemy, still)
      ensures b <==> forall p :: p in player + enemy ==> still(p)
    {
      var i := 0;
      while i < |player|
        invariant 0 <= i <= |player|
        invariant forall k :: 0 <= k < i ==> still(player[k])
      {
        if !still(player[i]) {
          return false;
        }
        i := i + 1;
      }
      var j := 0;
      while j < |enemy|
        invariant 0 <= j <= |enemy|
        invariant forall k :: 0 <= k < j ==> still(enemy[k])
      {
        if !still(enemy[j]) {
          return false;
        }
        j := j + 1;
      }
      assert forall p :: p in player + enemy ==> p in player || p in enemy;
      return true;
    }

    /**
     * Right-click cancels the selection, except while the bot is to move
     * (the bot holds the selection then).
     */
    method RightClick()
      modifies this
      ensures !(withBot && old(state) == EnemyTurn) ==>
        selected == None && events == old(events) + Release(old(selected))
      ensures withBot && old(state) == EnemyTurn ==>
        selected == old(selected) && events == old(events)
      ensures state == old(state) && player == old(player) && enemy == old(enemy)
      ensures pending == old(pending)
    {
      if !(withBot && state == EnemyTurn) {
        events := events + Release(selected);
        selected := None;
      }
    }

    /**
     * A left click at (x, y): ignored outside the turns of the two sides and
     * during the bot's turn; otherwise the old selection is released, and
     * then a hit piece of the side to move becomes the selection, or the old
     * selection is thrown at (x, y) and the turn enters its animation.
     */
    method Click(x: real, y: real, contains: (Piece, real, real) -> bool)
      modifies this
      ensures var hit := FirstHit(old(enemy) + old(player), At(contains, x, y));
        match Turns.Click(old(state), withBot, old(selected), hit, old(player), old(enemy))
        case Ignored =>
          selected == old(selected) && state == old(state) && events == old(events)
        case Select(p) =>
          selected == Some(p) && state == old(state)
          && events == old(events) + Release(old(selected)) + [Activated(p)]
        case Shoot(p) =>
          selected == None && state == Animating(old(state))
          && events == old(events) + [Deactivated(p), Thrown(p, x, y)]
        case Nothing =>
          selected == None && state == old(state) && events == old(events)
      ensures player == old(player) && enemy == old(enemy) && pending == old(pending)
    {
      var s := state;
      if s != PlayerTurn && s != EnemyTurn {
        return;
      }
      if withBot && s == EnemyTurn {
        return;
      }
      events := events + Release(selected);
      var newChecker := FindCheckerByCords(x, y, contains);
      ghost var decision := Turns.Click(s, withBot, old(selected), newChecker, player, enemy);
      if newChecker.Some? && ((s == PlayerTurn && newChecker.value in player)
                              || (s == EnemyTurn && newChecker.value in enemy)) {
        assert decision == Select(newChecker.value);
        selected := newChecker;
        events := events + [Activated(newChecker.value)];
      } else if selected.Some? {
        assert decision == Shoot(selected.value);
        events := events + [Thrown(selected.value, x, y)];
        selected := None;
        if s == PlayerTurn {
          state := PlayerTurnAnimation;
        } else {
          state := EnemyTurnAnimation;
        }
      }
    }

    /**
     * Eight new pieces of one colour on a row: piece i centred at
     * (x + step/2 + step*i, y + step/2), appended to the player list when
     * `ours`, else to the enemy list.
     */
    method CreateColoredCheckers(x: real, y: real, step: real, radius: real, colour: Colour, ours: bool)
      returns (ghost row: seq<Piece>)
      modifies this`player, this`enemy
      ensures ours ==> player == old(player) + row && enemy == old(enemy)
      ensures !ours ==> enemy == old(enemy) + row && player == old(player)
      ensures |row| == 8 && RowOf(row, x, y, step, radius, colour)
      ensures forall k :: 0 <= k < 8 ==> fresh(row[k])
    {
      row := [];
      for i := 0 to 8
        invariant |row| == i && RowOf(row, x, y, step, radius, colour)
        invariant forall k :: 0 <= k < i ==> fresh(row[k])
        invariant ours ==> enemy == old(enemy) && player == old(player) + row
        invariant !ours ==> player == old(player) && enemy == old(enemy) + row
      {
        var checker := new Piece(x + step / 2.0 + step * (i as real), y + step / 2.0, radius, colour);
        RowOfSnoc(row, checker, x, y, step, radius, colour);
        if ours {
          player := player + [checker];
        } else {
          enemy := enemy + [checker];
        }
        row := row + [checker];
      }
    }

    /**
     * The pieces of a new match: a dark enemy row on the first row of the
     * playing area and a light player row on its eighth row, all of them
     * new and distinct.
     */
    method CreateAllCheckers(screenW: real, screenH: real)
      modifies this`player, this`enemy
      ensures |enemy| == |old(enemy)| + 8 && enemy[..|old(enemy)|] == old(enemy)
      ensures |player| == |old(player)| + 8 && player[..|old(player)|] == old(player)
      ensures var es, ps := enemy[|old(enemy)|..], player[|old(player)|..];
        && InitialRows(es, ps, screenW, screenH)
        && (forall k :: 0 <= k < 8 ==> fresh(es[k]) && fresh(ps[k]))
        && (forall k, l :: 0 <= k < 8 && 0 <= l < 8 ==> es[k] != ps[l])
    {
      var step := Placement.Step(screenW, screenH);
      var start := StartCoord(screenW, screenH);
      var radius := CheckerRadius(screenW, screenH);
      ghost var es := CreateColoredCheckers(start, start, step, radius, Dark, false);
      label Between:
      ghost var ps := CreateColoredCheckers(start, start + step * 7.0, step, radius, Light, true);
      assert enemy[|old(enemy)|..] == es;
      assert player[|old(player)|..] == ps;
      RowsAreInitial(es, ps, screenW, screenH);
      assert forall k :: 0 <= k < 8 ==> fresh@Between(ps[k]);
    }

    /** Garbage collection: each list keeps exactly its pieces that are not out of bounds, in order. */
    method GarbageCollector(out: Piece -> bool)
      modifies this`player, this`enemy
      ensures player == Surviving(old(player), out)
      ensures enemy == Surviving(old(enemy), out)
    {
      CollectSide(out, true);
      CollectSide(out, false);
    }

    /**
     * One loop of garbageCollector, over the player list when `ours`, else
     * over the enemy list: walking the list as it was on entry, each piece
     * out of bounds is filtered out of the field, which is reassigned.
     */
    method CollectSide(out: Piece -> bool, ours: bool)
      modifies this`player, this`enemy
      ensures ours ==> player == Surviving(old(player), out) && enemy == old(enemy)
      ensures !ours ==> enemy == Surviving(old(enemy), out) && player == old(player)
    {
      var list := if ours then player else enemy;
      NoneSeen(list, out);
      for i := 0 to |list|
        invariant ours ==> player == Surviving(list, SeenOut(list[..i], out)) && enemy == old(enemy)
        invariant !ours ==> enemy == Surviving(list, SeenOut(list[..i], out)) && player == old(player)
      {
        var checker := list[i];
        RemovalStep(list, list[..i], checker, out);
        assert list[..i + 1] == list[..i] + [checker];
        if out(checker) {
          if ours {
            player := Without(player, checker);
          } else {
            enemy := Without(enemy, checker);
          }
        }
      }
      assert list[..|list|] == list;
      AllSeen(list, out);
    }

    /** One `checker.update(dt)` loop: every piece of side advances by dt, in list order. */
    method AdvanceAll(side: seq<Piece>, dt: real)
      modifies this`events
      ensures events == old(events) + Advances(side, dt)
    {
      for k := 0 to |side|
        invariant events == old(events) + Advances(side[..k], dt)
      {
        assert side[..k + 1][..k] == side[..k];
        events := events + [Advanced(side[k], dt)];
      }
      assert side[..|side|] == side;
    }

    /**
     * One inner loop of the collision pass: a collides with others[j] for
     * every j in order, except j == skip (its own position; -1 for the loop
     * over the other side).
     */
    method CollideRow(a: Piece, others: seq<Piece>, skip: int)
      modifies this`events
      ensures events == old(events) + Against(a, others, skip, |others|)
    {
      for j := 0 to |others|
        invariant events == old(events) + Against(a, others, skip, j)
      {
        if j == skip {
          continue;
        }
        events := events + [Collided(a, others[j])];
      }
    }

    /**
     * One half of the collision pass: every piece of `movers` collides with
     * every other piece of `movers` and then with every piece of `others`.
     * The source writes this block out twice, once for each side.
     */
    method CollideSide(movers: seq<Piece>, others: seq<Piece>)
      modifies this`events
      ensures events == old(events) + SideRows(movers, others, |movers|)
    {
      for i := 0 to |movers|
        invariant events == old(events) + SideRows(movers, others, i)
      {
        ghost var before := events;
        CollideRow(movers[i], movers, i);
        CollideRow(movers[i], others, -1);
        AppendAssoc(before, Against(movers[i], movers, i, |movers|), Against(movers[i], others, -1, |others|));
        AppendAssoc(old(events), SideRows(movers, others, i), MoverRow(movers, others, i));
      }
    }

    /**
     * The collision pass: the player side's half, then the enemy side's. It
     * calls collide on every ordered pair of distinct live pieces once.
     */
    method CheckForCollisions()
      modifies this`events
      ensures events == old(events) + PassCalls(player, enemy)
    {
      CollideSide(player, enemy);
      CollideSide(enemy, player);
      PassIsCalls(player, enemy);
      AppendAssoc(old(events), SideRows(player, enemy, |player|), SideRows(enemy, player, |enemy|));
    }

    /**
     * botPickCheckers: the first closest (enemy, player) pair in row-major
     * order, and the player piece the last improvement displaced.
     */
    method BotPickCheckers(dist: (Piece, Piece) -> real) returns (bots: Piece, players1: Piece, players2: Piece)
      requires |enemy| > 0 && |player| > 0
      ensures BestPick(enemy, player, dist) == Pick(dist(bots, players1), bots, players1, players2)
      ensures bots in enemy && players1 in player && players2 in player
      ensures forall e, p :: e in enemy && p in player ==> dist(bots, players1) <= dist(e, p)
    {
      bots, players1, players2 := enemy[0], player[0], player[0];
      var d := dist(bots, players1);
      ghost var start := Start(enemy[0], player[0], dist);
      ghost var seen: seq<(Piece, Piece)> := [];
      assert enemy[..0] == [];
      for i := 0 to |enemy|
        invariant seen == Pairs(enemy[..i], player)
        invariant Scan(start, seen, dist) == Pick(d, bots, players1, players2)
        invariant d == dist(bots, players1)
        invariant bots in enemy && players1 in player && players2 in player
      {
        PairsSnoc(enemy, player, i);
        ghost var before := seen;
        assert player[..0] == [];
        assert before + RowPairs(enemy[i], player[..0]) == before;
        for j := 0 to |player|
          invariant seen == before + RowPairs(enemy[i], player[..j])
          invariant Scan(start, seen, dist) == Pick(d, bots, players1, players2)
          invariant d == dist(bots, players1)
          invariant bots in enemy && players1 in player && players2 in player
        {
          RowPairsSnoc(enemy[i], player, j);
          ScanSnoc(start, seen, (enemy[i], player[j]), dist);
          seen := seen + [(enemy[i], player[j])];
          var c1, c2 := enemy[i], player[j];
          var d1 := dist(c1, c2);
          if d1 < d {
            d := d1;
            players2 := players1;
            players1 := c2;
            bots := c1;
          }
        }
      }
      assert enemy[..|enemy|] == enemy;
      forall e, p | e in enemy && p in player ensures dist(bots, players1) <= dist(e, p) {
        var i :| 0 <= i < |enemy| && enemy[i] == e;
        var j :| 0 <= j < |player| && player[j] == p;
        BestPickIsClosest(enemy, player, dist, i, j);
      }
    }

    /**
     * The bot's move: pick its piece and the targets, aim at the displaced
     * piece when r > 0.65 and at the closest one otherwise, select and
     * activate its piece, and schedule the shot.
     */
    method BotTakeTurn(dist: (Piece, Piece) -> real, r: real)
      requires |enemy| > 0 && |player| > 0
      requires 0.0 <= r < 1.0
      modifies this
      ensures var pick := BestPick(old(enemy), old(player), dist);
        && selected == Some(pick.bot)
        && events == old(events) + [Activated(pick.bot)]
        && pending == old(pending) + [Shot(pick.bot, Aim(pick, r))]
      ensures player == old(player) && enemy == old(enemy) && state == old(state)
    {
      var bots, players1, players2 := BotPickCheckers(dist);
      var players := players1;
      if r > 0.65 {
        players := players2;
      }
      selected := Some(bots);
      events := events + [Activated(bots)];
      pending := pending + [Shot(bots, players)];
    }

    /**
     * The bot's deferred shot, fired later: its piece is thrown at (x, y),
     * the selection is released and the enemy's shot animates. The aim
     * point is a parameter. With no selection left the source fails after
     * the throw, calling makeInactive on null.
     */
    method BotFire(x: real, y: real) returns (outcome: Outcome)
      requires pending != []
      modifies this
      ensures pending == old(pending)[1..]
      ensures outcome == Crashed <==> old(selected) == None
      ensures outcome == Done ==>
        && events == old(events) + [Thrown(old(pending)[0].bot, x, y), Deactivated(old(selected).value)]
        && selected == None && state == EnemyTurnAnimation
      ensures outcome == Crashed ==>
        && events == old(events) + [Thrown(old(pending)[0].bot, x, y)]
        && selected == old(selected) && state == old(state)
      ensures player == old(player) && enemy == old(enemy)
    {
      var shot := pending[0];
      pending := pending[1..];
      events := events + [Thrown(shot.bot, x, y)];
      if selected == None {
        return Crashed;
      }
      events := events + [Deactivated(selected.value)];
      selected := None;
      state := EnemyTurnAnimation;
      return Done;
    }

    /**
     * One tick. With an empty enemy list it only creates the pieces.
     * Otherwise it removes the pieces out of bounds, advances every piece,
     * runs the collision pass, hands the turn over once everything is
     * still (starting the bot after the player's shot), and ends the game
     * when a side is empty. `out`, `still` and `dist` are the pieces'
     * answers at the points where the tick asks them; `r` is the bot's
     * random draw. The bot started on an empty list fails: Crashed.
     */
    method Update(dt: real, screenW: real, screenH: real, out: Piece -> bool, still: Piece -> bool,
                  dist: (Piece, Piece) -> real, r: real)
      returns (outcome: Outcome)
      requires 0.0 <= r < 1.0
      modifies this
      ensures old(enemy) == [] ==>
        && outcome == Done
        && |enemy| == 8 && |player| == |old(player)| + 8 && player[..|old(player)|] == old(player)
        && var ps := player[|old(player)|..];
        && InitialRows(enemy, ps, screenW, screenH)
        && (forall k :: 0 <= k < 8 ==> fresh(enemy[k]) && fresh(ps[k]))
        && (forall k, l :: 0 <= k < 8 && 0 <= l < 8 ==> enemy[k] != ps[l])
        && state == old(state) && selected == old(selected)
        && events == old(events) && pending == old(pending)
      ensures old(enemy) != [] ==>
        var player', enemy' := Surviving(old(player), out), Surviving(old(enemy), out);
        var quiet := AllStill(player', still) && AllStill(enemy', still);
        var t := EndOfTick(old(state), quiet, withBot, |enemy'|, |player'|);
        var ticked := old(events) + Advances(enemy', dt) + Advances(player', dt)
                      + PassCalls(player', enemy');
        && player == player' && enemy == enemy'
        && state == t.state
        && (outcome == Crashed <==> t.crashed)
        && (t.botRuns && !t.crashed ==>
              var pick := BestPick(enemy', player', dist);
              && selected == Some(pick.bot)
              && events == ticked + [Activated(pick.bot)]
              && pending == old(pending) + [Shot(pick.bot, Aim(pick, r))])
        && (!t.botRuns || t.crashed ==>
              selected == old(selected) && events == ticked && pending == old(pending))
    {
      if |enemy| == 0 {
        CreateAllCheckers(screenW, screenH);
        assert enemy[|old(enemy)|..] == enemy;
        return Done;
      }
      MoveAndCollide(dt, out);
      var quiet := AreCheckersStill(still);
      outcome := FinishTick(quiet, dist, r);
    }

    /**
     * The middle of a tick: remove the pieces out of bounds, advance every
     * enemy piece and then every player piece by dt, and run the collision
     * pass over what is left.
     */
    method MoveAndCollide(dt: real, out: Piece -> bool)
      modifies this`player, this`enemy, this`events
      ensures player == Surviving(old(player), out) && enemy == Surviving(old(enemy), out)
      ensures events == old(events) + Advances(enemy, dt) + Advances(player, dt) + PassCalls(player, enemy)
    {
      GarbageCollector(out);
      AdvanceAll(enemy, dt);
      AdvanceAll(player, dt);
      CheckForCollisions();
    }

    /**
     * The end of a tick, once the pieces have moved and collided: with
     * everything still, the turn is handed over (and the bot started after
     * the player's shot); then the game ends when a side is empty. The bot
     * started on an empty list fails: Crashed.
     */
    method FinishTick(quiet: bool, dist: (Piece, Piece) -> real, r: real) returns (outcome: Outcome)
      requires 0.0 <= r < 1.0
      modifies this
      ensures var t := EndOfTick(old(state), quiet, withBot, |old(enemy)|, |old(player)|);
        && player == old(player) && enemy == old(enemy)
        && state == t.state
        && (outcome == Crashed <==> t.crashed)
        && (t.botRuns && !t.crashed ==>
              var pick := BestPick(old(enemy), old(player), dist);
              && selected == Some(pick.bot)
              && events == old(events) + [Activated(pick.bot)]
              && pending == old(pending) + [Shot(pick.bot, Aim(pick, r))])
        && (!t.botRuns || t.crashed ==>
              selected == old(selected) && events == old(events) && pending == old(pending))
    {
      if quiet {
        if state == PlayerTurnAnimation {
          state := EnemyTurn;
          if withBot {
            if |enemy| == 0 || |player| == 0 {
              // botPickCheckers calls distTo on a missing piece
              return Crashed;
            }
            BotTakeTurn(dist, r);
          }
        } else if state == EnemyTurnAnimation {
          state := PlayerTurn;
        }
      }
      if IsGameOver() {
        state := GameOver;
      }
      return Done;
    }

    /**
     * The end of a tick with the game-over check moved first: the bot is
     * only started when both sides still have pieces, so the tick cannot fail.
     */
    method GuardedFinishTick(quiet: bool, dist: (Piece, Piece) -> real, r: real)
      requires 0.0 <= r < 1.0
      modifies this
      ensures var t := GuardedEndOfTick(old(state), quiet, withBot, |old(enemy)|, |old(player)|);
        && player == old(player) && enemy == old(enemy)
        && state == t.state
        && (t.botRuns ==>
              var pick := BestPick(old(enemy), old(player), dist);
              && selected == Some(pick.bot)
              && events == old(events) + [Activated(pick.bot)]
              && pending == old(pending) + [Shot(pick.bot, Aim(pick, r))])
        && (!t.botRuns ==>
              selected == old(selected) && events == old(events) && pending == old(pending))
    {
      if IsGameOver() {
        state := GameOver;
        return;
      }
      if quiet {
        if state == PlayerTurnAnimation {
          state := EnemyTurn;
          if withBot {
            BotTakeTurn(dist, r);
          }
        } else if state == EnemyTurnAnimation {
          state := PlayerTurn;
        }
      }
    }
  }

  /** One loop of findCheckerByCords: the first piece of list containing (x, y). */
  method FindIn(list: seq<Piece>, x: real, y: real, contains: (Piece, real, real) -> bool)
    returns (found: Option<Piece>)
    ensures found == FirstHit(list, At(contains, x, y))
  {
    var hit := At(contains, x, y);
    for i := 0 to |list|
      invariant forall k :: 0 <= k < i ==> !hit(list[k])
    {
      if contains(list[i], x, y) {
        assert FirstHitIndex(list, hit) == i by { FirstHitIndexIs(list, hit, i); }
        return Some(list[i]);
      }
    }
    assert FirstHitIndex(list, hit) == |list| by { FirstHitIndexIs(list, hit, |list|); }
    return None;
  }
}
