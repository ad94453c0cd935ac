/// The turn state machine of the Battleship component: its state variables
/// become the fields of one object, and each handler a method that updates
/// them. setup --deploy--> playing(player) --shot--> playing(ai) or gameOver;
/// playing(ai) --opponent turn--> playing(player) or gameOver; reset returns
/// to setup. The opponent's reply, the agent's readiness and every random
/// draw are inputs of the methods. Each handler is specified by a function
/// on a snapshot of the state, and the lemmas about those functions carry
/// the game's guarantees.
module Game {
  import opened Board
  import opened Coordinates
  import opened Placement
  import opened Shots

  datatype Phase = Setup | Playing | GameOver

  /** Whose turn it is: `'player'` or `'ai'`. */
  datatype Side = Player | Ai

  /** A battle log entry, as an event rather than its display text. */
  datatype Event =
    | FleetDeployed
    | ShotReport(shooter: Side, coord: string, hit: bool, sunk: Option<string>)
    | Commentary(text: string)
    | Victory
    | Defeat

  /** What came back from the chat request: the request or the reading of
      its fields failed (the turn's catch), the reply text was not JSON
      (`JSON.parse` threw), or a move with its shot text and commentary. */
  datatype AgentReply = RequestFailed | NotJson | Move(shot: string, commentary: string)

  /** Commentary logged with a random fallback shot. */
  const FallbackCommentary: string := "Taking my shot!"

  /** The game's state variables at one moment. */
  datatype GameState = GameState(
    playerGrid: Grid, aiGrid: Grid,
    playerShots: ShotGrid, aiShots: ShotGrid,
    gameState: Phase, currentPlayer: Side, gameLog: seq<Event>,
    playerShips: seq<Ship>, aiShips: seq<Ship>)

  /** The initial `useState` values, which `resetGame` restores. */
  function Initial(): (s: GameState)
    ensures IsGrid(s.playerGrid) && IsGrid(s.aiGrid) && IsGrid(s.playerShots) && IsGrid(s.aiShots)
    ensures s.gameState == Setup && s.currentPlayer == Player && s.gameLog == []
    ensures s.playerShips == [] && s.aiShips == []
    ensures forall c :: InRange(c) ==> At(s.playerGrid, c) == Empty && At(s.aiGrid, c) == Empty
    ensures forall c :: InRange(c) ==> !At(s.playerShots, c) && !At(s.aiShots, c)
  {
    GameState(Filled(Empty), Filled(Empty), Filled(false), Filled(false), Setup, Player, [], [], [])
  }

  /** One side: its fleet agrees with its grid and with the shots fired at
      it, and its grid holds as many ship cells as its ships' sizes add up
      to, at most the 17 of the whole fleet. */
  ghost predicate SideOk(g: Grid, ships: seq<Ship>, shots: ShotGrid) {
    FleetOk(g, ships, shots) && CountOccupied(g) == SumSizes(ships) <= SpecTotal(Fleet)
  }

  /** What every reachable state satisfies: both sides consistent, setup
      is the initial state, the game is over only once a fleet is sunk, and
      in play the opponent still has an untried cell to shoot at. */
  ghost predicate Invariant(s: GameState) {
    && SideOk(s.playerGrid, s.playerShips, s.aiShots)
    && SideOk(s.aiGrid, s.aiShips, s.playerShots)
    && (s.gameState == Setup ==> s == Initial())
    && (s.gameState == GameOver ==> AllSunk(s.aiShips) || AllSunk(s.playerShips))
    && (s.gameState == Playing ==> exists c :: InRange(c) && !At(s.aiShots, c))
  }

  lemma InitialInvariant()
    ensures Invariant(Initial())
  {
    EmptyGridCount();
  }

  /** `placeShipsRandomly` after the fleet loop: the new grids and ships,
      play begins, and the log restarts with the deployment entry. */
  function Deploy(s: GameState, playerGrid: Grid, playerShips: seq<Ship>, aiGrid: Grid, aiShips: seq<Ship>): GameState {
    s.(playerGrid := playerGrid, aiGrid := aiGrid, playerShips := playerShips, aiShips := aiShips,
       gameState := Playing, gameLog := [FleetDeployed])
  }

  /** Deploying two complete fleets from setup gives a consistent game in
      which no ship has been hit. */
  lemma DeployKeepsInvariant(s: GameState, playerGrid: Grid, playerShips: seq<Ship>, aiGrid: Grid, aiShips: seq<Ship>)
    requires Invariant(s) && s.gameState == Setup
    requires Deployed(playerGrid, playerShips, |Fleet|) && Deployed(aiGrid, aiShips, |Fleet|)
    ensures Invariant(Deploy(s, playerGrid, playerShips, aiGrid, aiShips))
  {
    assert Fleet[..|Fleet|] == Fleet;
    assert InRange(Coord(0, 0)) && !At(s.aiShots, Coord(0, 0));
    forall k | 0 <= k < |playerShips|
      ensures playerShips[k].hits == ShotCount(playerShips[k].cells, s.aiShots)
    {
      assert Placed(playerGrid, playerShips[k]);
      ShotCountNone(playerShips[k].cells);
    }
    forall k | 0 <= k < |aiShips|
      ensures aiShips[k].hits == ShotCount(aiShips[k].cells, s.playerShots)
    {
      assert Placed(aiGrid, aiShips[k]);
      ShotCountNone(aiShips[k].cells);
    }
  }

  /** From setup, the fleet loop run on both sides with any draws gives a
      consistent game. */
  lemma DeployFleetsKeepInvariant(s: GameState, playerDraws: seq<seq<Draw>>, aiDraws: seq<seq<Draw>>)
    requires Invariant(s) && s.gameState == Setup
    requires |playerDraws| == |Fleet| && |aiDraws| == |Fleet|
    ensures var p := DeployFleet(|Fleet|, playerDraws);
            var a := DeployFleet(|Fleet|, aiDraws);
            Invariant(Deploy(s, p.0, p.1, a.0, a.1))
  {
    var p := DeployFleet(|Fleet|, playerDraws);
    var a := DeployFleet(|Fleet|, aiDraws);
    DeployFleetDeployed(|Fleet|, playerDraws);
    DeployFleetDeployed(|Fleet|, aiDraws);
    DeployKeepsInvariant(s, p.0, p.1, a.0, a.1);
  }

  /** `handlePlayerShot(row, col)`: ignored unless it is the player's turn
      in play and the cell is untried; otherwise the shot is resolved
      against the opponent's fleet and logged, and either the game is won
      or the turn passes to the opponent. */
  function PlayerShot(s: GameState, c: Coord): GameState
    requires IsGrid(s.aiGrid) && IsGrid(s.playerShots) && InRange(c)
  {
    if s.gameState != Playing || s.currentPlayer != Player || At(s.playerShots, c) then s
    else PlayerFire(s, c)
  }

  /** The player's shot at `c`, once the guard let it through. */
  function PlayerFire(s: GameState, c: Coord): GameState
    requires IsGrid(s.aiGrid) && IsGrid(s.playerShots) && InRange(c)
  {
    var r := Fire(s.aiGrid, s.playerShots, s.aiShips, c);
    var report := ShotReport(Player, FormatCoord(c), r.hit, r.sunk);
    if AllSunk(r.ships) then
      s.(playerShots := r.shots, aiShips := r.ships, gameState := GameOver, gameLog := s.gameLog + [report, Victory])
    else
      s.(playerShots := r.shots, aiShips := r.ships, gameLog := s.gameLog + [report], currentPlayer := Ai)
  }

  /** A shot keeps the game consistent. */
  lemma PlayerShotKeepsInvariant(s: GameState, c: Coord)
    requires Invariant(s) && InRange(c)
    ensures Invariant(PlayerShot(s, c))
  {
    if s.gameState == Playing && s.currentPlayer == Player && !At(s.playerShots, c) {
      FireKeepsFleet(s.aiGrid, s.playerShots, s.aiShips, c);
    }
  }

  /** The guard: out of play, on the opponent's turn, or on a cell already
      tried, a shot changes nothing. */
  lemma PlayerShotIgnored(s: GameState, c: Coord)
    requires Invariant(s) && InRange(c)
    requires s.gameState != Playing || s.currentPlayer != Player || At(s.playerShots, c)
    ensures PlayerShot(s, c) == s
  {
  }

  /** A legal shot marks exactly its own cell and touches neither grid,
      nor the player's fleet, nor the opponent's shots. */
  lemma PlayerShotMarksOneCell(s: GameState, c: Coord)
    requires Invariant(s) && InRange(c)
    requires s.gameState == Playing && s.currentPlayer == Player && !At(s.playerShots, c)
    ensures var t := PlayerShot(s, c);
      && At(t.playerShots, c)
      && (forall d :: InRange(d) && d != c ==> At(t.playerShots, d) == At(s.playerShots, d))
      && t.playerGrid == s.playerGrid && t.aiGrid == s.aiGrid
      && t.aiShots == s.aiShots && t.playerShips == s.playerShips
  {
  }

  /** A legal shot adds one hit to the ship whose cells hold the shot cell
      and to no other ship, and afterwards no ship has more hits than cells. */
  lemma PlayerShotHitsOwner(s: GameState, c: Coord)
    requires Invariant(s) && InRange(c)
    requires s.gameState == Playing && s.currentPlayer == Player && !At(s.playerShots, c)
    ensures var t := PlayerShot(s, c);
      && |t.aiShips| == |s.aiShips|
      && (forall k :: 0 <= k < |s.aiShips| ==>
            t.aiShips[k].hits == s.aiShips[k].hits + (if c in s.aiShips[k].cells then 1 else 0))
      && (forall k :: 0 <= k < |t.aiShips| ==> t.aiShips[k].hits <= t.aiShips[k].size)
  {
    FireHitsOwner(s.aiGrid, s.playerShots, s.aiShips, c);
    FireHitsBounded(s.aiGrid, s.playerShots, s.aiShips, c);
  }

  /** After a legal shot the earlier log is kept and one entry is added,
      two when the game is won; the game is won exactly when every opponent
      ship is sunk, and otherwise the turn passes. */
  lemma PlayerShotOutcome(s: GameState, c: Coord)
    requires Invariant(s) && InRange(c)
    requires s.gameState == Playing && s.currentPlayer == Player && !At(s.playerShots, c)
    ensures var t := PlayerShot(s, c);
      && |t.gameLog| == |s.gameLog| + (if t.gameState == GameOver then 2 else 1)
      && t.gameLog[..|s.gameLog|] == s.gameLog
      && (AllSunk(t.aiShips) <==> t.gameState == GameOver)
      && (t.gameState == GameOver ==> t.currentPlayer == Player && t.gameLog[|t.gameLog| - 1] == Victory)
      && (t.gameState != GameOver ==> t.gameState == Playing && t.currentPlayer == Ai)
  {
  }

  /** The entry a legal shot adds to the log: the player's report of the
      cell's text, a hit exactly when the opponent's cell holds a ship, and
      the ship's name as sunk exactly when the ship holding the cell now has
      as many hits as cells. */
  lemma PlayerShotReport(s: GameState, c: Coord)
    requires Invariant(s) && InRange(c)
    requires s.gameState == Playing && s.currentPlayer == Player && !At(s.playerShots, c)
    ensures var t := PlayerShot(s, c);
      && |t.gameLog| > |s.gameLog| && t.gameLog[|s.gameLog|].ShotReport?
      && var e := t.gameLog[|s.gameLog|];
      && e.shooter == Player && e.coord == FormatCoord(c)
      && (e.hit <==> At(s.aiGrid, c).Occupied?)
      && (e.sunk.Some? <==>
            exists k :: 0 <= k < |t.aiShips| && c in t.aiShips[k].cells && t.aiShips[k].hits == t.aiShips[k].size)
      && (e.sunk.Some? ==> e.sunk == Some(At(s.aiGrid, c).name))
  {
    FireSunkOwner(s.aiGrid, s.playerShots, s.aiShips, c);
  }

  /** The shot text the opponent's turn goes on with: the reply's own, or
      the random untried cell written as text when the reply was not JSON. */
  function AiShotText(reply: AgentReply, shots: ShotGrid, draws: seq<Coord>): (text: string)
    requires !reply.RequestFailed?
    requires IsGrid(shots) && forall i :: 0 <= i < |draws| ==> InRange(draws[i])
    requires reply.NotJson? ==> exists i :: 0 <= i < |draws| && !At(shots, draws[i])
    ensures reply.Move? ==> text == reply.shot
    ensures reply.NotJson? ==> text == FormatCoord(draws[FirstUnshot(shots, draws, 0)])
    ensures reply.NotJson? ==> ShotTarget(text, shots) == Some(draws[FirstUnshot(shots, draws, 0)])
  {
    match reply
    case Move(text, _) => text
    case NotJson =>
      var c := draws[FirstUnshot(shots, draws, 0)];
      FormatParseRoundTrip(c);
      FormatCoord(c)
  }

  /** The opponent's shot at `c`, once its text has named that untried
      cell: resolved against the player's fleet and logged with the text and
      the commentary; the player's fleet sunk ends the game, otherwise the
      turn returns to the player. */
  function AiShot(s: GameState, c: Coord, text: string, comment: string): GameState
    requires IsGrid(s.playerGrid) && IsGrid(s.aiShots) && InRange(c)
  {
    var r := Fire(s.playerGrid, s.aiShots, s.playerShips, c);
    var log := s.gameLog + [ShotReport(Ai, text, r.hit, r.sunk), Commentary(comment)];
    if AllSunk(r.ships) then
      s.(aiShots := r.shots, playerShips := r.ships, gameState := GameOver, gameLog := log + [Defeat])
    else
      s.(aiShots := r.shots, playerShips := r.ships, gameLog := log, currentPlayer := Player)
  }

  /** The opponent's shot adds one hit to the player's ship whose cells hold
      the shot cell and to no other ship, and afterwards no ship has more
      hits than cells. */
  lemma AiShotHitsOwner(s: GameState, c: Coord, text: string, comment: string)
    requires Invariant(s) && InRange(c) && !At(s.aiShots, c)
    ensures var t := AiShot(s, c, text, comment);
      && |t.playerShips| == |s.playerShips|
      && (forall k :: 0 <= k < |s.playerShips| ==>
            t.playerShips[k].hits == s.playerShips[k].hits + (if c in s.playerShips[k].cells then 1 else 0))
      && (forall k :: 0 <= k < |t.playerShips| ==> t.playerShips[k].hits <= t.playerShips[k].size)
  {
    FireHitsOwner(s.playerGrid, s.aiShots, s.playerShips, c);
    FireHitsBounded(s.playerGrid, s.aiShots, s.playerShips, c);
  }

  /** An opponent's shot at an untried cell keeps the game consistent. */
  lemma AiShotKeepsInvariant(s: GameState, c: Coord, text: string, comment: string)
    requires Invariant(s) && s.gameState == Playing && InRange(c) && !At(s.aiShots, c)
    ensures Invariant(AiShot(s, c, text, comment))
  {
    FireKeepsFleet(s.playerGrid, s.aiShots, s.playerShips, c);
    var r := Fire(s.playerGrid, s.aiShots, s.playerShips, c);
    if !AllSunk(r.ships) {
      UnshotCellWhileAfloat(s.playerGrid, r.ships, r.shots);
    }
  }

  /** What the opponent's shot does: exactly the one shot cell is added;
      grids, the opponent's fleet and the player's shots are untouched; the
      earlier log is kept and gains the report and the commentary, and a
      third entry when the game is lost; the game is lost exactly when every
      player ship is sunk, otherwise the turn returns to the player. */
  lemma AiShotEffect(s: GameState, c: Coord, text: string, comment: string)
    requires Invariant(s) && s.gameState == Playing && s.currentPlayer == Ai && InRange(c) && !At(s.aiShots, c)
    ensures var t := AiShot(s, c, text, comment);
      && t.aiShots == Update(s.aiShots, c, true)
      && t.playerGrid == s.playerGrid && t.aiGrid == s.aiGrid
      && t.playerShots == s.playerShots && t.aiShips == s.aiShips
      && |t.gameLog| == |s.gameLog| + (if t.gameState == GameOver then 3 else 2)
      && t.gameLog[..|s.gameLog|] == s.gameLog
      && t.gameLog[|s.gameLog| + 1] == Commentary(comment)
      && (AllSunk(t.playerShips) <==> t.gameState == GameOver)
      && (t.gameState == GameOver ==> t.currentPlayer == Ai && t.gameLog[|t.gameLog| - 1] == Defeat)
      && (t.gameState != GameOver ==> t.gameState == Playing && t.currentPlayer == Player)
  {
  }

  /** The report an opponent's shot adds to the log: its own shot text, a
      hit exactly when the player's cell holds a ship, and the ship's name as
      sunk exactly when the player's ship holding the cell now has as many
      hits as cells. */
  lemma AiShotReport(s: GameState, c: Coord, text: string, comment: string)
    requires Invariant(s) && InRange(c) && !At(s.aiShots, c)
    ensures var t := AiShot(s, c, text, comment);
      && |t.gameLog| > |s.gameLog| && t.gameLog[|s.gameLog|].ShotReport?
      && var e := t.gameLog[|s.gameLog|];
      && e.shooter == Ai && e.coord == text
      && (e.hit <==> At(s.playerGrid, c).Occupied?)
      && (e.sunk.Some? <==>
            exists k :: 0 <= k < |t.playerShips| && c in t.playerShips[k].cells && t.playerShips[k].hits == t.playerShips[k].size)
      && (e.sunk.Some? ==> e.sunk == Some(At(s.playerGrid, c).name))
  {
    FireSunkOwner(s.playerGrid, s.aiShots, s.playerShips, c);
  }

  /** The opponent's turn, run by the timer the player's shot sets: does
      nothing without an agent; otherwise takes the reply's shot text (or a
      random untried cell when the reply is not JSON), resolves it against
      the player's fleet when it names an untried cell on the board, and
      hands the turn back unless the player's fleet is sunk. */
  function AiTurn(s: GameState, agentReady: bool, reply: AgentReply, draws: seq<Coord>): GameState
    requires IsGrid(s.playerGrid) && IsGrid(s.aiShots)
    requires forall i :: 0 <= i < |draws| ==> InRange(draws[i])
    requires reply.NotJson? ==> exists i :: 0 <= i < |draws| && !At(s.aiShots, draws[i])
  {
    if !agentReady then s
    else if reply.RequestFailed? then s.(currentPlayer := Player)
    else
      var text := AiShotText(reply, s.aiShots, draws);
      var comment := if reply.Move? then reply.commentary else FallbackCommentary;
      AiResolve(s, text, comment)
  }

  /** The second half of the opponent's turn: the shot text is resolved when
      it names an untried cell on the board; otherwise nothing but the turn
      changes. */
  function AiResolve(s: GameState, text: string, comment: string): GameState
    requires IsGrid(s.playerGrid) && IsGrid(s.aiShots)
  {
    match ShotTarget(text, s.aiShots)
    case None => s.(currentPlayer := Player)
    case Some(c) => AiShot(s, c, text, comment)
  }

  /** The opponent's turn keeps the game consistent. */
  lemma AiTurnKeepsInvariant(s: GameState, agentReady: bool, reply: AgentReply, draws: seq<Coord>)
    requires Invariant(s) && s.gameState == Playing
    requires forall i :: 0 <= i < |draws| ==> InRange(draws[i])
    requires reply.NotJson? ==> exists i :: 0 <= i < |draws| && !At(s.aiShots, draws[i])
    ensures Invariant(AiTurn(s, agentReady, reply, draws))
  {
    if agentReady && !reply.RequestFailed? {
      var text := AiShotText(reply, s.aiShots, draws);
      var comment := if reply.Move? then reply.commentary else FallbackCommentary;
      match ShotTarget(text, s.aiShots)
      case None =>
      case Some(c) =>
        AiShotKeepsInvariant(s, c, text, comment);
    }
  }

  /** A reply that names no cell, a cell off the board or a cell already
      tried records no shot and changes nothing but the turn, which goes
      back to the player. */
  lemma AiTurnWithoutTarget(s: GameState, reply: AgentReply, draws: seq<Coord>)
    requires Invariant(s) && s.gameState == Playing
    requires forall i :: 0 <= i < |draws| ==> InRange(draws[i])
    requires reply.Move?
    requires || ParseShot(reply.shot).None?
             || !InRange(ParseShot(reply.shot).value)
             || At(s.aiShots, ParseShot(reply.shot).value)
    ensures AiTurn(s, true, reply, draws) == s.(currentPlayer := Player)
  {
    assert ShotTarget(reply.shot, s.aiShots).None?;
  }

  /** When the reply is not JSON, the random fallback always names an
      untried cell, so the opponent's turn always fires exactly there. */
  lemma FallbackShotLands(s: GameState, draws: seq<Coord>)
    requires IsGrid(s.playerGrid) && IsGrid(s.aiShots)
    requires forall i :: 0 <= i < |draws| ==> InRange(draws[i])
    requires exists i :: 0 <= i < |draws| && !At(s.aiShots, draws[i])
    ensures var c := draws[FirstUnshot(s.aiShots, draws, 0)];
      && !At(s.aiShots, c)
      && AiTurn(s, true, NotJson, draws) == AiShot(s, c, FormatCoord(c), FallbackCommentary)
  {
    var c := draws[FirstUnshot(s.aiShots, draws, 0)];
    var text := AiShotText(NotJson, s.aiShots, draws);
    assert text == FormatCoord(c);
    FormatParseRoundTrip(c);
    assert ShotTarget(text, s.aiShots) == Some(c);
  }

  /** Without an agent id the opponent's turn does nothing at all: the
      turn is not handed back. */
  lemma AiTurnNoAgent(s: GameState, reply: AgentReply, draws: seq<Coord>)
    requires IsGrid(s.playerGrid) && IsGrid(s.aiShots)
    requires forall i :: 0 <= i < |draws| ==> InRange(draws[i])
    requires reply.NotJson? ==> exists i :: 0 <= i < |draws| && !At(s.aiShots, draws[i])
    ensures AiTurn(s, false, reply, draws) == s
  {
  }

  /** A failed request fires no shot; only the turn goes back to the player. */
  lemma AiTurnRequestFailed(s: GameState, draws: seq<Coord>)
    requires IsGrid(s.playerGrid) && IsGrid(s.aiShots)
    requires forall i :: 0 <= i < |draws| ==> InRange(draws[i])
    ensures AiTurn(s, true, RequestFailed, draws) == s.(currentPlayer := Player)
  {
  }

  /** A move whose shot text the check accepts as an untried cell fires at
      that cell, with the move's own text and commentary, whatever else the
      text holds around or inside the match (`B05`, `xB12J3`). */
  lemma MoveShotLands(s: GameState, text: string, c: Coord, commentary: string, draws: seq<Coord>)
    requires IsGrid(s.playerGrid) && IsGrid(s.aiShots)
    requires forall i :: 0 <= i < |draws| ==> InRange(draws[i])
    requires ShotTarget(text, s.aiShots) == Some(c)
    ensures InRange(c) && !At(s.aiShots, c)
    ensures AiTurn(s, true, Move(text, commentary), draws) == AiShot(s, c, text, commentary)
  {
  }

  /** In particular a move naming an untried cell in the cell's own format
      fires at that cell. */
  lemma FormattedMoveLands(s: GameState, c: Coord, commentary: string, draws: seq<Coord>)
    requires IsGrid(s.playerGrid) && IsGrid(s.aiShots) && InRange(c) && !At(s.aiShots, c)
    requires forall i :: 0 <= i < |draws| ==> InRange(draws[i])
    ensures AiTurn(s, true, Move(FormatCoord(c), commentary), draws) == AiShot(s, c, FormatCoord(c), commentary)
  {
    FormatParseRoundTrip(c);
    MoveShotLands(s, FormatCoord(c), c, commentary, draws);
  }

  class BattleshipGame {
    var playerGrid: Grid
    var aiGrid: Grid
    /** Cells of the opponent's grid the player has fired at. */
    var playerShots: ShotGrid
    /** Cells of the player's grid the opponent has fired at. */
    var aiShots: ShotGrid
    var gameState: Phase
    var currentPlayer: Side
    var gameLog: seq<Event>
    var playerShips: seq<Ship>
    var aiShips: seq<Ship>

    ghost function State(): GameState
      reads this
    {
      GameState(playerGrid, aiGrid, playerShots, aiShots, gameState, currentPlayer, gameLog, playerShips, aiShips)
    }

    ghost predicate Valid()
      reads this
    {
      Invariant(State())
    }

    /** The initial `useState` values. */
    constructor ()
      ensures State() == Initial() && Valid()
    {
      playerGrid, aiGrid := Filled(Empty), Filled(Empty);
      playerShots, aiShots := Filled(false), Filled(false);
      gameState, currentPlayer := Setup, Player;
      gameLog := [];
      playerShips, aiShips := [], [];
      new;
      InitialInvariant();
    }

    /** `resetGame`: every field back to its initial value. */
    method ResetGame()
      modifies this
      ensures State() == Initial() && Valid()
    {
      playerGrid, aiGrid := Filled(Empty), Filled(Empty);
      playerShots, aiShots := Filled(false), Filled(false);
      gameState, currentPlayer := Setup, Player;
      gameLog := [];
      playerShips, aiShips := [], [];
      InitialInvariant();
    }

    /** `placeShipsRandomly`, offered only during setup: both fleets placed
        on fresh grids, play begins, and the log restarts with the
        deployment entry. Shot grids and turn are left as they are. */
    method PlaceShipsRandomly(playerDraws: seq<seq<Draw>>, aiDraws: seq<seq<Draw>>)
      requires Valid() && gameState == Setup
      requires |playerDraws| == |Fleet| && |aiDraws| == |Fleet|
      requires forall n :: 0 <= n < |Fleet| ==> |playerDraws[n]| == MaxAttempts && |aiDraws[n]| == MaxAttempts
      requires forall n, k :: 0 <= n < |Fleet| && 0 <= k < MaxAttempts ==> InRange(playerDraws[n][k].origin)
      requires forall n, k :: 0 <= n < |Fleet| && 0 <= k < MaxAttempts ==> InRange(aiDraws[n][k].origin)
      modifies this
      ensures State() == Deploy(old(State()), playerGrid, playerShips, aiGrid, aiShips)
      ensures (playerGrid, playerShips) == DeployFleet(|Fleet|, playerDraws)
      ensures (aiGrid, aiShips) == DeployFleet(|Fleet|, aiDraws)
      ensures Valid()
    {
      DeployFleetsKeepInvariant(State(), playerDraws, aiDraws);
      var pg, ps, ag, ais := PlaceFleets(playerDraws, aiDraws);
      BeginPlay(pg, ps, ag, ais);
    }

    /** The state update at the end of `placeShipsRandomly`. */
    method BeginPlay(pg: Grid, ps: seq<Ship>, ag: Grid, ais: seq<Ship>)
      modifies this
      ensures State() == Deploy(old(State()), pg, ps, ag, ais)
    {
      playerGrid, playerShips, aiGrid, aiShips, gameState, gameLog := pg, ps, ag, ais, Playing, [FleetDeployed];
    }

    /** `handlePlayerShot`, on a cell of the opponent's grid: ignored
        unless it is the player's turn in play and the cell is untried. */
    method HandlePlayerShot(row: int, col: int)
      requires Valid() && InRange(Coord(row, col))
      modifies this
      ensures State() == PlayerShot(old(State()), Coord(row, col))
      ensures Valid()
    {
      var c := Coord(row, col);
      if gameState != Playing || currentPlayer != Player || At(playerShots, c) {
        return;
      }
      PlayerShotKeepsInvariant(State(), c);
      FirePlayerShot(c);
    }

    /** The shot-resolving half of `handlePlayerShot`. */
    method FirePlayerShot(c: Coord)
      requires IsGrid(aiGrid) && IsGrid(playerShots) && InRange(c)
      modifies this
      ensures State() == PlayerFire(old(State()), c)
    {
      var r := Fire(aiGrid, playerShots, aiShips, c);
      var report := ShotReport(Player, FormatCoord(c), r.hit, r.sunk);
      if AllSunk(r.ships) {
        playerShots, aiShips, gameState, gameLog := r.shots, r.ships, GameOver, gameLog + [report, Victory];
      } else {
        playerShots, aiShips, gameLog, currentPlayer := r.shots, r.ships, gameLog + [report], Ai;
      }
    }

    /** `handleAITurn`, run only on the opponent's turn in play. */
    method HandleAITurn(agentReady: bool, reply: AgentReply, randomDraws: seq<Coord>)
      requires Valid() && gameState == Playing && currentPlayer == Ai
      requires forall i :: 0 <= i < |randomDraws| ==> InRange(randomDraws[i])
      requires reply.NotJson? ==> exists i :: 0 <= i < |randomDraws| && !At(aiShots, randomDraws[i])
      modifies this
      ensures State() == AiTurn(old(State()), agentReady, reply, randomDraws)
      ensures Valid()
    {
      AiTurnKeepsInvariant(State(), agentReady, reply, randomDraws);
      if !agentReady {
        return;
      }
      var text: string, comment: string;
      match reply {
        case RequestFailed =>
          currentPlayer := Player;
          return;
        case NotJson =>
          text := GenerateRandomShot(aiShots, randomDraws);
          comment := FallbackCommentary;
        case Move(t, m) =>
          text, comment := t, m;
      }
      ResolveAiShot(text, comment);
    }

    /** The shot-resolving half of `handleAITurn`. */
    method ResolveAiShot(text: string, comment: string)
      requires IsGrid(playerGrid) && IsGrid(aiShots)
      modifies this
      ensures State() == AiResolve(old(State()), text, comment)
    {
      var target := ShotTarget(text, aiShots);
      if target.None? {
        currentPlayer := Player;
        return;
      }
      var r := Fire(playerGrid, aiShots, playerShips, target.value);
      var log := gameLog + [ShotReport(Ai, text, r.hit, r.sunk), Commentary(comment)];
      if AllSunk(r.ships) {
        aiShots, playerShips, gameState, gameLog := r.shots, r.ships, GameOver, log + [Defeat];
      } else {
        aiShots, playerShips, gameLog, currentPlayer := r.shots, r.ships, log, Player;
      }
    }
  }
}
