# Battleship engine model

A Dafny model of the game engine inside the `BattleshipGame` React component
(`src/components/BattleshipGame.jsx`). The engine has two 10x10 boards, the
fleet Carrier 5, Battleship 4, Cruiser 3, Submarine 3 and Destroyer 2, random
placement with up to 100 tries per ship, and shot resolution with hit/sunk
bookkeeping. Turns alternate between the player and an opponent whose moves
come from an external agent. The game ends when one side's whole fleet is
sunk. The proofs concern that engine.

- `board.dfy` (module `Board`): cells, grids, ships and the fleet. It defines
  `Layout` and `FleetOk`: every ship lies on its straight run of distinct cells,
  names are unique, every occupied cell belongs to the ship it names, and a
  ship's hits are the shots on its cells. It also counts occupied cells.
- `coordinates.dfy` (module `Coordinates`): writing a cell as `A5`/`J10`, and
  reading one back with the leftmost match of `([A-J])(\d+)`.
- `placement.dfy` (module `Placement`): `canPlaceShip`, `placeShip` with its
  inner write loop, and the fleet loop of `placeShipsRandomly`. All three are
  methods with loops, each proved against a pure specification
  (`Fits`, `PlaceOne`, `DeployFleet`).
- `shots.dfy` (module `Shots`): the shot resolution both turns share, the
  hit/miss/unknown summary sent to the agent, the check of the agent's shot
  text, and `generateRandomShot`.
- `game.dfy` (module `Game`): the component's state variables are the fields
  of class `BattleshipGame`. Each handler is a method, specified by a function
  on a `GameState` snapshot. `Valid()` is the game invariant: both sides
  consistent, setup means the initial state, game over means a fleet is
  sunk, and in play the opponent still has an untried cell. Every handler
  preserves it.

Randomness, the agent and the clock are inputs:
- every `Math.random()` draw is a parameter (`Draw` sequences for placement,
  a `Coord` sequence for the random shot);
- whether the agent id is set is the boolean `agentReady`;
- the outcome of the chat request is an `AgentReply`: `RequestFailed`,
  `NotJson`, or `Move(shot, commentary)`.

Log lines are `Event` values rather than the emoji text.

Where the component's documented behaviour and its code differ, the model
follows the code:
- Without an agent id, `handleAITurn` returns before handing the turn back, so
  the game stays on the opponent's turn (`AiTurn` returns the state unchanged).
- The random fallback shot is used only when the reply is not JSON. A reply
  that names no cell, a cell off the board or a cell already tried fires no
  shot; only the turn passes back (`AiTurnWithoutTarget`).
- A ship that finds no room in 100 draws is left out, and the whole fleet is
  not retried. `DeployFleetDeployed` therefore proves at most 17 occupied
  cells, exactly the placed ships' sizes, rather than exactly 17.
- After the opponent wins, `currentPlayer` stays on the opponent, because the
  code returns before `setCurrentPlayer('player')` (`AiShotEffect`).
- The win check runs after every legal shot. A fleet with no ship placed is
  already "all sunk", so the next legal shot at it wins.

## Model

| member | source | states |
|---|---|---|
| Board.Filled | src/components/BattleshipGame.jsx:7-10 | a fresh 10x10 grid holds the same value in every cell |
| Board.Update | src/components/BattleshipGame.jsx:173-174 | writing one cell changes that cell and no other |
| Board.Run | src/components/BattleshipGame.jsx:97-103 | the ship's cells are `size` steps from the origin, along the row when horizontal, down the column otherwise |
| Board.RunDistinct | src/components/BattleshipGame.jsx:97-103 | a run never lists the same cell twice |
| Board.FindShip | src/components/BattleshipGame.jsx:184 | `find` returns the first ship with the name, and none when no ship has it |
| Board.FindOwnName | src/components/BattleshipGame.jsx:184 | with distinct names, looking up a ship's own name finds that ship |
| Board.ShotCount | src/components/BattleshipGame.jsx:185-187 | a ship's shot cells never outnumber its cells, and equal them exactly when every cell is shot |
| Board.CountAfterOccupy | src/components/BattleshipGame.jsx:101 | writing a name into an empty cell adds one occupied cell |
| Board.EmptyGridCount | src/components/BattleshipGame.jsx:83-84 | a fresh grid has no occupied cell |
| Board.FleetTotal | src/components/BattleshipGame.jsx:20-26 | the fleet's sizes add up to 17 |
| Board.FleetNamesDistinct | src/components/BattleshipGame.jsx:20-26 | the five ship names are pairwise different |
| Board.AllSunk | src/components/BattleshipGame.jsx:198 | `every(ship => ship.hits === ship.size)`, true of an empty fleet (no contract of its own; `DefeatIffAllShipCellsShot` states its meaning) |
| Board.CellsDisjoint | src/components/BattleshipGame.jsx:96-104 | in a consistent layout no cell belongs to two ships |
| Coordinates.RowLetter | src/components/BattleshipGame.jsx:178 | the row letter is A..J and its code minus 65 is the row |
| Coordinates.Decimal | src/components/BattleshipGame.jsx:178 | a number is written as a non-empty digit string, one digit below 10 and two below 100 |
| Coordinates.DecimalRoundTrip | src/components/BattleshipGame.jsx:255 | `parseInt` of a number's decimal text gives the number |
| Coordinates.FormatCoord | src/components/BattleshipGame.jsx:178 | a cell's text is a row letter followed by one or two digits |
| Coordinates.FindMatch | src/components/BattleshipGame.jsx:252 | the leftmost position where a row letter is followed by a digit, and none when there is no such position |
| Coordinates.DigitsEnd | src/components/BattleshipGame.jsx:252 | `\d+` takes the longest digit run: all digits up to the end and not followed by a digit |
| Coordinates.DigitsValue | src/components/BattleshipGame.jsx:255 | `parseInt` of a digit run: its decimal value, leading zeros included (no contract of its own; `DecimalRoundTrip` ties it to `Decimal`) |
| Coordinates.ParseShot | src/components/BattleshipGame.jsx:252-255 | a cell is read back exactly when the pattern occurs; it comes from the leftmost position where a row letter is followed by a digit: row = letter code - 65 (0..9), column = the value of the greedy digit run - 1 (at least -1) |
| Coordinates.FormatParseRoundTrip | src/components/BattleshipGame.jsx:252-255 | reading back a cell's own text gives that cell |
| Coordinates.FormatInjective | src/components/BattleshipGame.jsx:304 | two different cells are never written alike |
| Placement.CanPlaceShip | src/components/BattleshipGame.jsx:111-124 | true exactly when every cell of the run is on the board and empty |
| Placement.FirstFit | src/components/BattleshipGame.jsx:91-96 | the first draw whose run fits, and none when no draw fits |
| Placement.Stamp | src/components/BattleshipGame.jsx:98-101 | afterwards the run's cells hold the ship's name and every other cell is unchanged |
| Placement.PlaceOne | src/components/BattleshipGame.jsx:88-109 | when no draw fits, grid and list are unchanged; otherwise the first fitting draw's run is free, then holds the name, nothing else changes, and the ship is appended with that run and 0 hits |
| Placement.PlaceShip | src/components/BattleshipGame.jsx:88-109 | the retry loop leaves exactly the grid and list that `PlaceOne` describes |
| Placement.WriteShip | src/components/BattleshipGame.jsx:97-103 | the inner loop collects the run as the ship's cells and writes the name into exactly those cells |
| Placement.StampCount | src/components/BattleshipGame.jsx:97-103 | writing a name into distinct empty cells adds exactly that many occupied cells |
| Placement.StampKeepsShips | src/components/BattleshipGame.jsx:96-104 | writing into free cells leaves every ship already placed intact on the grid |
| Placement.StampKeepsOwners | src/components/BattleshipGame.jsx:96-104 | after a new ship is written, every occupied cell still belongs to the ship its name finds |
| Placement.PlaceKeepsLayout | src/components/BattleshipGame.jsx:96-104 | placing a ship with a new name on a free run keeps grid and ship list consistent |
| Placement.StampRunCount | src/components/BattleshipGame.jsx:97-103 | placing a ship adds exactly its size to the occupied cells |
| Placement.AddShip | src/components/BattleshipGame.jsx:96-105 | a placed ship extends the fleet loop's progress: the layout stays consistent and the count grows by the ship's size |
| Placement.PlaceShipStep | src/components/BattleshipGame.jsx:88-109 | one `placeShip` call, placed or not, keeps the fleet loop's progress |
| Placement.DeployFleet | src/components/BattleshipGame.jsx:126-129 | the grid and ship list one side holds after the first n ships of the fleet were tried in order, each by `PlaceOne` with its own draws; `DeployFleetDeployed` proves what they satisfy |
| Placement.DeployFleetDeployed | src/components/BattleshipGame.jsx:126-129 | after the fleet loop: ships without overlap, each on its grid with 0 hits and unique names, occupied cells equal the sizes' sum, at most 17 |
| Placement.PlaceFleets | src/components/BattleshipGame.jsx:126-129 | the loop over the fleet leaves on each side exactly `DeployFleet` of that side's draws |
| Shots.Fire | src/components/BattleshipGame.jsx:173-193 | the shot cell is marked; hit exactly when the cell holds a ship; only the ship found by its name gains one hit; sunk exactly when that ship's hits reach its size, and never when no ship is found under the name |
| Shots.ShotCountAfterShot | src/components/BattleshipGame.jsx:173-186 | a first shot at a cell adds one to a ship's shot count exactly when the ship holds the cell |
| Shots.FireKeepsFleet | src/components/BattleshipGame.jsx:173-190 | a shot at an untried cell keeps hits equal to the shots on each ship's cells, and the layout consistent |
| Shots.FireHitsOwner | src/components/BattleshipGame.jsx:183-190 | on a consistent layout, a shot adds one hit to the ship whose cells hold the cell and none to any other |
| Shots.FireSunkOwner | src/components/BattleshipGame.jsx:183-189 | on a consistent layout, the shot reports a ship sunk exactly when the ship holding the cell now has hits equal to its size, and then under that cell's name |
| Shots.FireHitsBounded | src/components/BattleshipGame.jsx:185-187 | after a shot at an untried cell no ship has more hits than cells |
| Shots.HitsBounded | src/components/BattleshipGame.jsx:186-187 | no ship has more hits than cells |
| Shots.DefeatIffAllShipCellsShot | src/components/BattleshipGame.jsx:198 | every ship is sunk exactly when every occupied cell has been shot |
| Shots.UnshotCellWhileAfloat | src/components/BattleshipGame.jsx:297-302 | while a ship is afloat some cell is untried, so the random search can end |
| Shots.Summary | src/components/BattleshipGame.jsx:213-219 | a cell is `unknown` exactly when unshot, `hit` exactly when shot on a named ship, `miss` otherwise |
| Shots.Truthy | src/components/BattleshipGame.jsx:215-218 | JavaScript truthiness of a cell in the summary: it holds a non-empty ship name (no contract of its own; `Summary` and `SummaryMatchesBoard` use it) |
| Shots.SummaryShotsRoundTrip | src/components/BattleshipGame.jsx:213-219 | the summary keeps every shot: reading it back gives the shot grid |
| Shots.SummaryMatchesBoard | src/components/BattleshipGame.jsx:213-219 | on a consistent fleet, `hit` marks exactly the shot ship cells and `miss` exactly the shot empty cells |
| Shots.ShotTarget | src/components/BattleshipGame.jsx:252-257 | a shot text is accepted exactly when it parses to an on-board untried cell |
| Shots.FirstUnshot | src/components/BattleshipGame.jsx:297-302 | the first draw naming an untried cell; all earlier draws are tried cells |
| Shots.GenerateRandomShot | src/components/BattleshipGame.jsx:297-305 | the do-while returns the first untried drawn cell as text, which the shot check accepts as that cell |
| Game.Initial | src/components/BattleshipGame.jsx:7-18 | initially empty grids, no shots, setup, the player to move, an empty log and no ships |
| Game.InitialInvariant | src/components/BattleshipGame.jsx:7-18 | the initial state satisfies the game invariant |
| Game.Deploy | src/components/BattleshipGame.jsx:131-136 | the state `placeShipsRandomly` sets: new grids and ships, play, the log restarted with the deployment entry; shots and turn as they were (no contract of its own; `DeployKeepsInvariant` and `PlaceShipsRandomly` carry the properties) |
| Game.DeployKeepsInvariant | src/components/BattleshipGame.jsx:131-136 | installing two placed fleets from setup gives a consistent game in play |
| Game.DeployFleetsKeepInvariant | src/components/BattleshipGame.jsx:82-136 | whatever the draws, `placeShipsRandomly` from setup gives a consistent game |
| Game.PlayerShot | src/components/BattleshipGame.jsx:170-206 | the specification of `handlePlayerShot`: the guard at line 171 returns the state, any other shot is `PlayerFire` (no contract of its own; the `PlayerShot*` lemmas state its properties) |
| Game.PlayerFire | src/components/BattleshipGame.jsx:173-204 | the player's shot past the guard: `Fire` on the opponent's side, the report logged, victory when every opponent ship is sunk, else the opponent's turn (no contract of its own; the `PlayerShot*` lemmas state its properties) |
| Game.PlayerShotKeepsInvariant | src/components/BattleshipGame.jsx:170-206 | the player's shot keeps the game invariant |
| Game.PlayerShotIgnored | src/components/BattleshipGame.jsx:171 | out of play, on the opponent's turn, or on a tried cell, the shot changes nothing |
| Game.PlayerShotMarksOneCell | src/components/BattleshipGame.jsx:173-175 | a legal shot marks its own cell only and leaves both grids, the opponent's shots and the player's fleet alone |
| Game.PlayerShotHitsOwner | src/components/BattleshipGame.jsx:183-190 | a legal shot adds one hit to the ship holding the cell and none to any other; no ship exceeds its size |
| Game.PlayerShotOutcome | src/components/BattleshipGame.jsx:195-204 | the earlier log is kept and exactly one entry is added, two on a win; game over with victory last exactly when every opponent ship is sunk, else play goes on with the opponent to move |
| Game.PlayerShotReport | src/components/BattleshipGame.jsx:177-195 | the added entry is the player's report of the cell's text, a hit exactly when the opponent's cell holds a ship, naming the ship as sunk exactly when the ship holding the cell now has hits equal to its size |
| Game.AiShotText | src/components/BattleshipGame.jsx:240-249 | the shot text of the turn: a move's own `shot`; when the reply is not JSON, the first untried drawn cell written as text, which the shot check always accepts as that cell |
| Game.AiShot | src/components/BattleshipGame.jsx:257-287 | the opponent's shot at an accepted cell: `Fire` on the player's side, report and commentary logged, defeat when every player ship is sunk, else the player's turn (no contract of its own; `AiShotEffect` and `AiShotReport` state its properties) |
| Game.AiResolve | src/components/BattleshipGame.jsx:252-294 | an accepted shot text is fired by `AiShot`; any other text only hands the turn back (no contract of its own; `MoveShotLands`, `AiTurnWithoutTarget` and `FallbackShotLands` state its cases) |
| Game.AiTurn | src/components/BattleshipGame.jsx:209-295 | the specification of `handleAITurn`: nothing without an agent, the turn handed back on a failed request, otherwise `AiResolve` of the reply's text (no contract of its own; `AiTurnNoAgent`, `AiTurnRequestFailed`, `MoveShotLands`, `AiTurnWithoutTarget` and `FallbackShotLands` state its cases) |
| Game.AiShotHitsOwner | src/components/BattleshipGame.jsx:267-274 | the opponent's shot adds one hit to the player's ship holding the cell and none to any other; no ship exceeds its size |
| Game.AiShotKeepsInvariant | src/components/BattleshipGame.jsx:257-286 | the opponent's shot at an untried cell keeps the game invariant; when it does not end the game, an untried cell remains for the next turn |
| Game.AiShotEffect | src/components/BattleshipGame.jsx:257-287 | the opponent's shot marks one cell and changes neither grid, the opponent's fleet nor the player's shots; the earlier log is kept and gains exactly two entries, the second the commentary, three on a defeat; defeat exactly when every player ship is sunk, else the player's turn |
| Game.AiShotReport | src/components/BattleshipGame.jsx:262-279 | the first added entry is the opponent's report with its own shot text, a hit exactly when the player's cell holds a ship, naming the ship as sunk exactly when the player's ship holding the cell now has hits equal to its size |
| Game.AiTurnKeepsInvariant | src/components/BattleshipGame.jsx:209-295 | the opponent's turn keeps the game invariant, whatever the reply |
| Game.AiTurnWithoutTarget | src/components/BattleshipGame.jsx:252-257 | a move naming no cell, an off-board cell or a tried cell fires nothing and only hands the turn back |
| Game.FallbackShotLands | src/components/BattleshipGame.jsx:240-257 | a non-JSON reply always fires at the first untried drawn cell, with the fallback commentary |
| Game.AiTurnNoAgent | src/components/BattleshipGame.jsx:210 | without an agent id the opponent's turn leaves the whole state unchanged, the turn included |
| Game.AiTurnRequestFailed | src/components/BattleshipGame.jsx:289-294 | a failed request fires no shot and changes nothing but the turn, which goes back to the player |
| Game.MoveShotLands | src/components/BattleshipGame.jsx:252-287 | a move whose text the check accepts as an untried cell (`B05` or `xB12J3` as well as `B5`) fires at exactly that cell with the move's own text and commentary |
| Game.FormattedMoveLands | src/components/BattleshipGame.jsx:252-257 | a move naming an untried cell in the cell's own format fires at exactly that cell |
| Game.BattleshipGame.constructor | src/components/BattleshipGame.jsx:7-18 | the new game is the initial state and valid |
| Game.BattleshipGame.ResetGame | src/components/BattleshipGame.jsx:307-317 | every field is back to its initial value, and the state is valid |
| Game.BattleshipGame.PlaceShipsRandomly | src/components/BattleshipGame.jsx:82-136 | the new grids and ships are the fleet loop's result for each side, play begins with the deployment log entry, and the state stays valid |
| Game.BattleshipGame.BeginPlay | src/components/BattleshipGame.jsx:131-136 | installs the grids and ships, sets play, restarts the log with the deployment entry |
| Game.BattleshipGame.HandlePlayerShot | src/components/BattleshipGame.jsx:170-206 | the new state is the player's shot applied to the old one, and the state stays valid |
| Game.BattleshipGame.FirePlayerShot | src/components/BattleshipGame.jsx:173-204 | the post-guard part of the player's shot: new state as the shot specification says |
| Game.BattleshipGame.HandleAITurn | src/components/BattleshipGame.jsx:209-295 | the new state is the opponent's turn applied to the old one with the given reply and draws, and the state stays valid |
| Game.BattleshipGame.ResolveAiShot | src/components/BattleshipGame.jsx:252-294 | an accepted shot text fires at its cell; any other text only hands the turn back |

## Left out

- The agent service calls (`create-agent`, `chat`, `input_data`, `return_data`) are left out: network I/O. Their outcomes are the inputs `agentReady` and `AgentReply`.
- The request text sent to the agent is left out. `Summary` models the grids it carries; the most recent log line it also carries is not modelled.
- `Math.random()` is not modelled. Every draw is a parameter, and the model does not make `Math.floor(Math.random() * 10)` uniform or even in range; `Placement.PlaceShip` and `Placement.PlaceFleets` require draws with in-range origins, 100 per ship.
- `setTimeout` and the `async` handlers are left out: the 1-second delay, an AI turn landing after a reset, and the handler closures capturing earlier state. `HandleAITurn` runs on the state it is given.
- `logApiCall`, the API call list, `console.error`, timestamps and the stored game data object (`gameDataObject`, `showRawData`) are left out as debugging and storage side effects.
- The emoji log text is modelled as `Event` values. The commentary and shot text of an opponent move are kept verbatim.
- Aliasing is not modelled: the spread copies share row arrays, and `ship.hits++` mutates the ship object held in state. The model reassigns whole grid and ship-list values, which gives the state React renders next.
- A JSON reply whose `shot` is missing or not a string makes `match` throw into the turn's `catch`. This is folded into `RequestFailed`, which the code handles the same way.
- `Coordinates.ParseShot`: `parseInt` loses precision above 2^53. The model reads arbitrarily long digit runs exactly, which only differs for columns that fail the range check anyway.
- `Shots.GenerateRandomShot`: requires that the draws contain an untried cell, which stands for the `do ... while` loop ending. Such a cell always exists when the call is reached: the game invariant keeps an untried cell in play, by `Shots.UnshotCellWhileAfloat` after every opponent shot that does not end the game. Which random draws find it is not modelled.
- `Game.BattleshipGame.HandleAITurn`: requires play and the opponent's turn. The code reaches it only through the timer set by a player's shot that passes the turn.
- `Game.BattleshipGame.PlaceShipsRandomly`: requires setup. The button that calls it is shown only in setup.
- `Game.BattleshipGame.HandlePlayerShot`: requires an on-board cell. Clicks come only from the 10x10 grid.
- The UI components (`GameGrid`, `GameLog`, `ApiDebugger`, the chat widget) are not part of this model.
