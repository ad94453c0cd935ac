/// Shot resolution, shared by the player's and the opponent's turn: mark the
/// shot grid, decide hit or miss from the target grid, add one hit to the
/// ship found under the cell's name, and report whether it is now sunk.
/// Also the hit/miss/unknown summary sent to the opponent, the check of an
/// opponent's shot text, and the random untried shot.
module Shots {
  import opened Board
  import opened Coordinates

  datatype ShotResult = ShotResult(shots: ShotGrid, ships: seq<Ship>, hit: bool, sunk: Option<string>)

  /** One shot at `c`: the shot cell is set, and on a hit the ship found
      under the cell's name gets one more hit. */
  function Fire(grid: Grid, shots: ShotGrid, ships: seq<Ship>, c: Coord): (r: ShotResult)
    requires IsGrid(grid) && IsGrid(shots) && InRange(c)
    ensures r.shots == Update(shots, c, true)
    ensures r.hit <==> At(grid, c).Occupied?
    ensures |r.ships| == |ships|
    ensures forall k :: 0 <= k < |ships| ==> r.ships[k].(hits := ships[k].hits) == ships[k]
    ensures forall k :: 0 <= k < |ships| ==>
              r.ships[k].hits == ships[k].hits + if r.hit && FindShip(ships, At(grid, c).name) == Some(k) then 1 else 0
    ensures r.sunk.Some? ==> r.hit && r.sunk.value == At(grid, c).name
    ensures At(grid, c).Occupied? && FindShip(ships, At(grid, c).name).None? ==> r.sunk.None?
    ensures r.hit && FindShip(ships, At(grid, c).name).Some? ==>
              var k := FindShip(ships, At(grid, c).name).value;
              (r.sunk.Some? <==> r.ships[k].hits == r.ships[k].size)
  {
    var shots' := Update(shots, c, true);
    match At(grid, c)
    case Empty => ShotResult(shots', ships, false, None)
    case Occupied(name) =>
      match FindShip(ships, name)
      case None => ShotResult(shots', ships, true, None)
      case Some(k) =>
        var ship := ships[k].(hits := ships[k].hits + 1);
        ShotResult(shots', ships[k := ship], true, if ship.hits == ship.size then Some(name) else None)
  }

  /** A first shot at `c` counts once for every cell list that holds `c`. */
  lemma {:induction false} ShotCountAfterShot(cells: seq<Coord>, shots: ShotGrid, c: Coord)
    requires IsGrid(shots) && InRange(c) && !At(shots, c)
    requires Distinct(cells)
    requires forall i :: 0 <= i < |cells| ==> InRange(cells[i])
    ensures ShotCount(cells, Update(shots, c, true)) == ShotCount(cells, shots) + if c in cells then 1 else 0
  {
    if cells != [] {
      assert c in cells <==> c == cells[0] || c in cells[1..];
      assert c == cells[0] ==> c !in cells[1..];
      ShotCountAfterShot(cells[1..], shots, c);
    }
  }

  /** A shot at a cell not shot before keeps the fleet invariant: the
      layout is untouched, and the one ship that owns the cell, and no
      other, gains the one hit that the new shot cell adds to its count. */
  lemma FireKeepsFleet(grid: Grid, shots: ShotGrid, ships: seq<Ship>, c: Coord)
    requires FleetOk(grid, ships, shots) && InRange(c) && !At(shots, c)
    ensures FleetOk(grid, Fire(grid, shots, ships, c).ships, Fire(grid, shots, ships, c).shots)
    ensures SumSizes(Fire(grid, shots, ships, c).ships) == SumSizes(ships)
  {
    var r := Fire(grid, shots, ships, c);
    forall name
      ensures FindShip(r.ships, name) == FindShip(ships, name)
    {
      SameNamesSameFind(ships, r.ships, name);
    }
    forall k | 0 <= k < |ships|
      ensures r.ships[k].hits == ShotCount(r.ships[k].cells, r.shots)
    {
      ShotCountAfterShot(ships[k].cells, shots, c);
      if c in ships[k].cells {
        FindOwnName(ships, k);
      } else if r.hit {
        assert Owns(ships, At(grid, c).name, c);
      }
    }
    forall k | 0 <= k < |ships|
      ensures Placed(grid, r.ships[k])
    {
      assert Placed(grid, ships[k]);
    }
    forall p | InRange(p) && At(grid, p).Occupied?
      ensures Owns(r.ships, At(grid, p).name, p)
    {
      assert Owns(ships, At(grid, p).name, p);
    }
    assert DistinctNames(r.ships);
    assert Layout(grid, r.ships);
    SameSizesSameSum(ships, r.ships);
  }

  /** A shot adds one hit to the ship holding the cell and none to any other. */
  lemma FireHitsOwner(grid: Grid, shots: ShotGrid, ships: seq<Ship>, c: Coord)
    requires Layout(grid, ships) && IsGrid(shots) && InRange(c)
    ensures var r := Fire(grid, shots, ships, c);
      && |r.ships| == |ships|
      && (forall k :: 0 <= k < |ships| ==> r.ships[k].hits == ships[k].hits + (if c in ships[k].cells then 1 else 0))
  {
    var r := Fire(grid, shots, ships, c);
    forall k | 0 <= k < |ships|
      ensures r.ships[k].hits == ships[k].hits + (if c in ships[k].cells then 1 else 0)
    {
      assert Placed(grid, ships[k]);
      if c in ships[k].cells {
        FindOwnName(ships, k);
      } else if At(grid, c).Occupied? {
        assert Owns(ships, At(grid, c).name, c);
      }
    }
  }

  /** On a consistent layout, a shot reports a ship as sunk exactly when
      the ship holding the shot cell now has as many hits as cells, and the
      name reported is that cell's. */
  lemma FireSunkOwner(grid: Grid, shots: ShotGrid, ships: seq<Ship>, c: Coord)
    requires Layout(grid, ships) && IsGrid(shots) && InRange(c)
    ensures var r := Fire(grid, shots, ships, c);
      && (r.sunk.Some? <==>
            exists k :: 0 <= k < |r.ships| && c in r.ships[k].cells && r.ships[k].hits == r.ships[k].size)
      && (r.sunk.Some? ==> r.sunk == Some(At(grid, c).name))
  {
    var r := Fire(grid, shots, ships, c);
    if r.sunk.Some? {
      assert Owns(ships, At(grid, c).name, c);
      var k := FindShip(ships, At(grid, c).name).value;
      assert r.ships[k].cells == ships[k].cells;
    } else {
      forall k | 0 <= k < |r.ships| && c in r.ships[k].cells
        ensures r.ships[k].hits != r.ships[k].size
      {
        assert r.ships[k].cells == ships[k].cells;
        assert Placed(grid, ships[k]);
        FindOwnName(ships, k);
      }
    }
  }

  lemma {:induction false} SameNamesSameFind(a: seq<Ship>, b: seq<Ship>, name: string)
    requires |a| == |b| && forall k :: 0 <= k < |a| ==> a[k].name == b[k].name
    ensures FindShip(a, name) == FindShip(b, name)
  {
    if a != [] {
      SameNamesSameFind(a[1..], b[1..], name);
    }
  }

  lemma {:induction false} SameSizesSameSum(a: seq<Ship>, b: seq<Ship>)
    requires |a| == |b| && forall k :: 0 <= k < |a| ==> a[k].size == b[k].size
    ensures SumSizes(a) == SumSizes(b)
  {
    if a != [] {
      SameSizesSameSum(a[..|a| - 1], b[..|b| - 1]);
    }
  }

  /** After a shot at an untried cell no ship has more hits than cells. */
  lemma FireHitsBounded(grid: Grid, shots: ShotGrid, ships: seq<Ship>, c: Coord)
    requires FleetOk(grid, ships, shots) && InRange(c) && !At(shots, c)
    ensures var r := Fire(grid, shots, ships, c);
      forall k :: 0 <= k < |r.ships| ==> r.ships[k].hits <= r.ships[k].size
  {
    FireKeepsFleet(grid, shots, ships, c);
    var r := Fire(grid, shots, ships, c);
    HitsBounded(grid, r.ships, r.shots);
  }

  /** A ship never takes more hits than it has cells. */
  lemma HitsBounded(grid: Grid, ships: seq<Ship>, shots: ShotGrid)
    requires FleetOk(grid, ships, shots)
    ensures forall k :: 0 <= k < |ships| ==> ships[k].hits <= ships[k].size
  {
    forall k | 0 <= k < |ships|
      ensures ships[k].hits <= ships[k].size
    {
      assert Placed(grid, ships[k]);
    }
  }

  /** The win check: every ship is sunk exactly when every occupied cell
      of the grid has been shot. */
  lemma DefeatIffAllShipCellsShot(grid: Grid, ships: seq<Ship>, shots: ShotGrid)
    requires FleetOk(grid, ships, shots)
    ensures AllSunk(ships) <==> forall c :: InRange(c) && At(grid, c).Occupied? ==> At(shots, c)
  {
    if AllSunk(ships) {
      forall c | InRange(c) && At(grid, c).Occupied?
        ensures At(shots, c)
      {
        assert Owns(ships, At(grid, c).name, c);
        var k := FindShip(ships, At(grid, c).name).value;
        assert Placed(grid, ships[k]);
        var i :| 0 <= i < |ships[k].cells| && ships[k].cells[i] == c;
      }
    } else {
      var k :| 0 <= k < |ships| && ships[k].hits != ships[k].size;
      assert Placed(grid, ships[k]);
      var i :| 0 <= i < |ships[k].cells| && !At(shots, ships[k].cells[i]);
      var c := ships[k].cells[i];
      assert InRange(c) && At(grid, c).Occupied? && !At(shots, c);
    }
  }

  /** While a ship is afloat some cell is still unshot, so a random
      search for an untried cell can succeed. */
  lemma UnshotCellWhileAfloat(grid: Grid, ships: seq<Ship>, shots: ShotGrid)
    requires FleetOk(grid, ships, shots) && !AllSunk(ships)
    ensures exists c :: InRange(c) && !At(shots, c)
  {
    DefeatIffAllShipCellsShot(grid, ships, shots);
  }

  /** A summary cell as sent to the opponent. */
  datatype Mark = Hit | Miss | Unknown

  /** JavaScript truthiness of a grid cell: a non-empty ship name. */
  predicate Truthy(cell: Cell) {
    cell.Occupied? && cell.name != ""
  }

  /** The `shots.map(... shot ? (grid[r][c] ? 'hit' : 'miss') : 'unknown')` summary. */
  function Summary(grid: Grid, shots: ShotGrid): (m: seq<seq<Mark>>)
    requires IsGrid(grid) && IsGrid(shots)
    ensures IsGrid(m)
    ensures forall c :: InRange(c) ==> (At(m, c) == Unknown <==> !At(shots, c))
    ensures forall c :: InRange(c) ==> (At(m, c) == Hit <==> At(shots, c) && Truthy(At(grid, c)))
    ensures forall c :: InRange(c) ==> (At(m, c) == Miss <==> At(shots, c) && !Truthy(At(grid, c)))
  {
    seq(Size, r requires 0 <= r < Size =>
      seq(Size, col requires 0 <= col < Size =>
        if shots[r][col] then (if Truthy(grid[r][col]) then Hit else Miss) else Unknown))
  }

  /** The shot grid read back from a summary: every mark but `unknown` is a shot. */
  function ShotsOfSummary(m: seq<seq<Mark>>): (shots: ShotGrid)
    requires IsGrid(m)
    ensures IsGrid(shots)
  {
    seq(Size, r requires 0 <= r < Size => seq(Size, col requires 0 <= col < Size => m[r][col] != Unknown))
  }

  /** The summary loses no shot: reading it back gives the shot grid. */
  lemma SummaryShotsRoundTrip(grid: Grid, shots: ShotGrid)
    requires IsGrid(grid) && IsGrid(shots)
    ensures ShotsOfSummary(Summary(grid, shots)) == shots
  {
    var m := Summary(grid, shots);
    var back := ShotsOfSummary(m);
    forall r | 0 <= r < Size
      ensures back[r] == shots[r]
    {
      forall col | 0 <= col < Size
        ensures back[r][col] == shots[r][col]
      {
        assert At(m, Coord(r, col)) == m[r][col];
      }
    }
  }

  /** On a consistent fleet the summary marks a hit exactly on the shot
      cells that hold a ship, and a miss exactly on the shot empty cells. */
  lemma SummaryMatchesBoard(grid: Grid, ships: seq<Ship>, shots: ShotGrid)
    requires Layout(grid, ships) && IsGrid(shots)
    ensures forall c :: InRange(c) ==>
              (At(Summary(grid, shots), c) == Hit <==> At(shots, c) && At(grid, c).Occupied?)
    ensures forall c :: InRange(c) ==>
              (At(Summary(grid, shots), c) == Miss <==> At(shots, c) && At(grid, c) == Empty)
  {
    forall c | InRange(c) && At(grid, c).Occupied?
      ensures Truthy(At(grid, c))
    {
      assert Owns(ships, At(grid, c).name, c);
      assert Placed(grid, ships[FindShip(ships, At(grid, c).name).value]);
    }
  }

  /** Lines 252-257 of the opponent's turn: the pattern must occur, the
      named cell must be on the board, and it must not have been shot. */
  function ShotTarget(text: string, shots: ShotGrid): (r: Option<Coord>)
    requires IsGrid(shots)
    ensures r.Some? ==> InRange(r.value) && !At(shots, r.value) && ParseShot(text) == r
    ensures r.None? ==> ParseShot(text).None? || !InRange(ParseShot(text).value) || At(shots, ParseShot(text).value)
  {
    match ParseShot(text)
    case None => None
    case Some(c) => if InRange(c) && !At(shots, c) then Some(c) else None
  }

  /** Index of the first draw, at or after `from`, that names an unshot cell. */
  function FirstUnshot(shots: ShotGrid, draws: seq<Coord>, from: nat): (k: nat)
    requires IsGrid(shots) && forall i :: 0 <= i < |draws| ==> InRange(draws[i])
    requires exists i :: from <= i < |draws| && !At(shots, draws[i])
    ensures from <= k < |draws| && !At(shots, draws[k])
    ensures forall j :: from <= j < k ==> At(shots, draws[j])
    decreases |draws| - from
  {
    if !At(shots, draws[from]) then from else FirstUnshot(shots, draws, from + 1)
  }

  /** `generateRandomShot`: draw cells until one has not been shot, and
      write it as text. The draws are an input and must contain an unshot
      cell, which is what lets the do-while loop end. */
  method GenerateRandomShot(shots: ShotGrid, draws: seq<Coord>) returns (shot: string)
    requires IsGrid(shots) && forall i :: 0 <= i < |draws| ==> InRange(draws[i])
    requires exists i :: 0 <= i < |draws| && !At(shots, draws[i])
    ensures shot == FormatCoord(draws[FirstUnshot(shots, draws, 0)])
    ensures ShotTarget(shot, shots) == Some(draws[FirstUnshot(shots, draws, 0)])
  {
    ghost var first := FirstUnshot(shots, draws, 0);
    var k := 0;
    var c := draws[k];
    while shots[c.row][c.col]
      invariant k <= first && c == draws[k]
      decreases first - k
    {
      k := k + 1;
      c := draws[k];
    }
    FormatParseRoundTrip(c);
    shot := FormatCoord(c);
  }
}
