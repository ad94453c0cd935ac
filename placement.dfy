/// Fleet placement: for every ship of the fleet, up to 100 random draws of
/// an orientation and a start cell; the first draw whose whole run is on the
/// board and free is written into the grid and recorded in the ship list.
/// The random draws are an input here.
module Placement {
  import opened Board

  /** Retry bound of `placeShip`. */
  const MaxAttempts: nat := 100

  /** One random draw of `placeShip`: a start cell and an orientation. */
  datatype Draw = Draw(origin: Coord, horizontal: bool)

  /** `c` is on the board and holds no ship. */
  predicate IsFree(g: Grid, c: Coord)
    requires IsGrid(g)
  {
    InRange(c) && At(g, c) == Empty
  }

  /** Every cell of the run is on the board and free. */
  predicate Fits(g: Grid, origin: Coord, size: nat, horizontal: bool)
    requires IsGrid(g)
  {
    forall i :: 0 <= i < size ==> IsFree(g, RunCell(origin, i, horizontal))
  }

  /** `canPlaceShip`: a bound check on the far end, then a scan of the run
      that stops at the first occupied cell. */
  method CanPlaceShip(g: Grid, row: int, col: int, size: nat, horizontal: bool) returns (ok: bool)
    requires IsGrid(g) && InRange(Coord(row, col))
    ensures ok <==> Fits(g, Coord(row, col), size, horizontal)
  {
    var origin := Coord(row, col);
    if horizontal {
      if col + size > Size {
        assert !IsFree(g, RunCell(origin, Size - col, true));
        return false;
      }
      for i := 0 to size
        invariant forall j :: 0 <= j < i ==> IsFree(g, RunCell(origin, j, true))
      {
        if g[row][col + i] != Empty {
          assert !IsFree(g, RunCell(origin, i, true));
          return false;
        }
      }
    } else {
      if row + size > Size {
        assert !IsFree(g, RunCell(origin, Size - row, false));
        return false;
      }
      for i := 0 to size
        invariant forall j :: 0 <= j < i ==> IsFree(g, RunCell(origin, j, false))
      {
        if g[row + i][col] != Empty {
          assert !IsFree(g, RunCell(origin, i, false));
          return false;
        }
      }
    }
    return true;
  }

  predicate FitsDraw(g: Grid, size: nat, d: Draw)
    requires IsGrid(g)
  {
    Fits(g, d.origin, size, d.horizontal)
  }

  /** Index of the first draw, at or after `from`, whose run fits. */
  function FirstFit(g: Grid, size: nat, draws: seq<Draw>, from: nat): (r: Option<nat>)
    requires IsGrid(g)
    ensures r.Some? ==> from <= r.value < |draws| && FitsDraw(g, size, draws[r.value])
    ensures r.Some? ==> forall j :: from <= j < r.value ==> !FitsDraw(g, size, draws[j])
    ensures r.None? ==> forall j :: from <= j < |draws| ==> !FitsDraw(g, size, draws[j])
    decreases |draws| - from
  {
    if from >= |draws| then None
    else if FitsDraw(g, size, draws[from]) then Some(from)
    else FirstFit(g, size, draws, from + 1)
  }

  /** The grid after `grid[r][c] = name` for every cell of `cells`, in order. */
  function Stamp(g: Grid, cells: seq<Coord>, name: string): (g': Grid)
    requires IsGrid(g)
    requires forall i :: 0 <= i < |cells| ==> InRange(cells[i])
    ensures IsGrid(g')
    ensures forall c :: InRange(c) ==> At(g', c) == if c in cells then Occupied(name) else At(g, c)
    decreases |cells|
  {
    if cells == [] then g
    else
      var prefix := cells[..|cells| - 1];
      assert cells == prefix + [cells[|cells| - 1]];
      Update(Stamp(g, prefix, name), cells[|cells| - 1], Occupied(name))
  }

  /** The grid and ship list one `placeShip` call leaves: unchanged when
      no draw fits; otherwise the run of the first draw that fits holds the
      ship's name, and the ship is appended with its run and no hits. */
  function PlaceOne(grid: Grid, ships: seq<Ship>, spec: ShipSpec, draws: seq<Draw>): (r: (Grid, seq<Ship>))
    requires IsGrid(grid)
    ensures IsGrid(r.0)
    ensures FirstFit(grid, spec.size, draws, 0).None? ==> r == (grid, ships)
    ensures FirstFit(grid, spec.size, draws, 0).Some? ==>
              var d := draws[FirstFit(grid, spec.size, draws, 0).value];
              var cells := Run(d.origin, spec.size, d.horizontal);
              && Fits(grid, d.origin, spec.size, d.horizontal)
              && r.1 == ships + [Ship(spec.name, spec.size, cells, 0)]
              && forall c :: InRange(c) ==> At(r.0, c) == if c in cells then Occupied(spec.name) else At(grid, c)
  {
    match FirstFit(grid, spec.size, draws, 0)
    case None => (grid, ships)
    case Some(k) =>
      var d := draws[k];
      var cells := Run(d.origin, spec.size, d.horizontal);
      (Stamp(grid, cells, spec.name), ships + [Ship(spec.name, spec.size, cells, 0)])
  }

  /** `placeShip`: at most `MaxAttempts` draws; the first that fits is
      written into the grid and appended to the ship list with no hits. */
  method PlaceShip(grid: Grid, ships: seq<Ship>, spec: ShipSpec, draws: seq<Draw>)
    returns (grid': Grid, ships': seq<Ship>)
    requires IsGrid(grid)
    requires |draws| == MaxAttempts
    requires forall k :: 0 <= k < |draws| ==> InRange(draws[k].origin)
    ensures (grid', ships') == PlaceOne(grid, ships, spec, draws)
  {
    grid', ships' := grid, ships;
    var placed := false;
    var attempts := 0;
    while !placed && attempts < MaxAttempts
      invariant 0 <= attempts <= MaxAttempts
      invariant IsGrid(grid')
      invariant !placed ==> grid' == grid && ships' == ships
      invariant !placed ==> forall j :: 0 <= j < attempts ==> !FitsDraw(grid, spec.size, draws[j])
      invariant placed ==> (grid', ships') == PlaceOne(grid, ships, spec, draws)
    {
      var d := draws[attempts];
      var fits := CanPlaceShip(grid', d.origin.row, d.origin.col, spec.size, d.horizontal);
      if fits {
        FirstFitAt(grid, spec.size, draws, attempts);
        var cells;
        grid', cells := WriteShip(grid', spec, d);
        ships' := ships' + [Ship(spec.name, spec.size, cells, 0)];
        placed := true;
      }
      attempts := attempts + 1;
    }
    if !placed {
      assert FirstFit(grid, spec.size, draws, 0).None?;
    }
  }

  lemma FirstFitAt(g: Grid, size: nat, draws: seq<Draw>, k: nat)
    requires IsGrid(g) && k < |draws| && FitsDraw(g, size, draws[k])
    requires forall j :: 0 <= j < k ==> !FitsDraw(g, size, draws[j])
    ensures FirstFit(g, size, draws, 0) == Some(k)
  {
  }

  /** The inner loop of `placeShip`: the ship's name goes into each cell of
      its run, which is collected as the ship's `cells`. */
  method WriteShip(grid: Grid, spec: ShipSpec, d: Draw) returns (grid': Grid, cells: seq<Coord>)
    requires IsGrid(grid) && Fits(grid, d.origin, spec.size, d.horizontal)
    ensures cells == Run(d.origin, spec.size, d.horizontal)
    ensures grid' == Stamp(grid, cells, spec.name)
  {
    ghost var run := Run(d.origin, spec.size, d.horizontal);
    grid', cells := grid, [];
    for i := 0 to spec.size
      invariant IsGrid(grid')
      invariant cells == run[..i]
      invariant grid' == Stamp(grid, cells, spec.name)
    {
      var c := RunCell(d.origin, i, d.horizontal);
      assert c == run[i] && IsFree(grid, c);
      grid' := Update(grid', c, Occupied(spec.name));
      cells := cells + [c];
    }
    assert cells == run;
  }

  /** Writing a name into distinct free cells adds exactly that many
      occupied cells. */
  lemma {:induction false} StampCount(g: Grid, cells: seq<Coord>, name: string)
    requires IsGrid(g) && Distinct(cells)
    requires forall i :: 0 <= i < |cells| ==> InRange(cells[i]) && At(g, cells[i]) == Empty
    ensures CountOccupied(Stamp(g, cells, name)) == CountOccupied(g) + |cells|
    decreases |cells|
  {
    if cells != [] {
      var prefix := cells[..|cells| - 1];
      var last := cells[|cells| - 1];
      StampCount(g, prefix, name);
      assert last !in prefix;
      CountAfterOccupy(Stamp(g, prefix, name), last, name);
    }
  }

  /** Writing a name into free cells leaves every ship already placed where it was. */
  lemma StampKeepsShips(g: Grid, ships: seq<Ship>, cells: seq<Coord>, name: string)
    requires Layout(g, ships)
    requires forall i :: 0 <= i < |cells| ==> InRange(cells[i]) && At(g, cells[i]) == Empty
    ensures forall k :: 0 <= k < |ships| ==> Placed(Stamp(g, cells, name), ships[k])
  {
    var g' := Stamp(g, cells, name);
    forall k, i | 0 <= k < |ships| && 0 <= i < |ships[k].cells|
      ensures At(g', ships[k].cells[i]) == Occupied(ships[k].name)
    {
      assert Placed(g, ships[k]);
      assert ships[k].cells[i] !in cells;
    }
  }

  /** After a new ship's cells are written, every occupied cell still
      belongs to the ship its name finds, the new ship included. */
  lemma StampKeepsOwners(g: Grid, ships: seq<Ship>, s: Ship)
    requires Layout(g, ships)
    requires forall i :: 0 <= i < |s.cells| ==> InRange(s.cells[i])
    requires forall k :: 0 <= k < |ships| ==> ships[k].name != s.name
    ensures var g' := Stamp(g, s.cells, s.name);
            forall c :: InRange(c) && At(g', c).Occupied? ==> Owns(ships + [s], At(g', c).name, c)
  {
    var g' := Stamp(g, s.cells, s.name);
    var all := ships + [s];
    forall c | InRange(c) && At(g', c).Occupied?
      ensures Owns(all, At(g', c).name, c)
    {
      FindShipAppend(ships, s, At(g', c).name);
      if c in s.cells {
        assert all[|ships|] == s;
      } else {
        assert Owns(ships, At(g, c).name, c);
        assert all[FindShip(ships, At(g, c).name).value] == ships[FindShip(ships, At(g, c).name).value];
      }
    }
  }

  /** Writing a new ship into a free run keeps grid and ship list in agreement. */
  lemma PlaceKeepsLayout(g: Grid, ships: seq<Ship>, d: Draw, spec: ShipSpec)
    requires Layout(g, ships)
    requires spec.name != "" && spec.size > 0
    requires Fits(g, d.origin, spec.size, d.horizontal)
    requires forall k :: 0 <= k < |ships| ==> ships[k].name != spec.name
    ensures var cells := Run(d.origin, spec.size, d.horizontal);
            Layout(Stamp(g, cells, spec.name), ships + [Ship(spec.name, spec.size, cells, 0)])
  {
    var cells := Run(d.origin, spec.size, d.horizontal);
    var s := Ship(spec.name, spec.size, cells, 0);
    var g' := Stamp(g, cells, spec.name);
    var all := ships + [s];
    assert forall i :: 0 <= i < |cells| ==> InRange(cells[i]) && At(g, cells[i]) == Empty by {
      assert forall i :: 0 <= i < |cells| ==> IsFree(g, RunCell(d.origin, i, d.horizontal));
    }
    RunDistinct(d.origin, spec.size, d.horizontal);
    assert Straight(cells) by {
      assert cells[0] == d.origin;
    }
    StampKeepsShips(g, ships, cells, spec.name);
    StampKeepsOwners(g, ships, s);
    assert Placed(g', s);
    forall k | 0 <= k < |all|
      ensures Placed(g', all[k])
    {
      if k < |ships| {
        assert all[k] == ships[k];
      }
    }
    assert DistinctNames(all);
  }

  /** Progress of the fleet loop after the first `n` specs of the fleet were tried. */
  ghost predicate Deployed(g: Grid, ships: seq<Ship>, n: nat)
    requires n <= |Fleet|
  {
    && Layout(g, ships)
    && (forall k :: 0 <= k < |ships| ==> ships[k].hits == 0)
    && (forall k, j :: 0 <= k < |ships| && n <= j < |Fleet| ==> ships[k].name != Fleet[j].name)
    && |ships| <= n
    && CountOccupied(g) == SumSizes(ships) <= SpecTotal(Fleet[..n])
    && (|ships| == n ==> SumSizes(ships) == SpecTotal(Fleet[..n]))
  }

  lemma SpecTotalStep(n: nat)
    requires n < |Fleet|
    ensures SpecTotal(Fleet[..n + 1]) == SpecTotal(Fleet[..n]) + Fleet[n].size
  {
    assert Fleet[..n + 1][..n] == Fleet[..n];
  }

  lemma SumSizesAppend(ships: seq<Ship>, s: Ship)
    ensures SumSizes(ships + [s]) == SumSizes(ships) + s.size
  {
    assert (ships + [s])[..|ships|] == ships;
  }

  /** Writing a ship into the free run of a draw adds the ship's size to
      the number of occupied cells. */
  lemma StampRunCount(g: Grid, spec: ShipSpec, d: Draw)
    requires IsGrid(g) && FitsDraw(g, spec.size, d)
    ensures CountOccupied(Stamp(g, Run(d.origin, spec.size, d.horizontal), spec.name)) == CountOccupied(g) + spec.size
  {
    RunDistinct(d.origin, spec.size, d.horizontal);
    StampCount(g, Run(d.origin, spec.size, d.horizontal), spec.name);
  }

  /** A spec for which no draw fits leaves the fleet loop's progress intact. */
  lemma SkipShip(g: Grid, ships: seq<Ship>, n: nat)
    requires n < |Fleet| && Deployed(g, ships, n)
    ensures Deployed(g, ships, n + 1)
  {
    SpecTotalStep(n);
  }

  /** The fleet loop's progress grows by one ship: a layout that keeps the
      earlier ships and appends one, unhit, named after the `n`-th spec and
      covering as many more cells as that spec's size. */
  lemma DeployedGrows(g: Grid, ships: seq<Ship>, n: nat, g': Grid, ships': seq<Ship>)
    requires n < |Fleet| && Deployed(g, ships, n)
    requires Layout(g', ships')
    requires |ships'| == |ships| + 1 && ships'[..|ships|] == ships
    requires ships'[|ships|].name == Fleet[n].name && ships'[|ships|].hits == 0
    requires CountOccupied(g') == CountOccupied(g) + Fleet[n].size
    requires SumSizes(ships') == SumSizes(ships) + Fleet[n].size
    ensures Deployed(g', ships', n + 1)
  {
    SpecTotalStep(n);
    FleetNamesDistinct();
    forall k | 0 <= k < |ships|
      ensures ships'[k] == ships[k]
    {
      assert ships'[..|ships|][k] == ships'[k];
    }
  }

  /** Writing the `n`-th ship of the fleet into a free run extends the
      fleet loop's progress by that ship. */
  lemma AddShip(g: Grid, ships: seq<Ship>, n: nat, d: Draw)
    requires n < |Fleet| && Deployed(g, ships, n)
    requires FitsDraw(g, Fleet[n].size, d)
    ensures var spec := Fleet[n];
            var cells := Run(d.origin, spec.size, d.horizontal);
            Deployed(Stamp(g, cells, spec.name), ships + [Ship(spec.name, spec.size, cells, 0)], n + 1)
  {
    var spec := Fleet[n];
    var cells := Run(d.origin, spec.size, d.horizontal);
    var ships' := ships + [Ship(spec.name, spec.size, cells, 0)];
    assert spec.name != "" && spec.size > 0;
    PlaceKeepsLayout(g, ships, d, spec);
    StampRunCount(g, spec, d);
    SumSizesAppend(ships, Ship(spec.name, spec.size, cells, 0));
    assert ships'[..|ships|] == ships;
    DeployedGrows(g, ships, n, Stamp(g, cells, spec.name), ships');
  }

  /** One more spec tried on one side keeps the fleet loop's progress. */
  lemma PlaceShipStep(g: Grid, ships: seq<Ship>, n: nat, draws: seq<Draw>)
    requires n < |Fleet| && Deployed(g, ships, n)
    ensures var r := PlaceOne(g, ships, Fleet[n], draws); Deployed(r.0, r.1, n + 1)
  {
    match FirstFit(g, Fleet[n].size, draws, 0)
    case None => SkipShip(g, ships, n);
    case Some(k) => AddShip(g, ships, n, draws[k]);
  }

  /** The grid and ship list the fleet loop leaves on one side once the
      first `n` specs of the fleet were tried in order, each with its own
      draws. */
  function DeployFleet(n: nat, draws: seq<seq<Draw>>): (r: (Grid, seq<Ship>))
    requires n <= |Fleet| && n <= |draws|
    ensures IsGrid(r.0)
  {
    if n == 0 then (Filled(Empty), [])
    else
      var prev := DeployFleet(n - 1, draws);
      PlaceOne(prev.0, prev.1, Fleet[n - 1], draws[n - 1])
  }

  /** After any prefix of the fleet was tried, whatever the draws, the ships
      placed lie on the grid without overlap, have no hits, and cover as many
      cells as their sizes add up to: all of the prefix's sizes when every
      ship found room. */
  lemma {:induction false} DeployFleetDeployed(n: nat, draws: seq<seq<Draw>>)
    requires n <= |Fleet| && n <= |draws|
    ensures var r := DeployFleet(n, draws); Deployed(r.0, r.1, n)
  {
    if n == 0 {
      EmptyGridCount();
    } else {
      DeployFleetDeployed(n - 1, draws);
      var prev := DeployFleet(n - 1, draws);
      PlaceShipStep(prev.0, prev.1, n - 1, draws[n - 1]);
    }
  }

  /** The fleet loop of `placeShipsRandomly`: every ship of the fleet, in
      order, placed on the player's grid and then on the opponent's. */
  method PlaceFleets(playerDraws: seq<seq<Draw>>, aiDraws: seq<seq<Draw>>)
    returns (playerGrid: Grid, playerShips: seq<Ship>, aiGrid: Grid, aiShips: seq<Ship>)
    requires |playerDraws| == |Fleet| && |aiDraws| == |Fleet|
    requires forall n :: 0 <= n < |Fleet| ==> |playerDraws[n]| == MaxAttempts && |aiDraws[n]| == MaxAttempts
    requires forall n, k :: 0 <= n < |Fleet| && 0 <= k < MaxAttempts ==> InRange(playerDraws[n][k].origin)
    requires forall n, k :: 0 <= n < |Fleet| && 0 <= k < MaxAttempts ==> InRange(aiDraws[n][k].origin)
    ensures (playerGrid, playerShips) == DeployFleet(|Fleet|, playerDraws)
    ensures (aiGrid, aiShips) == DeployFleet(|Fleet|, aiDraws)
  {
    playerGrid, aiGrid := Filled(Empty), Filled(Empty);
    playerShips, aiShips := [], [];
    for n := 0 to |Fleet|
      invariant (playerGrid, playerShips) == DeployFleet(n, playerDraws)
      invariant (aiGrid, aiShips) == DeployFleet(n, aiDraws)
    {
      playerGrid, playerShips := PlaceShip(playerGrid, playerShips, Fleet[n], playerDraws[n]);
      aiGrid, aiShips := PlaceShip(aiGrid, aiShips, Fleet[n], aiDraws[n]);
    }
  }
}
