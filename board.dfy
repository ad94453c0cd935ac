/// Board model of the Battleship engine: the 10x10 fleet grids whose cells
/// hold `null` or a ship name, the 10x10 shot grids beside them, the ship
/// records of each fleet, and the invariant that ties the three together.
module Board {

  datatype Option<T> = None | Some(value: T)

  /** Side length of every grid: rows A..J, columns 1..10. */
  const Size: nat := 10

  datatype Coord = Coord(row: int, col: int)

  predicate InRange(c: Coord) {
    0 <= c.row < Size && 0 <= c.col < Size
  }

  /** A cell of a fleet grid: `null`, or the name of the ship lying on it. */
  datatype Cell = Empty | Occupied(name: string)

  type Grid = seq<seq<Cell>>
  type ShotGrid = seq<seq<bool>>

  /** `g` has the shape of `Array(10).fill().map(() => Array(10).fill(v))`. */
  predicate IsGrid<T>(g: seq<seq<T>>) {
    |g| == Size && forall r :: 0 <= r < Size ==> |g[r]| == Size
  }

  function At<T>(g: seq<seq<T>>, c: Coord): T
    requires IsGrid(g) && InRange(c)
  {
    g[c.row][c.col]
  }

  /** A fresh grid with every cell set to `v`. */
  function Filled<T>(v: T): (g: seq<seq<T>>)
    ensures IsGrid(g)
    ensures forall c :: InRange(c) ==> At(g, c) == v
  {
    seq(Size, _ => seq(Size, _ => v))
  }

  /** `g[c.row][c.col] = v`: that one cell changes, no other. */
  function Update<T>(g: seq<seq<T>>, c: Coord, v: T): (g': seq<seq<T>>)
    requires IsGrid(g) && InRange(c)
    ensures IsGrid(g')
    ensures At(g', c) == v
    ensures forall d :: InRange(d) && d != c ==> At(g', d) == At(g, d)
  {
    g[c.row := g[c.row][c.col := v]]
  }

  datatype ShipSpec = ShipSpec(name: string, size: nat)

  /** The fleet of each side, in the order it is deployed. */
  const Fleet: seq<ShipSpec> := [
    ShipSpec("Carrier", 5),
    ShipSpec("Battleship", 4),
    ShipSpec("Cruiser", 3),
    ShipSpec("Submarine", 3),
    ShipSpec("Destroyer", 2)
  ]

  /** The record `{ ...ship, cells, hits }` pushed onto a ship list. */
  datatype Ship = Ship(name: string, size: nat, cells: seq<Coord>, hits: nat)

  /** Cell `i` of the run of a ship whose first cell is `origin`. */
  function RunCell(origin: Coord, i: int, horizontal: bool): Coord {
    if horizontal then Coord(origin.row, origin.col + i) else Coord(origin.row + i, origin.col)
  }

  function Run(origin: Coord, size: nat, horizontal: bool): (cells: seq<Coord>)
    ensures |cells| == size
    ensures forall i :: 0 <= i < size ==> cells[i] == RunCell(origin, i, horizontal)
  {
    seq(size, i => RunCell(origin, i, horizontal))
  }

  predicate Distinct<T(==)>(s: seq<T>) {
    forall i, j :: 0 <= i < j < |s| ==> s[i] != s[j]
  }

  /** The cells form one contiguous run along a row or along a column. */
  predicate Straight(cells: seq<Coord>) {
    |cells| > 0 &&
    (cells == Run(cells[0], |cells|, true) || cells == Run(cells[0], |cells|, false))
  }

  /** The cells of a run are pairwise different. */
  lemma RunDistinct(origin: Coord, size: nat, horizontal: bool)
    ensures Distinct(Run(origin, size, horizontal))
  {
  }

  /** `shipList.find(s => s.name === name)`: the index of the first ship so named. */
  function FindShip(ships: seq<Ship>, name: string): (r: Option<nat>)
    ensures r.Some? ==> r.value < |ships| && ships[r.value].name == name
    ensures r.Some? ==> forall j :: 0 <= j < r.value ==> ships[j].name != name
    ensures r.None? ==> forall j :: 0 <= j < |ships| ==> ships[j].name != name
  {
    if ships == [] then None
    else if ships[0].name == name then Some(0)
    else match FindShip(ships[1..], name)
      case None => None
      case Some(k) => Some(k + 1)
  }

  predicate DistinctNames(ships: seq<Ship>) {
    forall i, j :: 0 <= i < j < |ships| ==> ships[i].name != ships[j].name
  }

  /** With distinct names, looking a ship up by its own name finds that ship. */
  lemma FindOwnName(ships: seq<Ship>, k: nat)
    requires DistinctNames(ships) && k < |ships|
    ensures FindShip(ships, ships[k].name) == Some(k)
  {
  }

  /** Looking a name up after one more ship has been appended. */
  lemma FindShipAppend(ships: seq<Ship>, s: Ship, name: string)
    ensures FindShip(ships + [s], name) ==
            if FindShip(ships, name).Some? then FindShip(ships, name)
            else if s.name == name then Some(|ships|) else None
  {
    var all := ships + [s];
    assert forall j :: 0 <= j < |ships| ==> all[j] == ships[j];
    assert all[|ships|] == s;
  }

  /** Ship `s` lies on `g`: a straight run of `size` distinct in-range
      cells, each holding the ship's name. */
  ghost predicate Placed(g: Grid, s: Ship)
    requires IsGrid(g)
  {
    && s.name != ""
    && |s.cells| == s.size
    && Straight(s.cells)
    && Distinct(s.cells)
    && forall i :: 0 <= i < |s.cells| ==> InRange(s.cells[i]) && At(g, s.cells[i]) == Occupied(s.name)
  }

  /** The ship found under `name` has `c` among its cells. */
  ghost predicate Owns(ships: seq<Ship>, name: string, c: Coord) {
    var f := FindShip(ships, name);
    f.Some? && c in ships[f.value].cells
  }

  /** The grid and the ship list agree: every ship lies on the grid, names
      are unique, and every occupied cell belongs to the ship it names. */
  ghost predicate Layout(g: Grid, ships: seq<Ship>) {
    && IsGrid(g)
    && DistinctNames(ships)
    && (forall k :: 0 <= k < |ships| ==> Placed(g, ships[k]))
    && (forall c :: InRange(c) && At(g, c).Occupied? ==> Owns(ships, At(g, c).name, c))
  }

  /** Number of cells of `cells` marked in `shots`. */
  function ShotCount(cells: seq<Coord>, shots: ShotGrid): (n: nat)
    requires IsGrid(shots)
    requires forall i :: 0 <= i < |cells| ==> InRange(cells[i])
    ensures n <= |cells|
    ensures n == |cells| <==> forall i :: 0 <= i < |cells| ==> At(shots, cells[i])
  {
    if cells == [] then 0
    else
      var rest := ShotCount(cells[1..], shots);
      assert forall i :: 1 <= i < |cells| ==> cells[i] == cells[1..][i - 1];
      (if At(shots, cells[0]) then 1 else 0) + rest
  }

  /** The fleet invariant: the layout holds and every ship has been hit
      exactly as often as shots have landed on its cells. */
  ghost predicate FleetOk(g: Grid, ships: seq<Ship>, shots: ShotGrid) {
    && Layout(g, ships)
    && IsGrid(shots)
    && forall k :: 0 <= k < |ships| ==> ships[k].hits == ShotCount(ships[k].cells, shots)
  }

  /** `ships.every(ship => ship.hits === ship.size)`. */
  predicate AllSunk(ships: seq<Ship>) {
    forall k :: 0 <= k < |ships| ==> ships[k].hits == ships[k].size
  }

  function Indicator(c: Cell): nat {
    if c.Occupied? then 1 else 0
  }

  function CountRow(row: seq<Cell>): nat {
    if row == [] then 0 else Indicator(row[0]) + CountRow(row[1..])
  }

  /** Number of occupied cells of a grid. */
  function CountOccupied(g: Grid): nat {
    if g == [] then 0 else CountRow(g[0]) + CountOccupied(g[1..])
  }

  function SumSizes(ships: seq<Ship>): nat {
    if ships == [] then 0 else SumSizes(ships[..|ships| - 1]) + ships[|ships| - 1].size
  }

  function SpecTotal(specs: seq<ShipSpec>): nat {
    if specs == [] then 0 else SpecTotal(specs[..|specs| - 1]) + specs[|specs| - 1].size
  }

  lemma {:induction false} CountRowUpdate(row: seq<Cell>, i: nat, v: Cell)
    requires i < |row|
    ensures CountRow(row[i := v]) + Indicator(row[i]) == CountRow(row) + Indicator(v)
  {
    if i == 0 {
      assert row[i := v][1..] == row[1..];
    } else {
      assert row[i := v][1..] == row[1..][i - 1 := v];
      CountRowUpdate(row[1..], i - 1, v);
    }
  }

  lemma {:induction false} CountOccupiedUpdate(g: Grid, r: nat, row: seq<Cell>)
    requires r < |g|
    ensures CountOccupied(g[r := row]) + CountRow(g[r]) == CountOccupied(g) + CountRow(row)
  {
    if r == 0 {
      assert g[r := row][1..] == g[1..];
    } else {
      assert g[r := row][1..] == g[1..][r - 1 := row];
      CountOccupiedUpdate(g[1..], r - 1, row);
    }
  }

  /** Writing a ship name into an empty cell adds exactly one occupied cell. */
  lemma CountAfterOccupy(g: Grid, c: Coord, name: string)
    requires IsGrid(g) && InRange(c) && At(g, c) == Empty
    ensures CountOccupied(Update(g, c, Occupied(name))) == CountOccupied(g) + 1
  {
    CountRowUpdate(g[c.row], c.col, Occupied(name));
    CountOccupiedUpdate(g, c.row, g[c.row][c.col := Occupied(name)]);
  }

  lemma {:induction false} CountRowEmpty(row: seq<Cell>)
    requires forall i :: 0 <= i < |row| ==> row[i] == Empty
    ensures CountRow(row) == 0
  {
    if row != [] {
      CountRowEmpty(row[1..]);
    }
  }

  lemma {:induction false} CountOccupiedEmpty(g: Grid)
    requires forall r, i :: 0 <= r < |g| && 0 <= i < |g[r]| ==> g[r][i] == Empty
    ensures CountOccupied(g) == 0
  {
    if g != [] {
      CountRowEmpty(g[0]);
      CountOccupiedEmpty(g[1..]);
    }
  }

  /** A fresh grid has no occupied cell. */
  lemma EmptyGridCount()
    ensures CountOccupied(Filled(Empty)) == 0
  {
    var g: Grid := Filled(Empty);
    forall r, i | 0 <= r < |g| && 0 <= i < |g[r]| ensures g[r][i] == Empty {
      assert At(g, Coord(r, i)) == Empty;
    }
    CountOccupiedEmpty(g);
  }

  /** The fleet deployed per side covers 5 + 4 + 3 + 3 + 2 cells. */
  lemma FleetTotal()
    ensures SpecTotal(Fleet) == 17
  {
    assert Fleet[..1] == [ShipSpec("Carrier", 5)];
    assert SpecTotal(Fleet[..1]) == 5;
    assert Fleet[..2][..1] == Fleet[..1];
    assert SpecTotal(Fleet[..2]) == 9;
    assert Fleet[..3][..2] == Fleet[..2];
    assert SpecTotal(Fleet[..3]) == 12;
    assert Fleet[..4][..3] == Fleet[..3];
    assert SpecTotal(Fleet[..4]) == 15;
    assert Fleet[..5][..4] == Fleet[..4];
    assert Fleet[..5] == Fleet;
  }

  /** The five ship names of the fleet are different. */
  lemma FleetNamesDistinct()
    ensures forall i, j :: 0 <= i < j < |Fleet| ==> Fleet[i].name != Fleet[j].name
  {
  }

  /** With nothing fired yet, no cell of any ship has been shot. */
  lemma {:induction false} ShotCountNone(cells: seq<Coord>)
    requires forall i :: 0 <= i < |cells| ==> InRange(cells[i])
    ensures ShotCount(cells, Filled(false)) == 0
  {
    if cells != [] {
      ShotCountNone(cells[1..]);
    }
  }

  /** No cell belongs to two ships. */
  lemma CellsDisjoint(g: Grid, ships: seq<Ship>, i: nat, j: nat, c: Coord)
    requires Layout(g, ships)
    requires i < j < |ships|
    ensures !(c in ships[i].cells && c in ships[j].cells)
  {
  }
}
