/** Rectangular boards: a `width` × `height` box in which some cells are
    present, each linked to the present cell next to it in each direction.
    On such boards the detonation patterns can be stated cell by cell: a line
    bonus on a full board takes every other cell of its row or column, a bomb
    on an interior cell takes its eight surrounding cells, and a bomb beside
    a hole skips that whole side. */
module Grids {
  import opened Basics
  import opened Cells
  import opened Bonuses

  /** The cell `n` steps from `c` in direction `d`. */
  function Shift(c: Cell, d: Dir, n: int): Cell {
    match d
    case Up => Cell(c.x, c.y + n)
    case Bottom => Cell(c.x, c.y - n)
    case Left => Cell(c.x - n, c.y)
    case Right => Cell(c.x + n, c.y)
  }

  /** Links from each cell of `cells` to the adjacent cell in direction `d`,
      where that cell is present too. */
  function Adjacency(cells: set<Cell>, d: Dir): (m: map<Cell, Cell>)
    ensures LinksWellFormed(cells, m, d)
  {
    map c | c in cells && Shift(c, d, 1) in cells :: Shift(c, d, 1)
  }

  /** The board whose cells are those of `present` inside the box. */
  function Grid(width: nat, height: nat, present: set<Cell>): (t: Wiring)
    ensures t.cells == set c | c in present && 0 <= c.x < width && 0 <= c.y < height
  {
    var cells := set c | c in present && 0 <= c.x < width && 0 <= c.y < height;
    Topology(width, height, cells, Adjacency(cells, Up), Adjacency(cells, Bottom),
             Adjacency(cells, Left), Adjacency(cells, Right))
  }

  function Box(width: nat, height: nat): set<Cell> {
    set x, y | 0 <= x < width && 0 <= y < height :: Cell(x, y)
  }

  /** The neighbour of a present cell on a grid is the adjacent cell, when
      that one is present. */
  lemma GridNeighbour(width: nat, height: nat, present: set<Cell>, c: Cell, d: Dir)
    requires c in Grid(width, height, present).cells
    ensures var t := Grid(width, height, present);
      Neighbour(t, c, d) == if Shift(c, d, 1) in t.cells then Some(Shift(c, d, 1)) else None
  {
  }

  /** The `k` cells beyond `c` in direction `d`, nearest first. */
  function Run(c: Cell, d: Dir, k: nat): (s: seq<Cell>)
    ensures |s| == k && forall i :: 0 <= i < k ==> s[i] == Shift(c, d, i + 1)
  {
    seq(k, i => Shift(c, d, i + 1))
  }

  /** On a grid, a walk from a present cell is the run of present cells
      beyond it, up to the first absent one. */
  lemma {:induction false} WalkIsRun(width: nat, height: nat, present: set<Cell>, c: Cell, d: Dir, k: nat)
    requires c in Grid(width, height, present).cells
    requires forall i :: 1 <= i <= k ==> Shift(c, d, i) in Grid(width, height, present).cells
    requires Shift(c, d, k + 1) !in Grid(width, height, present).cells
    ensures Walk(Grid(width, height, present), c, d) == Run(c, d, k)
  {
    var t := Grid(width, height, present);
    var s := Run(c, d, k);
    forall i | 0 <= i < |s|
      ensures Neighbour(t, Before(c, s, i), d) == Some(s[i])
    {
      var b := Before(c, s, i);
      assert b == Shift(c, d, i);
      GridNeighbour(width, height, present, b, d);
      assert Shift(b, d, 1) == Shift(c, d, i + 1);
    }
    var last := Before(c, s, |s|);
    assert last == Shift(c, d, k);
    GridNeighbour(width, height, present, last, d);
    assert Shift(last, d, 1) == Shift(c, d, k + 1);
    MaximalChainIsWalk(t, c, d, s);
  }

  lemma InBox(width: nat, height: nat, x: int, y: int)
    requires 0 <= x < width && 0 <= y < height
    ensures Cell(x, y) in Box(width, height)
    ensures Cell(x, y) in Grid(width, height, Box(width, height)).cells
  {
  }

  /** A horizontal bonus on a full board takes the rest of its row, rightward
      then leftward: `width - 1` cells, every other cell of the row once. */
  lemma {:induction false} HorizontalOnFullGrid(width: nat, height: nat, c: Cell)
    requires 0 <= c.x < width && 0 <= c.y < height
    ensures var t := Grid(width, height, Box(width, height));
      && HorizontalTargets(t, c) == Run(c, Right, width - 1 - c.x) + Run(c, Left, c.x)
      && |HorizontalTargets(t, c)| == width - 1
      && forall x :: 0 <= x < width && x != c.x ==> Cell(x, c.y) in HorizontalTargets(t, c)
  {
    var t := Grid(width, height, Box(width, height));
    InBox(width, height, c.x, c.y);
    forall i | 1 <= i <= width - 1 - c.x
      ensures Shift(c, Right, i) in t.cells
    {
      InBox(width, height, c.x + i, c.y);
    }
    WalkIsRun(width, height, Box(width, height), c, Right, width - 1 - c.x);
    forall i | 1 <= i <= c.x
      ensures Shift(c, Left, i) in t.cells
    {
      InBox(width, height, c.x - i, c.y);
    }
    WalkIsRun(width, height, Box(width, height), c, Left, c.x);
    var r := HorizontalTargets(t, c);
    forall x | 0 <= x < width && x != c.x
      ensures Cell(x, c.y) in r
    {
      if x > c.x {
        assert r[x - c.x - 1] == Cell(x, c.y);
      } else {
        assert r[width - 1 - c.x + (c.x - x - 1)] == Cell(x, c.y);
      }
    }
  }

  /** A vertical bonus on a full board takes the rest of its column, upward
      then downward: `height - 1` cells, every other cell of the column once. */
  lemma {:induction false} VerticalOnFullGrid(width: nat, height: nat, c: Cell)
    requires 0 <= c.x < width && 0 <= c.y < height
    ensures var t := Grid(width, height, Box(width, height));
      && VerticalTargets(t, c) == Run(c, Up, height - 1 - c.y) + Run(c, Bottom, c.y)
      && |VerticalTargets(t, c)| == height - 1
      && forall y :: 0 <= y < height && y != c.y ==> Cell(c.x, y) in VerticalTargets(t, c)
  {
    var t := Grid(width, height, Box(width, height));
    InBox(width, height, c.x, c.y);
    forall i | 1 <= i <= height - 1 - c.y
      ensures Shift(c, Up, i) in t.cells
    {
      InBox(width, height, c.x, c.y + i);
    }
    WalkIsRun(width, height, Box(width, height), c, Up, height - 1 - c.y);
    forall i | 1 <= i <= c.y
      ensures Shift(c, Bottom, i) in t.cells
    {
      InBox(width, height, c.x, c.y - i);
    }
    WalkIsRun(width, height, Box(width, height), c, Bottom, c.y);
    var r := VerticalTargets(t, c);
    forall y | 0 <= y < height && y != c.y
      ensures Cell(c.x, y) in r
    {
      if y > c.y {
        assert r[y - c.y - 1] == Cell(c.x, y);
      } else {
        assert r[height - 1 - c.y + (c.y - y - 1)] == Cell(c.x, y);
      }
    }
  }

  /** On a full board, a cell inside the box has as neighbour in direction
      `d` the adjacent cell, when that one is inside the box too. */
  lemma FullNeighbour(width: nat, height: nat, c: Cell, d: Dir)
    requires 0 <= c.x < width && 0 <= c.y < height
    requires 0 <= Shift(c, d, 1).x < width && 0 <= Shift(c, d, 1).y < height
    ensures Neighbour(Grid(width, height, Box(width, height)), c, d) == Some(Shift(c, d, 1))
  {
    InBox(width, height, c.x, c.y);
    InBox(width, height, Shift(c, d, 1).x, Shift(c, d, 1).y);
    GridNeighbour(width, height, Box(width, height), c, d);
  }

  /** A bomb on a cell away from the board's edges takes its eight
      surrounding cells, in the order bottom, up, the left column (middle, top,
      bottom) and the right column (middle, top, bottom). */
  lemma BombOnInteriorCell(width: nat, height: nat, c: Cell)
    requires 1 <= c.x < width - 1 && 1 <= c.y < height - 1
    ensures BombTargets(Grid(width, height, Box(width, height)), c) ==
      [Cell(c.x, c.y - 1), Cell(c.x, c.y + 1),
       Cell(c.x - 1, c.y), Cell(c.x - 1, c.y + 1), Cell(c.x - 1, c.y - 1),
       Cell(c.x + 1, c.y), Cell(c.x + 1, c.y + 1), Cell(c.x + 1, c.y - 1)]
  {
    var t := Grid(width, height, Box(width, height));
    var l, r := Cell(c.x - 1, c.y), Cell(c.x + 1, c.y);
    FullNeighbour(width, height, c, Bottom);
    FullNeighbour(width, height, c, Up);
    FullNeighbour(width, height, c, Left);
    FullNeighbour(width, height, c, Right);
    FullNeighbour(width, height, l, Up);
    FullNeighbour(width, height, l, Bottom);
    FullNeighbour(width, height, r, Up);
    FullNeighbour(width, height, r, Bottom);
    assert SideColumn(t, Neighbour(t, c, Left)) == [l, Cell(c.x - 1, c.y + 1), Cell(c.x - 1, c.y - 1)];
    assert SideColumn(t, Neighbour(t, c, Right)) == [r, Cell(c.x + 1, c.y + 1), Cell(c.x + 1, c.y - 1)];
  }

  /** The cells of a 3 × 3 board except the middle-left one. */
  const NotchedCells: set<Cell> :=
    {Cell(0, 0), Cell(0, 2), Cell(1, 0), Cell(1, 1), Cell(1, 2), Cell(2, 0), Cell(2, 1), Cell(2, 2)}

  /** The 3 × 3 board without its middle-left cell. */
  function Notched(): (t: Wiring)
    ensures t.cells == NotchedCells
  {
    var t := Grid(3, 3, NotchedCells);
    assert t.cells == NotchedCells by {
      forall c | c in NotchedCells
        ensures c in t.cells
      {
      }
    }
    t
  }

  /** The diagonal rule is one-sided: a bomb in the middle of `Notched` has no
      left neighbour, so it skips the whole left column although the cells
      above and below the hole are on the board. */
  lemma BombBesideHole()
    ensures Cell(0, 0) in Notched().cells && Cell(0, 2) in Notched().cells
    ensures BombTargets(Notched(), Cell(1, 1)) ==
      [Cell(1, 0), Cell(1, 2), Cell(2, 1), Cell(2, 2), Cell(2, 0)]
    ensures Cell(0, 0) !in BombTargets(Notched(), Cell(1, 1))
    ensures Cell(0, 2) !in BombTargets(Notched(), Cell(1, 1))
  {
    var t := Notched();
    var c, r := Cell(1, 1), Cell(2, 1);
    GridNeighbour(3, 3, NotchedCells, c, Bottom);
    GridNeighbour(3, 3, NotchedCells, c, Up);
    GridNeighbour(3, 3, NotchedCells, c, Left);
    GridNeighbour(3, 3, NotchedCells, c, Right);
    GridNeighbour(3, 3, NotchedCells, r, Up);
    GridNeighbour(3, 3, NotchedCells, r, Bottom);
    assert Neighbour(t, c, Left) == None;
    assert SideColumn(t, Neighbour(t, c, Right)) == [r, Cell(2, 2), Cell(2, 0)];
  }
}
