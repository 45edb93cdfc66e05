/** The board's cells as the detonation code sees them: a finite set of cells,
    each with up to four neighbour links (`NeighbourUp`, `NeighbourBottom`,
    `NeighbourLeft`, `NeighbourRight`), and the "detonate this cell's
    occupant" operation (`Cell.ExplodeItem`), recorded as a trace.

    The `Cell` class and the board that wires the links are not part of this
    model. What the detonation code relies on is captured by `WellWired`:
    every link leads to a cell of the board, and a link moves strictly along
    its own row or column, so that walking one direction always ends. */
module Cells {
  import opened Basics

  /** A cell, identified by its column `x` and row `y` on the board. */
  datatype Cell = Cell(x: int, y: int)

  /** The four neighbour links of a cell. */
  datatype Dir = Up | Bottom | Left | Right

  /** A board: its size, the cells present, and the four partial neighbour
      functions (a cell without an entry has no neighbour that way). */
  datatype Topology = Topology(
    width: nat, height: nat, cells: set<Cell>,
    up: map<Cell, Cell>, bottom: map<Cell, Cell>,
    left: map<Cell, Cell>, right: map<Cell, Cell>)

  function Links(t: Topology, d: Dir): map<Cell, Cell> {
    match d
    case Up => t.up
    case Bottom => t.bottom
    case Left => t.left
    case Right => t.right
  }

  /** `b` lies strictly beyond `a` in direction `d`, on `a`'s row or column. */
  predicate Beyond(a: Cell, b: Cell, d: Dir) {
    match d
    case Up => b.x == a.x && b.y > a.y
    case Bottom => b.x == a.x && b.y < a.y
    case Left => b.y == a.y && b.x < a.x
    case Right => b.y == a.y && b.x > a.x
  }

  predicate InBounds(t: Topology, c: Cell) {
    0 <= c.x < t.width && 0 <= c.y < t.height
  }

  /** One direction's links go from cells of the board to cells of the board,
      strictly onward in that direction. */
  predicate LinksWellFormed(cells: set<Cell>, m: map<Cell, Cell>, d: Dir) {
    forall c :: c in m ==> c in cells && m[c] in cells && Beyond(c, m[c], d)
  }

  predicate WellWired(t: Topology) {
    && (forall c :: c in t.cells ==> InBounds(t, c))
    && LinksWellFormed(t.cells, t.up, Up)
    && LinksWellFormed(t.cells, t.bottom, Bottom)
    && LinksWellFormed(t.cells, t.left, Left)
    && LinksWellFormed(t.cells, t.right, Right)
  }

  type Wiring = t: Topology | WellWired(t)
    witness Topology(0, 0, {}, map[], map[], map[], map[])

  /** The neighbour of `c` in direction `d`, if there is one. */
  function Neighbour(t: Topology, c: Cell, d: Dir): Option<Cell> {
    if c in Links(t, d) then Some(Links(t, d)[c]) else None
  }

  lemma LinkFacts(t: Wiring, c: Cell, d: Dir)
    requires c in Links(t, d)
    ensures c in t.cells && Links(t, d)[c] in t.cells && Beyond(c, Links(t, d)[c], d)
  {
  }

  /** How far a walk from `c` in direction `d` can still go: it strictly
      decreases along every link of a well-wired board. */
  function Rank(t: Topology, c: Cell, d: Dir): nat {
    match d
    case Up => if c.y < t.height then t.height - c.y else 0
    case Bottom => if c.y >= 0 then c.y + 1 else 0
    case Left => if c.x >= 0 then c.x + 1 else 0
    case Right => if c.x < t.width then t.width - c.x else 0
  }

  /** The cells reached by following direction `d` from `c` until a neighbour
      is missing, nearest first; `c` itself is not included. This is what the
      `while (true)` loops of the line detonations collect. */
  function Walk(t: Wiring, c: Cell, d: Dir): (s: seq<Cell>)
    ensures forall i :: 0 <= i < |s| ==> s[i] in t.cells && Beyond(c, s[i], d)
    decreases Rank(t, c, d)
  {
    if c in Links(t, d) then
      var n := Links(t, d)[c];
      LinkFacts(t, c, d);
      [n] + Walk(t, n, d)
    else
      []
  }

  /** The cell a chain `s` from `c` has reached before its `i`-th step. */
  function Before(c: Cell, s: seq<Cell>, i: nat): Cell
    requires i <= |s|
  {
    if i == 0 then c else s[i - 1]
  }

  /** An independent description of a walk: every entry is the `d`-neighbour
      of the one before it (of `c` for the first), and the last cell reached
      has no `d`-neighbour. */
  predicate IsMaximalChain(t: Topology, c: Cell, d: Dir, s: seq<Cell>) {
    && (forall i :: 0 <= i < |s| ==> Neighbour(t, Before(c, s, i), d) == Some(s[i]))
    && Neighbour(t, Before(c, s, |s|), d) == None
  }

  /** The walk is a maximal chain of links. */
  lemma {:induction false} WalkIsMaximalChain(t: Wiring, c: Cell, d: Dir)
    ensures IsMaximalChain(t, c, d, Walk(t, c, d))
    decreases Rank(t, c, d)
  {
    if c in Links(t, d) {
      var n := Links(t, d)[c];
      LinkFacts(t, c, d);
      WalkIsMaximalChain(t, n, d);
      var s := Walk(t, c, d);
      assert s == [n] + Walk(t, n, d);
      forall i | 0 <= i < |s|
        ensures Neighbour(t, Before(c, s, i), d) == Some(s[i])
      {
        if i > 0 {
          assert Before(c, s, i) == Before(n, Walk(t, n, d), i - 1);
        }
      }
      assert Before(c, s, |s|) == Before(n, Walk(t, n, d), |s| - 1);
    }
  }

  /** A maximal chain of links is the walk: the walk is the only sequence
      the loops could have collected. */
  lemma {:induction false} MaximalChainIsWalk(t: Wiring, c: Cell, d: Dir, s: seq<Cell>)
    requires IsMaximalChain(t, c, d, s)
    ensures s == Walk(t, c, d)
    decreases |s|
  {
    if s != [] {
      assert Neighbour(t, c, d) == Some(s[0]);
      var n := s[0];
      LinkFacts(t, c, d);
      var rest := s[1..];
      forall i | 0 <= i < |rest|
        ensures Neighbour(t, Before(n, rest, i), d) == Some(rest[i])
      {
        assert Before(n, rest, i) == Before(c, s, i + 1);
      }
      assert Before(n, rest, |rest|) == Before(c, s, |s|);
      MaximalChainIsWalk(t, n, d, rest);
      assert s == [n] + rest;
    } else {
      assert Neighbour(t, c, d) == None;
    }
  }

  /** The walk moves strictly onward at every step: in increasing distance
      from its start, and so without repetition. */
  lemma {:induction false} WalkOrdered(t: Wiring, c: Cell, d: Dir)
    ensures forall i, j :: 0 <= i < j < |Walk(t, c, d)| ==> Beyond(Walk(t, c, d)[i], Walk(t, c, d)[j], d)
    ensures Distinct(Walk(t, c, d))
    decreases Rank(t, c, d)
  {
    var s := Walk(t, c, d);
    if c in Links(t, d) {
      var n := Links(t, d)[c];
      LinkFacts(t, c, d);
      WalkOrdered(t, n, d);
      forall i, j | 0 <= i < j < |s|
        ensures Beyond(s[i], s[j], d)
      {
        if i == 0 {
          assert s[j] == Walk(t, n, d)[j - 1];
        } else {
          assert s[i] == Walk(t, n, d)[i - 1] && s[j] == Walk(t, n, d)[j - 1];
        }
      }
    }
    forall i, j | 0 <= i < j < |s|
      ensures s[i] != s[j]
    {
      assert Beyond(s[i], s[j], d);
    }
  }

  /** From a cell inside the board, a walk has fewer steps than the rank of
      its start: at most `width - 1 - x` to the right, at most `x` to the left,
      and likewise for rows. */
  lemma {:induction false} WalkShorterThanRank(t: Wiring, c: Cell, d: Dir)
    requires InBounds(t, c)
    ensures |Walk(t, c, d)| < Rank(t, c, d)
    decreases Rank(t, c, d)
  {
    if c in Links(t, d) {
      var n := Links(t, d)[c];
      LinkFacts(t, c, d);
      WalkShorterThanRank(t, n, d);
    }
  }

  /** The board as the detonation sees it: its wiring and the trace of
      `ExplodeItem` calls, in call order. What an `ExplodeItem` call then does
      to the occupant (the chain reaction) is not part of this model. */
  class Board {
    const wiring: Wiring
    var detonated: seq<Cell>

    constructor (w: Wiring)
      ensures wiring == w && detonated == []
    {
      wiring := w;
      detonated := [];
    }

    /** `Cell.ExplodeItem` on cell `c`. */
    method ExplodeItem(c: Cell)
      modifies this`detonated
      ensures detonated == old(detonated) + [c]
    {
      detonated := detonated + [c];
    }
  }
}
