/** The detonation side of `BonusItem` (Assets/Scripts/Board/BonusItem.cs):
    the pattern enum, its name, the target cells each pattern computes from
    the item's cell, and the imperative collectors that build the target list
    and then call `ExplodeItem` on every entry in list order. */
module Bonuses {
  import opened Basics
  import opened Cells

  /** `BonusItem.eBonusType`. */
  datatype BonusType = NONE | HORIZONTAL | VERTICAL | ALL

  /** `eItemType.ToString()`: the member's name. */
  function BonusName(t: BonusType): string {
    match t
    case NONE => "NONE"
    case HORIZONTAL => "HORIZONTAL"
    case VERTICAL => "VERTICAL"
    case ALL => "ALL"
  }

  /** `Enum.TryParse` into `eBonusType`, read as an exact match against the
      member names. */
  function ParseBonus(s: string): (r: Option<BonusType>)
    ensures r.Some? ==> BonusName(r.value) == s
    ensures forall t :: BonusName(t) == s ==> r == Some(t)
  {
    if s == "NONE" then Some(NONE)
    else if s == "HORIZONTAL" then Some(HORIZONTAL)
    else if s == "VERTICAL" then Some(VERTICAL)
    else if s == "ALL" then Some(ALL)
    else None
  }

  /** Cells `ExplodeHorizontalLine` detonates: the run to the right, nearest
      first, then the run to the left, nearest first. */
  function HorizontalTargets(t: Wiring, c: Cell): seq<Cell> {
    Walk(t, c, Right) + Walk(t, c, Left)
  }

  /** Cells `ExplodeVerticalLine` detonates: the run upward, then the run
      downward. */
  function VerticalTargets(t: Wiring, c: Cell): seq<Cell> {
    Walk(t, c, Up) + Walk(t, c, Bottom)
  }

  /** A side neighbour `s` followed by its up and bottom neighbours, each when
      present; nothing when there is no side neighbour. */
  function SideColumn(t: Wiring, side: Option<Cell>): seq<Cell> {
    match side
    case None => []
    case Some(s) => [s] + Present(Neighbour(t, s, Up)) + Present(Neighbour(t, s, Bottom))
  }

  /** Cells `ExplodeBomb` detonates, in list order: Bottom, Up, then Left with
      Left.Up and Left.Bottom, then Right with Right.Up and Right.Bottom. */
  function BombTargets(t: Wiring, c: Cell): seq<Cell> {
    Present(Neighbour(t, c, Bottom)) + Present(Neighbour(t, c, Up))
      + SideColumn(t, Neighbour(t, c, Left)) + SideColumn(t, Neighbour(t, c, Right))
  }

  /** The targets of `ActivateBonus` for each pattern; `NONE` has no case in
      its switch and detonates nothing. */
  function PatternTargets(t: Wiring, p: BonusType, c: Cell): seq<Cell> {
    match p
    case NONE => []
    case HORIZONTAL => HorizontalTargets(t, c)
    case VERTICAL => VerticalTargets(t, c)
    case ALL => BombTargets(t, c)
  }

  // ---------------------------------------------------------------------------
  // Properties of the patterns

  /** A line detonation clears the origin's whole row, never the origin
      itself: the entries are board cells on the origin's row, each once, and
      from a cell inside the board there are at most `width - 1` of them. */
  lemma HorizontalTargetsShape(t: Wiring, c: Cell)
    ensures forall e :: e in HorizontalTargets(t, c) ==> e in t.cells && e.y == c.y && e != c
    ensures Distinct(HorizontalTargets(t, c))
    ensures InBounds(t, c) ==> |HorizontalTargets(t, c)| <= t.width - 1
  {
    var r, l := Walk(t, c, Right), Walk(t, c, Left);
    WalkOrdered(t, c, Right);
    WalkOrdered(t, c, Left);
    forall e | e in r ensures e !in l {
      assert e.x > c.x;
    }
    DistinctAppend(r, l);
    if InBounds(t, c) {
      WalkShorterThanRank(t, c, Right);
      WalkShorterThanRank(t, c, Left);
    }
  }

  /** The column counterpart of `HorizontalTargetsShape`. */
  lemma VerticalTargetsShape(t: Wiring, c: Cell)
    ensures forall e :: e in VerticalTargets(t, c) ==> e in t.cells && e.x == c.x && e != c
    ensures Distinct(VerticalTargets(t, c))
    ensures InBounds(t, c) ==> |VerticalTargets(t, c)| <= t.height - 1
  {
    var u, b := Walk(t, c, Up), Walk(t, c, Bottom);
    WalkOrdered(t, c, Up);
    WalkOrdered(t, c, Bottom);
    forall e | e in u ensures e !in b {
      assert e.y > c.y;
    }
    DistinctAppend(u, b);
    if InBounds(t, c) {
      WalkShorterThanRank(t, c, Up);
      WalkShorterThanRank(t, c, Bottom);
    }
  }

  /** A side column lies strictly left (or right) of the origin and holds
      distinct cells, at most three. */
  lemma SideColumnShape(t: Wiring, c: Cell, d: Dir)
    requires d == Left || d == Right
    ensures forall e :: e in SideColumn(t, Neighbour(t, c, d)) ==>
      e in t.cells && (if d == Left then e.x < c.x else e.x > c.x)
    ensures Distinct(SideColumn(t, Neighbour(t, c, d)))
    ensures |SideColumn(t, Neighbour(t, c, d))| <= 3
  {
    if c in Links(t, d) {
      var s := Links(t, d)[c];
      LinkFacts(t, c, d);
      var col := SideColumn(t, Some(s));
      if s in t.up {
        LinkFacts(t, s, Up);
      }
      if s in t.bottom {
        LinkFacts(t, s, Bottom);
      }
      forall i, j | 0 <= i < j < |col| ensures col[i] != col[j] {
        if i == 0 {
          assert col[i].y == s.y != col[j].y;
        } else {
          assert col[i].y > s.y > col[j].y;
        }
      }
    }
  }

  /** Bottom and Up: on the origin's column, distinct, never the origin. */
  lemma CentreColumnShape(t: Wiring, c: Cell)
    ensures forall e :: e in Present(Neighbour(t, c, Bottom)) + Present(Neighbour(t, c, Up)) ==>
      e in t.cells && e.x == c.x && e != c
    ensures Distinct(Present(Neighbour(t, c, Bottom)) + Present(Neighbour(t, c, Up)))
  {
    if c in t.bottom { LinkFacts(t, c, Bottom); }
    if c in t.up { LinkFacts(t, c, Up); }
  }

  /** The bomb detonates at most the eight cells around the origin, each
      once and never the origin; a cell without a Left neighbour gets no
      cell left of it (no corner through another path), and likewise on the
      right. */
  lemma BombTargetsShape(t: Wiring, c: Cell)
    ensures |BombTargets(t, c)| <= 8
    ensures forall e :: e in BombTargets(t, c) ==> e in t.cells && e != c
    ensures Distinct(BombTargets(t, c))
    ensures c !in t.left ==> forall e :: e in BombTargets(t, c) ==> e.x >= c.x
    ensures c !in t.right ==> forall e :: e in BombTargets(t, c) ==> e.x <= c.x
  {
    var m := Present(Neighbour(t, c, Bottom)) + Present(Neighbour(t, c, Up));
    var l, r := SideColumn(t, Neighbour(t, c, Left)), SideColumn(t, Neighbour(t, c, Right));
    CentreColumnShape(t, c);
    SideColumnShape(t, c, Left);
    SideColumnShape(t, c, Right);
    assert forall e :: e in m ==> e !in l by {
      forall e | e in m ensures e !in l { assert e.x == c.x; }
    }
    DistinctAppend(m, l);
    var ml := m + l;
    assert forall e :: e in ml ==> e in t.cells && e != c && e.x <= c.x by {
      forall e | e in ml ensures e in t.cells && e != c && e.x <= c.x {
        if e in m { } else { assert e in l; }
      }
    }
    assert forall e :: e in ml ==> e !in r by {
      forall e | e in ml ensures e !in r { assert e.x <= c.x; }
    }
    DistinctAppend(ml, r);
    assert BombTargets(t, c) == ml + r;
    assert c !in t.left ==> ml == m;
    assert c !in t.right ==> r == [];
  }

  /** Without a Left neighbour the bomb's list is exactly Bottom, Up, then the
      right column. */
  lemma BombWithoutLeft(t: Wiring, c: Cell)
    requires c !in t.left
    ensures BombTargets(t, c) == Present(Neighbour(t, c, Bottom)) + Present(Neighbour(t, c, Up))
                                 + SideColumn(t, Neighbour(t, c, Right))
  {
  }

  // ---------------------------------------------------------------------------
  // The imperative collectors of BonusItem.cs

  /** One `while (true)` loop of `ExplodeHorizontalLine`/`ExplodeVerticalLine`:
      from `start`, follow direction `d` and append each neighbour reached to
      `list`, stopping at the first missing neighbour. */
  method AppendWalk(t: Wiring, list: seq<Cell>, start: Cell, d: Dir) returns (out: seq<Cell>)
    ensures out == list + Walk(t, start, d)
  {
    out := list;
    var newcell := start;
    while true
      invariant out + Walk(t, newcell, d) == list + Walk(t, start, d)
      decreases Rank(t, newcell, d)
    {
      var next := Neighbour(t, newcell, d);
      if next.None? {
        break;
      }
      LinkFacts(t, newcell, d);
      assert Walk(t, newcell, d) == [next.value] + Walk(t, next.value, d);
      out := out + [next.value];
      newcell := next.value;
    }
  }

  /** The final `for` loop of each pattern: `list[i].ExplodeItem()` for every
      entry, in list order. */
  method DetonateAll(board: Board, list: seq<Cell>)
    modifies board`detonated
    ensures board.detonated == old(board.detonated) + list
  {
    for i := 0 to |list|
      invariant board.detonated == old(board.detonated) + list[..i]
    {
      board.ExplodeItem(list[i]);
      assert list[..i + 1] == list[..i] + [list[i]];
    }
  }

  method ExplodeHorizontalLine(board: Board, cell: Cell)
    modifies board`detonated
    ensures board.detonated == old(board.detonated) + HorizontalTargets(board.wiring, cell)
  {
    var list := AppendWalk(board.wiring, [], cell, Right);
    list := AppendWalk(board.wiring, list, cell, Left);
    DetonateAll(board, list);
  }

  method ExplodeVerticalLine(board: Board, cell: Cell)
    modifies board`detonated
    ensures board.detonated == old(board.detonated) + VerticalTargets(board.wiring, cell)
  {
    var list := AppendWalk(board.wiring, [], cell, Up);
    list := AppendWalk(board.wiring, list, cell, Bottom);
    DetonateAll(board, list);
  }

  /** One side block of `ExplodeBomb`: when the side neighbour is present,
      append it, then its up and bottom neighbours when present. */
  method AppendSideColumn(t: Wiring, list: seq<Cell>, side: Option<Cell>) returns (out: seq<Cell>)
    ensures out == list + SideColumn(t, side)
  {
    out := list;
    if side.Some? {
      out := out + [side.value];
      var up, bottom := Neighbour(t, side.value, Up), Neighbour(t, side.value, Bottom);
      if up.Some? { out := out + [up.value]; }
      assert out == list + [side.value] + Present(up);
      if bottom.Some? { out := out + [bottom.value]; }
    }
  }

  /** The list `ExplodeBomb` builds by guarded appends. */
  method CollectBomb(t: Wiring, cell: Cell) returns (list: seq<Cell>)
    ensures list == BombTargets(t, cell)
  {
    list := [];
    var bottom, up := Neighbour(t, cell, Bottom), Neighbour(t, cell, Up);
    if bottom.Some? { list := list + [bottom.value]; }
    if up.Some? { list := list + [up.value]; }
    assert list == Present(bottom) + Present(up);
    list := AppendSideColumn(t, list, Neighbour(t, cell, Left));
    list := AppendSideColumn(t, list, Neighbour(t, cell, Right));
  }

  method ExplodeBomb(board: Board, cell: Cell)
    modifies board`detonated
    ensures board.detonated == old(board.detonated) + BombTargets(board.wiring, cell)
  {
    var list := CollectBomb(board.wiring, cell);
    DetonateAll(board, list);
  }

  /** `ActivateBonus`: dispatch on the pattern. Every pattern but `NONE`
      dereferences the item's cell, so with no cell it fails (`false`) with
      a null reference and detonates nothing. */
  method ActivateBonus(board: Board, pattern: BonusType, cell: Option<Cell>) returns (ok: bool)
    modifies board`detonated
    ensures ok <==> pattern == NONE || cell.Some?
    ensures board.detonated == old(board.detonated) +
      (if cell.Some? then PatternTargets(board.wiring, pattern, cell.value) else [])
  {
    ok := true;
    match pattern
    case NONE =>
    case HORIZONTAL =>
      if cell.None? { return false; }
      ExplodeHorizontalLine(board, cell.value);
    case VERTICAL =>
      if cell.None? { return false; }
      ExplodeVerticalLine(board, cell.value);
    case ALL =>
      if cell.None? { return false; }
      ExplodeBomb(board, cell.value);
  }
}
