/**
 * Conway's Game of Life on a fixed-size grid of cells (B3/S23), stepped
 * synchronously: every interior cell's next state is computed from the
 * current states, then all cells commit at once. Border cells are never
 * computed; their pending state keeps the zero it was allocated with.
 */
module GameOfLife {

  const DeadState := 0
  const AliveState := 1

  /** Number of entries of the colour table indexed by a cell's state. */
  const ColourCount := 2

  /** A cell: its grid position, its current state and its pending state. */
  datatype Cell = Cell(posX: int, posY: int, state: int, nextState: int)

  // ---------------------------------------------------------------------
  // Value-level specification: a grid is a sequence of columns of states.
  // ---------------------------------------------------------------------

  /** Every column of `g` has height `h`. */
  predicate IsGrid(g: seq<seq<int>>, h: nat) {
    forall x :: 0 <= x < |g| ==> |g[x]| == h
  }

  /** (x, y) is a cell of the grid that is not on its border. */
  predicate Interior(g: seq<seq<int>>, h: nat, x: int, y: int) {
    0 < x < |g| - 1 && 0 < y < h - 1
  }

  /** Every state of the grid is dead or alive. */
  predicate Binary(g: seq<seq<int>>) {
    forall x, y :: 0 <= x < |g| && 0 <= y < |g[x]| ==> g[x][y] == DeadState || g[x][y] == AliveState
  }

  /** Every state of the grid is dead. */
  predicate AllDead(g: seq<seq<int>>) {
    forall x, y :: 0 <= x < |g| && 0 <= y < |g[x]| ==> g[x][y] == DeadState
  }

  /**
   * The B3/S23 rule as the update writes it: a live cell stays alive with
   * two or three live neighbours, any other cell is alive next only with
   * exactly three. Its contract is the usual one-line reading of the rule.
   */
  function Rule(state: int, aliveNeighbours: int): (next: int)
    ensures next == DeadState || next == AliveState
    ensures next == AliveState <==> aliveNeighbours == 3 || (state == AliveState && aliveNeighbours == 2)
  {
    if state == AliveState then
      if aliveNeighbours == 2 || aliveNeighbours == 3 then AliveState else DeadState
    else
      if aliveNeighbours == 3 then AliveState else DeadState
  }

  /** The sum of the states of the 8 surrounding cells, in the update's order. */
  function NeighbourCount(g: seq<seq<int>>, h: nat, x: int, y: int): (n: int)
    requires IsGrid(g, h) && Interior(g, h, x, y)
    ensures Binary(g) ==> 0 <= n <= 8
  {
    g[x][y - 1] + g[x + 1][y - 1] + g[x + 1][y] + g[x + 1][y + 1]
    + g[x][y + 1] + g[x - 1][y + 1] + g[x - 1][y] + g[x - 1][y - 1]
  }

  /** The offsets of the Moore neighbourhood. */
  const Moore: seq<(int, int)> := [(-1, -1), (-1, 0), (-1, 1), (0, -1), (0, 1), (1, -1), (1, 0), (1, 1)]

  /** 1 for a live state, 0 for any other. */
  function Indicator(state: int): (b: nat)
    ensures b <= 1 && (b == 1 <==> state == AliveState)
  {
    if state == AliveState then 1 else 0
  }

  /**
   * Reference count: how many of the Moore offsets from index `k` on hold a
   * live cell around (x, y).
   */
  function LiveFrom(g: seq<seq<int>>, h: nat, x: int, y: int, k: nat): (n: nat)
    requires IsGrid(g, h) && Interior(g, h, x, y) && k <= |Moore|
    ensures n <= |Moore| - k
    decreases |Moore| - k
  {
    if k == |Moore| then 0
    else Indicator(g[x + Moore[k].0][y + Moore[k].1]) + LiveFrom(g, h, x, y, k + 1)
  }

  /** The number of live cells in the Moore neighbourhood of (x, y). */
  function LiveNeighbours(g: seq<seq<int>>, h: nat, x: int, y: int): (n: nat)
    requires IsGrid(g, h) && Interior(g, h, x, y)
    ensures n <= 8
  {
    LiveFrom(g, h, x, y, 0)
  }

  /**
   * On a grid of dead/alive states, the neighbour sum is the number of live
   * cells in the Moore neighbourhood.
   */
  lemma NeighbourCountIsLiveNeighbours(g: seq<seq<int>>, h: nat, x: int, y: int)
    requires IsGrid(g, h) && Interior(g, h, x, y) && Binary(g)
    ensures NeighbourCount(g, h, x, y) == LiveNeighbours(g, h, x, y)
  {
    assert LiveFrom(g, h, x, y, 8) == 0;
    assert LiveFrom(g, h, x, y, 7) == Indicator(g[x + 1][y + 1]);
    assert LiveFrom(g, h, x, y, 6) == Indicator(g[x + 1][y]) + LiveFrom(g, h, x, y, 7);
    assert LiveFrom(g, h, x, y, 5) == Indicator(g[x + 1][y - 1]) + LiveFrom(g, h, x, y, 6);
    assert LiveFrom(g, h, x, y, 4) == Indicator(g[x][y + 1]) + LiveFrom(g, h, x, y, 5);
    assert LiveFrom(g, h, x, y, 3) == Indicator(g[x][y - 1]) + LiveFrom(g, h, x, y, 4);
    assert LiveFrom(g, h, x, y, 2) == Indicator(g[x - 1][y + 1]) + LiveFrom(g, h, x, y, 3);
    assert LiveFrom(g, h, x, y, 1) == Indicator(g[x - 1][y]) + LiveFrom(g, h, x, y, 2);
    assert LiveFrom(g, h, x, y, 0) == Indicator(g[x - 1][y - 1]) + LiveFrom(g, h, x, y, 1);
    BinaryCell(g, x - 1, y - 1);
    BinaryCell(g, x - 1, y);
    BinaryCell(g, x - 1, y + 1);
    BinaryCell(g, x, y - 1);
    BinaryCell(g, x, y + 1);
    BinaryCell(g, x + 1, y - 1);
    BinaryCell(g, x + 1, y);
    BinaryCell(g, x + 1, y + 1);
  }

  /** In a dead/alive grid a state equals its indicator. */
  lemma BinaryCell(g: seq<seq<int>>, x: int, y: int)
    requires Binary(g) && 0 <= x < |g| && 0 <= y < |g[x]|
    ensures g[x][y] == Indicator(g[x][y])
  {
  }

  /**
   * The state a cell holds after one step, as a function of the grid before
   * it: interior cells follow the rule, border cells are dead.
   */
  function Successor(g: seq<seq<int>>, h: nat, x: int, y: int): (next: int)
    requires IsGrid(g, h) && 0 <= x < |g| && 0 <= y < h
    ensures next == DeadState || next == AliveState
    ensures !Interior(g, h, x, y) ==> next == DeadState
  {
    if Interior(g, h, x, y) then Rule(g[x][y], NeighbourCount(g, h, x, y)) else DeadState
  }

  /**
   * On a grid of dead/alive states, an interior live cell is alive next
   * exactly when it has 2 or 3 live neighbours.
   */
  lemma LiveCellSurvives(g: seq<seq<int>>, h: nat, x: int, y: int)
    requires IsGrid(g, h) && Interior(g, h, x, y) && Binary(g) && g[x][y] == AliveState
    ensures Successor(g, h, x, y) == AliveState <==>
              LiveNeighbours(g, h, x, y) == 2 || LiveNeighbours(g, h, x, y) == 3
  {
    NeighbourCountIsLiveNeighbours(g, h, x, y);
  }

  /**
   * On a grid of dead/alive states, an interior dead cell is alive next
   * exactly when it has 3 live neighbours.
   */
  lemma DeadCellIsBorn(g: seq<seq<int>>, h: nat, x: int, y: int)
    requires IsGrid(g, h) && Interior(g, h, x, y) && Binary(g) && g[x][y] == DeadState
    ensures Successor(g, h, x, y) == AliveState <==> LiveNeighbours(g, h, x, y) == 3
  {
    NeighbourCountIsLiveNeighbours(g, h, x, y);
  }

  /** The step is local: a cell's successor depends only on its 3x3 block. */
  lemma SuccessorIsLocal(g: seq<seq<int>>, g': seq<seq<int>>, h: nat, x: int, y: int)
    requires IsGrid(g, h) && IsGrid(g', h) && |g| == |g'| && 0 <= x < |g| && 0 <= y < h
    requires forall i, j :: x - 1 <= i <= x + 1 && y - 1 <= j <= y + 1 && 0 <= i < |g| && 0 <= j < h ==>
               g[i][j] == g'[i][j]
    ensures Successor(g, h, x, y) == Successor(g', h, x, y)
  {
    if Interior(g, h, x, y) {
      assert g[x][y] == g'[x][y];
      assert NeighbourCount(g, h, x, y) == NeighbourCount(g', h, x, y) by {
        assert g[x][y - 1] == g'[x][y - 1] && g[x + 1][y - 1] == g'[x + 1][y - 1];
        assert g[x + 1][y] == g'[x + 1][y] && g[x + 1][y + 1] == g'[x + 1][y + 1];
        assert g[x][y + 1] == g'[x][y + 1] && g[x - 1][y + 1] == g'[x - 1][y + 1];
        assert g[x - 1][y] == g'[x - 1][y] && g[x - 1][y - 1] == g'[x - 1][y - 1];
      }
    }
  }

  /** An all-dead grid has no cell with three live neighbours, so it stays dead. */
  lemma DeadGridStaysDead(g: seq<seq<int>>, h: nat, x: int, y: int)
    requires IsGrid(g, h) && AllDead(g) && 0 <= x < |g| && 0 <= y < h
    ensures Successor(g, h, x, y) == DeadState
  {
    if Interior(g, h, x, y) {
      assert g[x][y - 1] == 0 && g[x + 1][y - 1] == 0 && g[x + 1][y] == 0 && g[x + 1][y + 1] == 0;
      assert g[x][y + 1] == 0 && g[x - 1][y + 1] == 0 && g[x - 1][y] == 0 && g[x - 1][y - 1] == 0;
    }
  }

  /**
   * The cast of a draw from Random.Range(0.0f, 1.0f) to int, as the
   * randomisation writes it: the draw lies in [0, 1] and the cast truncates,
   * so every draw except exactly 1.0 yields a dead cell.
   */
  function DrawToState(draw: real): (state: int)
    requires 0.0 <= draw <= 1.0
    ensures state == (if draw == 1.0 then AliveState else DeadState)
  {
    draw.Floor
  }

  /** Every draw below 1.0 gives a dead cell. */
  lemma DrawBelowOneIsDead(draw: real)
    requires 0.0 <= draw < 1.0
    ensures DrawToState(draw) == DeadState
  {
  }

  // ---------------------------------------------------------------------
  // The simulation object: a 2-D array of cells updated in place.
  // ---------------------------------------------------------------------

  class Life {
    const sizeX: nat
    const sizeY: nat
    var cells: array2<Cell>

    /**
     * The object invariant: the array has the grid's size, each cell knows
     * its position, every state indexes the two-entry colour table, and no
     * border cell has a pending state other than dead.
     */
    ghost predicate Valid()
      reads this, cells
    {
      cells.Length0 == sizeX && cells.Length1 == sizeY &&
      (forall x, y :: 0 <= x < sizeX && 0 <= y < sizeY ==>
         cells[x, y].posX == x && cells[x, y].posY == y &&
         0 <= cells[x, y].state < ColourCount &&
         (x == 0 || x == sizeX - 1 || y == 0 || y == sizeY - 1 ==> cells[x, y].nextState == DeadState))
    }

    /** The current states, column by column. */
    ghost function StateGrid(): (g: seq<seq<int>>)
      reads this, cells
      ensures |g| == cells.Length0 && IsGrid(g, cells.Length1)
      ensures forall x, y :: 0 <= x < cells.Length0 && 0 <= y < cells.Length1 ==> g[x][y] == cells[x, y].state
    {
      seq(cells.Length0, x requires 0 <= x < cells.Length0 reads this, cells =>
        seq(cells.Length1, y requires 0 <= x < cells.Length0 && 0 <= y < cells.Length1 reads this, cells => cells[x, y].state))
    }

    /**
     * Allocates the grid (every field zero, as a fresh struct array is) and
     * seeds it; `coin(x, y)` is the random outcome for cell (x, y).
     */
    constructor Start(sx: nat, sy: nat, coin: (int, int) -> bool)
      ensures Valid() && fresh(cells)
      ensures sizeX == sx && sizeY == sy
      ensures forall x, y :: 0 <= x < sx && 0 <= y < sy ==>
                cells[x, y] == Cell(x, y, if coin(x, y) then AliveState else DeadState, DeadState)
    {
      sizeX, sizeY := sx, sy;
      cells := new Cell[sx, sy]((x, y) => Cell(0, 0, 0, 0));
      new;
      RandomizeCells(coin);
    }

    /**
     * Gives every cell its position and a random dead/alive state, leaving
     * pending states alone.
     */
    method RandomizeCells(coin: (int, int) -> bool)
      requires cells.Length0 == sizeX && cells.Length1 == sizeY
      requires forall x, y :: (0 <= x < sizeX && 0 <= y < sizeY &&
                 (x == 0 || x == sizeX - 1 || y == 0 || y == sizeY - 1)) ==> cells[x, y].nextState == DeadState
      modifies cells
      ensures Valid()
      ensures forall x, y :: 0 <= x < sizeX && 0 <= y < sizeY ==>
                cells[x, y] == Cell(x, y, if coin(x, y) then AliveState else DeadState, old(cells[x, y].nextState))
    {
      for x := 0 to sizeX
        invariant forall i, j :: 0 <= i < x && 0 <= j < sizeY ==>
                    cells[i, j] == Cell(i, j, if coin(i, j) then AliveState else DeadState, old(cells[i, j].nextState))
        invariant forall i, j :: x <= i < sizeX && 0 <= j < sizeY ==> cells[i, j] == old(cells[i, j])
      {
        for y := 0 to sizeY
          invariant forall i, j :: 0 <= i < sizeX && 0 <= j < sizeY && (i < x || (i == x && j < y)) ==>
                      cells[i, j] == Cell(i, j, if coin(i, j) then AliveState else DeadState, old(cells[i, j].nextState))
          invariant forall i, j :: 0 <= i < sizeX && 0 <= j < sizeY && (i > x || (i == x && j >= y)) ==>
                      cells[i, j] == old(cells[i, j])
        {
          var state := if coin(x, y) then AliveState else DeadState;
          cells[x, y] := cells[x, y].(posX := x, posY := y, state := state);
        }
      }
    }

    /**
     * One generation. Every cell's new state is the successor of its cell in
     * the grid as it was before the step, whatever order the cells are
     * visited in; pending and current states agree afterwards, and the
     * border is dead.
     */
    method TimeStep()
      requires Valid()
      modifies cells
      ensures Valid()
      ensures forall x, y :: 0 <= x < sizeX && 0 <= y < sizeY ==>
                cells[x, y].state == Successor(old(StateGrid()), sizeY, x, y) &&
                cells[x, y].nextState == cells[x, y].state
      ensures forall x, y :: 0 <= x < sizeX && 0 <= y < sizeY && (x == 0 || x == sizeX - 1 || y == 0 || y == sizeY - 1) ==>
                cells[x, y].state == DeadState
    {
      ComputeNextStates();
      CommitNextStates();
    }

    /**
     * Phase one of a step: reads only current states and writes only pending
     * states, so the pending state of each cell is its successor in the grid
     * as it was when the phase began.
     */
    method ComputeNextStates()
      requires Valid()
      modifies cells
      ensures Valid()
      ensures forall x, y :: 0 <= x < sizeX && 0 <= y < sizeY ==>
                cells[x, y].nextState == Successor(old(StateGrid()), sizeY, x, y) &&
                cells[x, y].state == old(cells[x, y].state)
    {
      ghost var g := StateGrid();
      for x := 0 to sizeX
        invariant forall i, j :: 0 <= i < sizeX && 0 <= j < sizeY ==>
                    cells[i, j].state == g[i][j] && cells[i, j].posX == i && cells[i, j].posY == j
        invariant forall i, j :: 0 <= i < x && 0 <= j < sizeY ==> cells[i, j].nextState == Successor(g, sizeY, i, j)
        invariant forall i, j :: x <= i < sizeX && 0 <= j < sizeY ==> cells[i, j].nextState == old(cells[i, j].nextState)
      {
        ComputeColumn(x, g);
      }
    }

    /** Phase one for column `x`: the pending state of each of its cells becomes its successor. */
    method ComputeColumn(x: int, ghost g: seq<seq<int>>)
      requires cells.Length0 == sizeX && cells.Length1 == sizeY && 0 <= x < sizeX
      requires |g| == sizeX && IsGrid(g, sizeY)
      requires forall i, j :: 0 <= i < sizeX && 0 <= j < sizeY ==> cells[i, j].state == g[i][j]
      requires forall j :: (0 <= j < sizeY && (x == 0 || x == sizeX - 1 || j == 0 || j == sizeY - 1)) ==>
                 cells[x, j].nextState == DeadState
      modifies cells
      ensures forall j :: 0 <= j < sizeY ==> cells[x, j] == old(cells[x, j]).(nextState := Successor(g, sizeY, x, j))
      ensures forall i, j :: 0 <= i < sizeX && 0 <= j < sizeY && i != x ==> cells[i, j] == old(cells[i, j])
    {
      for y := 0 to sizeY
        invariant forall i, j :: 0 <= i < sizeX && 0 <= j < sizeY ==> cells[i, j].state == g[i][j]
        invariant forall j :: 0 <= j < y ==> cells[x, j] == old(cells[x, j]).(nextState := Successor(g, sizeY, x, j))
        invariant forall j :: y <= j < sizeY ==> cells[x, j] == old(cells[x, j])
        invariant forall i, j :: 0 <= i < sizeX && 0 <= j < sizeY && i != x ==> cells[i, j] == old(cells[i, j])
      {
        if x == 0 || x == sizeX - 1 {
          continue;
        }
        if y == 0 || y == sizeY - 1 {
          continue;
        }
        UpdateNextState(x, y, g);
      }
    }

    /**
     * The body of phase one for an interior cell: sums the states of its
     * 8 neighbours and applies the rule to its pending state.
     */
    method UpdateNextState(x: int, y: int, ghost g: seq<seq<int>>)
      requires cells.Length0 == sizeX && cells.Length1 == sizeY
      requires |g| == sizeX && IsGrid(g, sizeY) && Interior(g, sizeY, x, y)
      requires forall i, j :: 0 <= i < sizeX && 0 <= j < sizeY ==> cells[i, j].state == g[i][j]
      modifies cells
      ensures cells[x, y] == old(cells[x, y]).(nextState := Successor(g, sizeY, x, y))
      ensures forall i, j :: 0 <= i < sizeX && 0 <= j < sizeY && (i != x || j != y) ==> cells[i, j] == old(cells[i, j])
    {
      var numAliveNeighbours := 0;
      numAliveNeighbours := numAliveNeighbours + cells[x, y - 1].state;
      numAliveNeighbours := numAliveNeighbours + cells[x + 1, y - 1].state;
      numAliveNeighbours := numAliveNeighbours + cells[x + 1, y].state;
      numAliveNeighbours := numAliveNeighbours + cells[x + 1, y + 1].state;
      numAliveNeighbours := numAliveNeighbours + cells[x, y + 1].state;
      numAliveNeighbours := numAliveNeighbours + cells[x - 1, y + 1].state;
      numAliveNeighbours := numAliveNeighbours + cells[x - 1, y].state;
      numAliveNeighbours := numAliveNeighbours + cells[x - 1, y - 1].state;
      assert numAliveNeighbours == NeighbourCount(g, sizeY, x, y);

      var next;
      if cells[x, y].state == AliveState {
        if numAliveNeighbours == 2 || numAliveNeighbours == 3 {
          next := AliveState;
        } else {
          next := DeadState;
        }
      } else {
        if numAliveNeighbours == 3 {
          next := AliveState;
        } else {
          next := DeadState;
        }
      }
      cells[x, y] := cells[x, y].(nextState := next);
    }

    /** Phase two of a step: every cell's current state becomes its pending state. */
    method CommitNextStates()
      requires Valid()
      requires forall x, y :: 0 <= x < sizeX && 0 <= y < sizeY ==> 0 <= cells[x, y].nextState < ColourCount
      modifies cells
      ensures Valid()
      ensures forall x, y :: 0 <= x < sizeX && 0 <= y < sizeY ==>
                cells[x, y] == old(cells[x, y]).(state := old(cells[x, y].nextState))
    {
      for x := 0 to sizeX
        invariant forall i, j :: 0 <= i < x && 0 <= j < sizeY ==>
                    cells[i, j] == old(cells[i, j]).(state := old(cells[i, j].nextState))
        invariant forall i, j :: x <= i < sizeX && 0 <= j < sizeY ==> cells[i, j] == old(cells[i, j])
      {
        for y := 0 to sizeY
          invariant forall i, j :: 0 <= i < x && 0 <= j < sizeY ==>
                      cells[i, j] == old(cells[i, j]).(state := old(cells[i, j].nextState))
          invariant forall j :: 0 <= j < y ==> cells[x, j] == old(cells[x, j]).(state := old(cells[x, j].nextState))
          invariant forall i, j :: (0 <= i < sizeX && 0 <= j < sizeY && (i > x || (i == x && j >= y))) ==>
                      cells[i, j] == old(cells[i, j])
        {
          cells[x, y] := cells[x, y].(state := cells[x, y].nextState);
        }
      }
    }
  }
}
