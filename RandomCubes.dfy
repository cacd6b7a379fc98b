/**
 * A rectangular wall of cubes that can be resized. Cubes are engine objects;
 * here a cube is a value carrying a fresh identity and the grid cell it was
 * created at, and destroying cubes is recorded in a multiset so that a cube
 * destroyed twice is visible as such.
 */
module RandomCubes {

  /** A created cube: its identity and the column and row it was placed at. */
  datatype Cube = Cube(id: nat, col: int, row: int)

  /** The camera position: integer x and y, real z. */
  datatype CameraPosition = CameraPosition(x: int, y: int, z: real)

  /**
   * Where the camera goes for a grid of nx by ny cubes: centred with integer
   * halving, and backed off in proportion to the larger side.
   */
  function CameraPositionFor(nx: nat, ny: nat): (p: CameraPosition)
    ensures 0 <= 2 * p.x <= nx <= 2 * p.x + 1
    ensures 0 <= 2 * p.y <= ny <= 2 * p.y + 1
    ensures p.z <= 0.0 && (p.z == -1.25 * nx as real || p.z == -1.25 * ny as real)
    ensures p.z <= -1.25 * nx as real && p.z <= -1.25 * ny as real
  {
    CameraPosition(nx / 2, ny / 2, -1.25 * (if nx >= ny then nx else ny) as real)
  }

  /** Every cube of the grid sits at the cell it was created for. */
  ghost predicate Placed(a: array2<Cube>)
    reads a
  {
    forall x, y :: 0 <= x < a.Length0 && 0 <= y < a.Length1 ==> a[x, y].col == x && a[x, y].row == y
  }

  /** The cubes of column x, rows y0 up to (not including) y1. */
  function ColumnCubes(a: array2<Cube>, x: int, y0: int, y1: int): multiset<Cube>
    reads a
    requires 0 <= x < a.Length0 && 0 <= y0 <= y1 <= a.Length1
    decreases y1 - y0
  {
    if y1 == y0 then multiset{} else ColumnCubes(a, x, y0, y1 - 1) + multiset{a[x, y1 - 1]}
  }

  /** The cubes of the columns x0 up to x1, rows y0 up to y1. */
  function RegionCubes(a: array2<Cube>, x0: int, x1: int, y0: int, y1: int): multiset<Cube>
    reads a
    requires 0 <= x0 <= x1 <= a.Length0 && 0 <= y0 <= y1 <= a.Length1
    decreases x1 - x0
  {
    if x1 == x0 then multiset{} else RegionCubes(a, x0, x1 - 1, y0, y1) + ColumnCubes(a, x1 - 1, y0, y1)
  }

  /**
   * What resizing the grid `a` to nx by ny destroys: the columns at and past
   * nx over all old rows, then the rows at and past ny over all old columns.
   */
  function ResizeDestroyed(a: array2<Cube>, nx: nat, ny: nat): multiset<Cube>
    reads a
  {
    (if a.Length0 > nx then RegionCubes(a, nx, a.Length0, 0, a.Length1) else multiset{}) +
    (if a.Length1 > ny then RegionCubes(a, 0, a.Length0, ny, a.Length1) else multiset{})
  }

  /** In a placed grid, a cell's cube occurs in a column slice once if the cell is in it, else never. */
  lemma {:induction false} ColumnMultiplicity(a: array2<Cube>, x: int, y0: int, y1: int, i: int, j: int)
    requires Placed(a) && 0 <= x < a.Length0 && 0 <= y0 <= y1 <= a.Length1
    requires 0 <= i < a.Length0 && 0 <= j < a.Length1
    ensures ColumnCubes(a, x, y0, y1)[a[i, j]] == if i == x && y0 <= j < y1 then 1 else 0
    decreases y1 - y0
  {
    if y1 != y0 {
      ColumnMultiplicity(a, x, y0, y1 - 1, i, j);
    }
  }

  /** In a placed grid, a cell's cube occurs in a region once if the cell is in it, else never. */
  lemma {:induction false} RegionMultiplicity(a: array2<Cube>, x0: int, x1: int, y0: int, y1: int, i: int, j: int)
    requires Placed(a) && 0 <= x0 <= x1 <= a.Length0 && 0 <= y0 <= y1 <= a.Length1
    requires 0 <= i < a.Length0 && 0 <= j < a.Length1
    ensures RegionCubes(a, x0, x1, y0, y1)[a[i, j]] == if x0 <= i < x1 && y0 <= j < y1 then 1 else 0
    decreases x1 - x0
  {
    if x1 != x0 {
      RegionMultiplicity(a, x0, x1 - 1, y0, y1, i, j);
      ColumnMultiplicity(a, x1 - 1, y0, y1, i, j);
    }
  }

  /**
   * Resizing destroys a cell's cube once for each bound it lies beyond: not
   * at all inside the new bounds, twice in the corner past both.
   */
  lemma ResizeDestroysBeyondBounds(a: array2<Cube>, nx: nat, ny: nat, i: int, j: int)
    requires Placed(a) && 0 <= i < a.Length0 && 0 <= j < a.Length1
    ensures ResizeDestroyed(a, nx, ny)[a[i, j]] == (if i >= nx then 1 else 0) + (if j >= ny then 1 else 0)
  {
    if a.Length0 > nx {
      RegionMultiplicity(a, nx, a.Length0, 0, a.Length1, i, j);
    }
    if a.Length1 > ny {
      RegionMultiplicity(a, 0, a.Length0, ny, a.Length1, i, j);
    }
  }

  /** Every cube in a column slice has an identity below any bound all the grid's cubes respect. */
  lemma {:induction false} ColumnIdsBelow(a: array2<Cube>, x: int, y0: int, y1: int, bound: nat)
    requires 0 <= x < a.Length0 && 0 <= y0 <= y1 <= a.Length1
    requires forall i, j :: 0 <= i < a.Length0 && 0 <= j < a.Length1 ==> a[i, j].id < bound
    ensures forall c :: c in ColumnCubes(a, x, y0, y1) ==> c.id < bound
    decreases y1 - y0
  {
    if y1 != y0 {
      ColumnIdsBelow(a, x, y0, y1 - 1, bound);
    }
  }

  /** Every cube in a region has an identity below any bound all the grid's cubes respect. */
  lemma {:induction false} RegionIdsBelow(a: array2<Cube>, x0: int, x1: int, y0: int, y1: int, bound: nat)
    requires 0 <= x0 <= x1 <= a.Length0 && 0 <= y0 <= y1 <= a.Length1
    requires forall i, j :: 0 <= i < a.Length0 && 0 <= j < a.Length1 ==> a[i, j].id < bound
    ensures forall c :: c in RegionCubes(a, x0, x1, y0, y1) ==> c.id < bound
    decreases x1 - x0
  {
    if x1 != x0 {
      RegionIdsBelow(a, x0, x1 - 1, y0, y1, bound);
      ColumnIdsBelow(a, x1 - 1, y0, y1, bound);
    }
  }

  /**
   * The controller's invariant over a grid, the destroyed cubes and the next
   * fresh identity: each cube sits at its cell, every identity in use or
   * destroyed was handed out before, and no live cube was destroyed.
   */
  ghost predicate Consistent(a: array2<Cube>, destroyed: multiset<Cube>, nextId: nat)
    reads a
  {
    Placed(a) &&
    (forall x, y :: 0 <= x < a.Length0 && 0 <= y < a.Length1 ==> a[x, y].id < nextId && a[x, y] !in destroyed) &&
    (forall c :: c in destroyed ==> c.id < nextId)
  }

  /**
   * The resize keeps the controller's invariant: in the new grid every cube
   * sits at its cell and none is destroyed, and every destroyed cube had
   * been handed out, given that the old grid and the old destroyed cubes
   * were so and the new cubes took identities from [id0, id1).
   */
  lemma ResizeKeepsInvariant(a: array2<Cube>, b: array2<Cube>, nx: nat, ny: nat,
                             destroyed: multiset<Cube>, destroyed': multiset<Cube>, id0: nat, id1: nat)
    requires Placed(a)
    requires forall x, y :: 0 <= x < a.Length0 && 0 <= y < a.Length1 ==> a[x, y].id < id0 && a[x, y] !in destroyed
    requires forall c :: c in destroyed ==> c.id < id0
    requires b.Length0 == nx && b.Length1 == ny && id0 <= id1
    requires forall x, y :: 0 <= x < nx && 0 <= y < ny ==>
               if x < a.Length0 && y < a.Length1 then b[x, y] == a[x, y]
               else b[x, y].col == x && b[x, y].row == y && id0 <= b[x, y].id < id1
    requires destroyed' == destroyed + ResizeDestroyed(a, nx, ny)
    ensures Consistent(b, destroyed', id1)
  {
    if a.Length0 > nx {
      RegionIdsBelow(a, nx, a.Length0, 0, a.Length1, id0);
    }
    if a.Length1 > ny {
      RegionIdsBelow(a, 0, a.Length0, ny, a.Length1, id0);
    }
    forall x, y | 0 <= x < nx && 0 <= y < ny
      ensures b[x, y].id < id1 && b[x, y] !in destroyed'
    {
      if x < a.Length0 && y < a.Length1 {
        ResizeDestroysBeyondBounds(a, nx, ny, x, y);
      }
    }
  }

  class CubeController {
    /** The requested grid size, set from the inspector. */
    var numCubesX: nat
    var numCubesY: nat
    var cubes: array2<Cube>
    /** The engine's next fresh object identity. */
    var nextId: nat
    /** Every cube destroyed so far, with the number of times it was destroyed. */
    var destroyed: multiset<Cube>
    var camera: CameraPosition

    /** The object invariant. */
    ghost predicate Valid()
      reads this, cubes
    {
      Consistent(cubes, destroyed, nextId)
    }

    constructor (nx: nat, ny: nat, cameraStart: CameraPosition)
      ensures Valid() && fresh(cubes)
      ensures cubes.Length0 == 0 && cubes.Length1 == 0
      ensures numCubesX == nx && numCubesY == ny && destroyed == multiset{} && camera == cameraStart
    {
      numCubesX, numCubesY := nx, ny;
      cubes := new Cube[0, 0];
      nextId := 0;
      destroyed := multiset{};
      camera := cameraStart;
    }

    /**
     * Brings the grid to the requested size when it differs; the colours
     * are then randomised, which this model leaves out.
     */
    method OnCPURandomizeClick()
      requires Valid()
      modifies this
      ensures Valid()
      ensures numCubesX == old(numCubesX) && numCubesY == old(numCubesY)
      ensures cubes.Length0 == numCubesX && cubes.Length1 == numCubesY
      ensures old(cubes.Length0) == numCubesX && old(cubes.Length1) == numCubesY ==>
                cubes == old(cubes) && destroyed == old(destroyed) && nextId == old(nextId) && camera == old(camera)
      ensures old(cubes.Length0) != numCubesX || old(cubes.Length1) != numCubesY ==>
                fresh(cubes) && nextId >= old(nextId) && camera == CameraPositionFor(numCubesX, numCubesY) &&
                destroyed == old(destroyed) + ResizeDestroyed(old(cubes), numCubesX, numCubesY)
      ensures old(cubes.Length0) != numCubesX || old(cubes.Length1) != numCubesY ==>
                forall x, y :: 0 <= x < numCubesX && 0 <= y < numCubesY ==>
                  if x < old(cubes).Length0 && y < old(cubes).Length1 then cubes[x, y] == old(cubes)[x, y]
                  else cubes[x, y].col == x && cubes[x, y].row == y && old(nextId) <= cubes[x, y].id < nextId
    {
      if cubes.Length0 != numCubesX || cubes.Length1 != numCubesY {
        UpdateCubesArray();
      }
    }

    /**
     * Resizes the grid to numCubesX by numCubesY: cells inside the old
     * bounds keep their cube, the others get a new cube created for them,
     * the old cubes past the new bounds are destroyed (those past both
     * bounds twice), and the camera is re-centred.
     */
    method UpdateCubesArray()
      requires Valid()
      modifies this
      ensures Valid() && fresh(cubes)
      ensures cubes.Length0 == numCubesX && cubes.Length1 == numCubesY
      ensures numCubesX == old(numCubesX) && numCubesY == old(numCubesY) && nextId >= old(nextId)
      ensures forall x, y :: 0 <= x < numCubesX && 0 <= y < numCubesY ==>
                if x < old(cubes).Length0 && y < old(cubes).Length1 then cubes[x, y] == old(cubes)[x, y]
                else cubes[x, y].col == x && cubes[x, y].row == y && old(nextId) <= cubes[x, y].id < nextId
      ensures destroyed == old(destroyed) + ResizeDestroyed(old(cubes), numCubesX, numCubesY)
      ensures camera == CameraPositionFor(numCubesX, numCubesY)
    {
      ResizeGrid();
      UpdateCameraPosition();
    }

    /** The array part of the resize: the first three loops and the reassignment of the grid. */
    method ResizeGrid()
      requires Valid()
      modifies this`nextId, this`destroyed, this`cubes
      ensures Valid() && fresh(cubes)
      ensures cubes.Length0 == numCubesX && cubes.Length1 == numCubesY && nextId >= old(nextId)
      ensures forall x, y :: 0 <= x < numCubesX && 0 <= y < numCubesY ==>
                if x < old(cubes).Length0 && y < old(cubes).Length1 then cubes[x, y] == old(cubes)[x, y]
                else cubes[x, y].col == x && cubes[x, y].row == y && old(nextId) <= cubes[x, y].id < nextId
      ensures destroyed == old(destroyed) + ResizeDestroyed(old(cubes), numCubesX, numCubesY)
    {
      var newCubes, id1 := FillResized(cubes, numCubesX, numCubesY, nextId);
      var gone := DestroyedPastNewBounds(cubes, numCubesX, numCubesY);
      nextId, destroyed, cubes := id1, destroyed + gone, newCubes;
      ResizeKeepsInvariant(old(cubes), cubes, numCubesX, numCubesY, old(destroyed), destroyed, old(nextId), nextId);
    }

    /**
     * The first loop of the resize: a new nx by ny grid whose cells inside
     * the bounds of `old` share its cube and whose other cells get a cube
     * created for them, with identities handed out from `id0` on.
     */
    static method FillResized(prev: array2<Cube>, nx: nat, ny: nat, id0: nat) returns (newCubes: array2<Cube>, id1: nat)
      ensures fresh(newCubes) && newCubes.Length0 == nx && newCubes.Length1 == ny && id0 <= id1
      ensures forall x, y :: 0 <= x < nx && 0 <= y < ny ==>
                if x < prev.Length0 && y < prev.Length1 then newCubes[x, y] == prev[x, y]
                else newCubes[x, y].col == x && newCubes[x, y].row == y && id0 <= newCubes[x, y].id < id1
    {
      newCubes := new Cube[nx, ny];
      id1 := id0;
      for x := 0 to nx
        invariant id0 <= id1
        invariant forall i, j :: 0 <= i < x && 0 <= j < ny ==>
                    if i < prev.Length0 && j < prev.Length1 then newCubes[i, j] == prev[i, j]
                    else newCubes[i, j].col == i && newCubes[i, j].row == j && id0 <= newCubes[i, j].id < id1
      {
        for y := 0 to ny
          invariant id0 <= id1
          invariant forall i, j :: 0 <= i < x && 0 <= j < ny ==>
                      if i < prev.Length0 && j < prev.Length1 then newCubes[i, j] == prev[i, j]
                      else newCubes[i, j].col == i && newCubes[i, j].row == j && id0 <= newCubes[i, j].id < id1
          invariant forall j :: 0 <= j < y ==>
                      if x < prev.Length0 && j < prev.Length1 then newCubes[x, j] == prev[x, j]
                      else newCubes[x, j].col == x && newCubes[x, j].row == j && id0 <= newCubes[x, j].id < id1
        {
          if x < prev.Length0 && y < prev.Length1 {
            newCubes[x, y] := prev[x, y];
            continue;
          }
          newCubes[x, y] := Cube(id1, x, y);
          id1 := id1 + 1;
        }
      }
    }

    /** The two destroying loops of the resize, each run only when its dimension shrinks. */
    static method DestroyedPastNewBounds(prev: array2<Cube>, nx: nat, ny: nat) returns (gone: multiset<Cube>)
      ensures gone == ResizeDestroyed(prev, nx, ny)
    {
      gone := multiset{};
      if prev.Length0 > nx {
        var columns := DestroyedColumnsPast(prev, nx);
        gone := gone + columns;
      }
      if prev.Length1 > ny {
        var rows := DestroyedRowsPast(prev, ny);
        gone := gone + rows;
      }
    }

    /** The second loop of the resize: destroys every old cube in the columns from nx on. */
    static method DestroyedColumnsPast(prev: array2<Cube>, nx: nat) returns (gone: multiset<Cube>)
      requires nx < prev.Length0
      ensures gone == RegionCubes(prev, nx, prev.Length0, 0, prev.Length1)
    {
      gone := multiset{};
      for x := nx to prev.Length0
        invariant gone == RegionCubes(prev, nx, x, 0, prev.Length1)
      {
        var column := DestroyedColumnFrom(prev, x, 0);
        gone := gone + column;
      }
    }

    /** The third loop of the resize: destroys every old cube in the rows from ny on. */
    static method DestroyedRowsPast(prev: array2<Cube>, ny: nat) returns (gone: multiset<Cube>)
      requires ny < prev.Length1
      ensures gone == RegionCubes(prev, 0, prev.Length0, ny, prev.Length1)
    {
      gone := multiset{};
      for x := 0 to prev.Length0
        invariant gone == RegionCubes(prev, 0, x, ny, prev.Length1)
      {
        var column := DestroyedColumnFrom(prev, x, ny);
        gone := gone + column;
      }
    }

    /** The inner loop of both destroying loops: destroys the cubes of column x from row y0 on. */
    static method DestroyedColumnFrom(prev: array2<Cube>, x: int, y0: int) returns (gone: multiset<Cube>)
      requires 0 <= x < prev.Length0 && 0 <= y0 <= prev.Length1
      ensures gone == ColumnCubes(prev, x, y0, prev.Length1)
    {
      gone := multiset{};
      for y := y0 to prev.Length1
        invariant gone == ColumnCubes(prev, x, y0, y)
      {
        gone := gone + multiset{prev[x, y]};
      }
    }

    /** Centres the camera on the requested grid. */
    method UpdateCameraPosition()
      modifies this`camera
      ensures camera == CameraPositionFor(numCubesX, numCubesY)
    {
      var longest := if numCubesX >= numCubesY then numCubesX else numCubesY;
      camera := CameraPosition(numCubesX / 2, numCubesY / 2, -1.25 * longest as real);
    }
  }
}
