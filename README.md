# ComputeShaderTest core, modelled in Dafny

This project models the discrete logic in three Unity behaviours of the
ComputeShaderTest project. The behaviours compare CPU and GPU versions of small
simulations.

- **Game of Life** (`GameOfLife.dfy`, class `Life`): a grid of cells, each
  holding a state and a pending state, stored in an `array2`.
  - `TimeStep` runs in two phases. Phase one writes each interior cell's
    pending state using the B3/S23 rule over its eight Moore neighbours.
    Phase two copies every pending state into the state.
  - The step is specified cell by cell by the pure `Successor` function over a
    snapshot of the grid taken before the step.
  - The neighbour sum is proved equal to a reference count of live
    neighbours.
  - The border is never computed, so after a step it is dead.
- **Boid bookkeeping** (`Boids.dfy`, class `BoidsController`):
  - two parallel lists of boid objects and their rigid bodies, grown by
    appending and shrunk from the tail to the number typed in;
  - each boid's CPU steering flag, kept equal to "GPU toggle off";
  - the arrays packed for the compute kernel;
  - the 100-slot ring of frame times;
  - the thread-group count.

  Engine objects are values with fresh identities, and destroyed objects are
  a set of identities.
- **Cube wall resize** (`RandomCubes.dfy`, class `CubeController`): the 2-D
  array of cubes is resized when the requested size changes.
  - Cells in the overlap keep their cube.
  - Every other new cell gets a freshly created cube placed at its column and
    row.
  - Old cubes past the new bounds are destroyed. The corner past both bounds
    is destroyed twice, which is why the destroyed cubes form a multiset.
  - The camera is re-centred with integer halving.

Engine readings are parameters of the operations: random draws, positions,
velocities, boundary walls, the obstacle list and the number parsed from the
input field.

## Model

| member | source | states |
|---|---|---|
| GameOfLife.Rule | Assets/Scripts/GameOfLife/GameOfLife.cs:81-103 | The next state is dead or alive. It is alive exactly when the neighbour count is 3, or the cell is alive and the count is 2. |
| GameOfLife.NeighbourCount | Assets/Scripts/GameOfLife/GameOfLife.cs:65-79 | The sum of the 8 surrounding states lies in [0, 8] when every state is 0 or 1. |
| GameOfLife.LiveFrom | Assets/Scripts/GameOfLife/GameOfLife.cs:71-79 | The reference count over the remaining Moore offsets is at most their number. |
| GameOfLife.LiveNeighbours | Assets/Scripts/GameOfLife/GameOfLife.cs:71-79 | A cell has at most 8 live neighbours. |
| GameOfLife.NeighbourCountIsLiveNeighbours | Assets/Scripts/GameOfLife/GameOfLife.cs:65-79 | On a grid of dead/alive states, the update's sum equals the number of live cells in the Moore neighbourhood. |
| GameOfLife.BinaryCell | Assets/Scripts/GameOfLife/GameOfLife.cs:24-25 | In a dead/alive grid a state equals its live indicator. |
| GameOfLife.Successor | Assets/Scripts/GameOfLife/GameOfLife.cs:61-111 | The state after a step is dead or alive, and it is dead for every border cell. |
| GameOfLife.LiveCellSurvives | Assets/Scripts/GameOfLife/GameOfLife.cs:82-92 | On a dead/alive grid, an interior live cell is alive next exactly when 2 or 3 cells of its Moore neighbourhood are alive. |
| GameOfLife.DeadCellIsBorn | Assets/Scripts/GameOfLife/GameOfLife.cs:93-103 | On a dead/alive grid, an interior dead cell is alive next exactly when 3 cells of its Moore neighbourhood are alive. |
| GameOfLife.SuccessorIsLocal | Assets/Scripts/GameOfLife/GameOfLife.cs:61-105 | Two grids that agree on a cell's 3x3 block give it the same next state. |
| GameOfLife.DeadGridStaysDead | Assets/Scripts/GameOfLife/GameOfLife.cs:93-103 | Every cell of an all-dead grid is dead after a step. |
| GameOfLife.DrawToState | Assets/Scripts/GameOfLife/GameOfLife.cs:54 | Casting a draw in [0, 1] gives alive only for a draw of exactly 1.0, and dead otherwise. |
| GameOfLife.DrawBelowOneIsDead | Assets/Scripts/GameOfLife/GameOfLife.cs:54 | Every draw below 1.0 seeds a dead cell. |
| GameOfLife.Life.StateGrid | Assets/Scripts/GameOfLife/GameOfLife.cs:15-22 | The snapshot has the array's shape and holds each cell's state. |
| GameOfLife.Life.Start | Assets/Scripts/GameOfLife/GameOfLife.cs:31-38 | It allocates a fresh grid of the given size with zeroed cells, then seeds it. Every cell holds its own position, the state its random outcome gives and a dead pending state, and the invariant holds. |
| GameOfLife.Life.RandomizeCells | Assets/Scripts/GameOfLife/GameOfLife.cs:47-57 | Every cell gets its own position and a dead/alive state drawn for it, and its pending state is unchanged. |
| GameOfLife.Life.TimeStep | Assets/Scripts/GameOfLife/GameOfLife.cs:59-114 | Every cell's new state is the `Successor` of the grid before the step, so the result does not depend on visiting order. Pending states equal states, border cells are dead, and states stay in the colour table's range. |
| GameOfLife.Life.ComputeNextStates | Assets/Scripts/GameOfLife/GameOfLife.cs:61-105 | Only pending states change, and each becomes the cell's successor in the grid as it was when the phase began. |
| GameOfLife.Life.ComputeColumn | Assets/Scripts/GameOfLife/GameOfLife.cs:63-104 | Each cell of the column gets its successor as its pending state, and other columns are unchanged. Border cells are skipped and keep their dead pending state. |
| GameOfLife.Life.UpdateNextState | Assets/Scripts/GameOfLife/GameOfLife.cs:65-103 | The pending state of the interior cell becomes its successor, and nothing else changes. |
| GameOfLife.Life.CommitNextStates | Assets/Scripts/GameOfLife/GameOfLife.cs:107-113 | Every cell's state becomes its old pending state, and the rest of the cell is unchanged. |
| RandomCubes.CameraPositionFor | Assets/Scripts/RandomCubes/CubeController.cs:108 | x and y are the integer halves of the grid's sides. z is -1.25 times the larger side. |
| RandomCubes.ColumnMultiplicity | Assets/Scripts/RandomCubes/CubeController.cs:79-82 | In a grid whose cubes sit at their own cells, a cube occurs in a column slice once if its cell is in the slice, and otherwise never. |
| RandomCubes.RegionMultiplicity | Assets/Scripts/RandomCubes/CubeController.cs:77-83 | A cube occurs in a rectangular region once if its cell is in the region, and otherwise never. |
| RandomCubes.ResizeDestroysBeyondBounds | Assets/Scripts/RandomCubes/CubeController.cs:75-95 | A resize destroys an old cube once for each new bound its cell lies beyond. So no cell inside the new bounds is destroyed, and the corner past both bounds is destroyed twice. |
| RandomCubes.ColumnIdsBelow | Assets/Scripts/RandomCubes/CubeController.cs:79-82 | Every cube in a column slice has an identity below any bound that the grid respects. |
| RandomCubes.RegionIdsBelow | Assets/Scripts/RandomCubes/CubeController.cs:77-83 | Every cube in a region has an identity below any bound that the grid respects. |
| RandomCubes.ResizeKeepsInvariant | Assets/Scripts/RandomCubes/CubeController.cs:53-97 | After a resize, every cube sits at its cell and none of the live cubes is among the destroyed ones. Every identity was handed out before. |
| RandomCubes.CubeController.constructor | Assets/Scripts/RandomCubes/CubeController.cs:11-18 | The controller starts with an empty 0x0 grid and nothing destroyed. |
| RandomCubes.CubeController.OnCPURandomizeClick | Assets/Scripts/RandomCubes/CubeController.cs:26-28 | The requested size is kept, and afterwards the grid has it. When the grid already had that size, nothing changes. Otherwise the grid is resized as `UpdateCubesArray` states: overlap cells keep their cube, other cells get new cubes at (x, y), exactly the old cubes past the new bounds are destroyed, and the camera is re-centred. |
| RandomCubes.CubeController.UpdateCubesArray | Assets/Scripts/RandomCubes/CubeController.cs:53-103 | The new grid has exactly the requested size. Overlap cells keep their cube, and other cells get new cubes placed at (x, y). The destroyed cubes grow by exactly the old cubes past the new bounds. The camera is re-centred and the invariant holds. |
| RandomCubes.CubeController.ResizeGrid | Assets/Scripts/RandomCubes/CubeController.cs:55-97 | The grid gets exactly the requested size. Overlap cells keep their cube, and other cells get new cubes placed at (x, y). The destroyed cubes grow by exactly the old cubes past the new bounds, and the invariant holds. |
| RandomCubes.CubeController.FillResized | Assets/Scripts/RandomCubes/CubeController.cs:55-73 | The new array has the requested size. Overlap cells share the old cube, and the other cells hold cubes with new identities at their own cells. |
| RandomCubes.CubeController.DestroyedPastNewBounds | Assets/Scripts/RandomCubes/CubeController.cs:75-95 | The two guarded destroying loops destroy exactly the cubes that `ResizeDestroyed` names. |
| RandomCubes.CubeController.DestroyedColumnsPast | Assets/Scripts/RandomCubes/CubeController.cs:75-84 | The loop destroys exactly the cubes in the columns from the new width on. |
| RandomCubes.CubeController.DestroyedRowsPast | Assets/Scripts/RandomCubes/CubeController.cs:86-95 | The loop destroys exactly the cubes in the rows from the new height on. |
| RandomCubes.CubeController.DestroyedColumnFrom | Assets/Scripts/RandomCubes/CubeController.cs:79-82 | The inner loop destroys exactly the cubes of one column from the starting row on. |
| RandomCubes.CubeController.UpdateCameraPosition | Assets/Scripts/RandomCubes/CubeController.cs:105-109 | The camera moves to the position for the requested grid, and nothing else changes. |
| Boids.DecimalString | Assets/Scripts/Boids/BoidsController.cs:253 | A number's decimal text is non-empty, has one character exactly for values below 10, and ends in the number's last digit. |
| Boids.DecimalStringInjective | Assets/Scripts/Boids/BoidsController.cs:253 | Different numbers have different decimal texts. |
| Boids.BoidNamesDistinct | Assets/Scripts/Boids/BoidsController.cs:253 | Two boid names "Boid_" + index are equal only for equal indices. |
| Boids.NumKernels | Assets/Scripts/Boids/BoidsController.cs:143 | Parsing 0 throws a division by zero. For any other count the value is at least 1. It is 1 for negative counts and counts above 1024. For counts from 1 to 1024 it is the largest k with k * count <= 1024. |
| Boids.Wrap32 | Assets/Scripts/Boids/BoidsController.cs:205-207 | The result is a 32-bit int congruent to the input modulo 2^32, and equal to it when the input fits. |
| Boids.FrameSlot | Assets/Scripts/Boids/BoidsController.cs:108 | The slot lies in [0, 100) and is congruent to the counter modulo 100. |
| Boids.PackBoids | Assets/Scripts/Boids/BoidsController.cs:267-279 | There is one record per boid, in list order, holding the boid's position and velocity with zero headings, centre and mate count. |
| Boids.PackObstacles | Assets/Scripts/Boids/BoidsController.cs:268-291 | The array has length obstacles + 6: the 6 walls with zero velocity, then obstacle k at slot 6 + k. |
| Boids.PackObstaclesAsWritten | Assets/Scripts/Boids/BoidsController.cs:268-291 | As written, the obstacle loop throws the list indexer's ArgumentOutOfRange exactly when there is an obstacle, at index max(6, count). Until then, slot i holds obstacle i. |
| Boids.ObstaclePackingThrows | Assets/Scripts/Boids/BoidsController.cs:287-291 | A single obstacle makes the loop as written throw at index 6. |
| Boids.BoidsController.Awake | Assets/Scripts/Boids/BoidsController.cs:69-79 | The controller ends with 25 boids, nothing destroyed, a 100-slot frame ring of zeros and counter 0. |
| Boids.BoidsController.Update | Assets/Scripts/Boids/BoidsController.cs:105-112 | The counter advances by one without wrapping and restarts at 0 on reaching uint.MaxValue. The frame time lands in slot counter % 100. The lists, the toggle, the kernel arrays and the ring itself are unchanged. |
| Boids.BoidsController.OnGPUToggleChange | Assets/Scripts/Boids/BoidsController.cs:180-199 | Every boid's script flag becomes "toggle off". Nothing else about the boids changes, and the bodies, the kernel arrays and the frame ring are unchanged. |
| Boids.BoidsController.OnNumBoidsEdit | Assets/Scripts/Boids/BoidsController.cs:202-215 | The count to delete is the wrapped 32-bit difference count - n. For n >= 0 the list has exactly n boids with the kept prefix unchanged. A negative n whose difference fits empties the lists and throws ArgumentOutOfRange(-1) before repacking. A negative n whose difference overflows deletes nothing. The removed boids are destroyed, growing destroys nothing, and every added boid has a fresh identity. On success the kernel arrays hold each boid's record, then the walls and the obstacles, as `UpdateComputeShaderStructs` packs them. The toggle and the frame ring are unchanged. |
| Boids.BoidsController.DeleteBoids | Assets/Scripts/Boids/BoidsController.cs:228-237 | Both lists lose exactly their last min(k, count) entries, and their prefix is unchanged. The removed boids are destroyed. It throws exactly when k exceeds the count, and the list invariant is kept. |
| Boids.BoidsController.RemoveLast | Assets/Scripts/Boids/BoidsController.cs:232-235 | The last boid leaves both lists and its identity is destroyed. Nothing else changes, and the list invariant is kept. |
| Boids.BoidsController.SpawnBoids | Assets/Scripts/Boids/BoidsController.cs:239-263 | Both lists gain max(k, 0) entries with the prefix unchanged. Each new boid is a fresh object named "Boid_" + its index, with its script off exactly when the GPU toggle is on. |
| Boids.BoidsController.SpawnOne | Assets/Scripts/Boids/BoidsController.cs:243-261 | One fresh boid is appended to both lists with its name and script flag, and the invariant is kept. |
| Boids.BoidsController.UpdateComputeShaderStructs | Assets/Scripts/Boids/BoidsController.cs:265-292 | The kernel input is rebuilt from the current boids, the walls and the obstacles, as `PackBoids` and `PackObstacles` describe, and the lists are unchanged. |

## Left out

- The boid steering rules in Boid.cs and the rigid-body physics: `AddForce`, `MoveRotation`, `GPUUpdate`. They are floating-point vector math and physics-engine calls.
- GPU dispatch in `FixedUpdate`, meaning compute-buffer creation, upload, readback and release. This is device I/O. Only the thread-group count (`Boids.NumKernels`) is modelled.
- `VerifyShaderOutput`: it checks floats for NaN and infinity, which reals cannot represent. It is also never called.
- The FPS average and text in `Update`: floating point and UI. Only the ring and counter are modelled.
- The settings struct filled in `Start` and `OnWeightSliderValueChanged`: plain copies of slider and settings values. `Start`'s call to `UpdateComputeShaderStructs` is the modelled method.
- `ApplyToTexture`: texture writes. The only part kept is its requirement that every state indexes the two-entry colour table, which `Life.Valid` states and every operation keeps.
- Random cube colours, random z offsets, parenting and debug logging in `CubeController`.
- The random position, rotation, kick, layer, material and settings of a spawned boid.
- `ObstacleController`, `ComputeUtils`, `SceneController`, `BoidsEditor`, and the settings classes are not part of this model.
- The six boundary walls are read from the scene's `Boundaries` object. The scene is assumed to provide at least six, since `GetChild` would throw otherwise.
- `int.Parse` of the input field: the parsed integer is a parameter in the 32-bit range, so text that fails to parse or overflows is not modelled. `OnNumBoidsEdit` also requires at most int.MaxValue boids, the most a `List` can hold.
- The `Mathf.CeilToInt` in `NumKernels` is applied to an integer quotient, so it is the identity. Its float round trip is not modelled.
- Unity destroys objects at the end of the frame. Here `Destroy` is recorded at once, as an identity added to the destroyed set or multiset.
- `Life`: the grid size is a parameter of `Start` rather than the scene's fixed 1920 x 1080. Cell positions are integers rather than a float vector.
- `Life.RandomizeCells`: models the evidently intended fair draw per cell (a `coin` parameter). The cast as written is modelled separately by `GameOfLife.DrawToState`; see Findings.
- `BoidsController.UpdateComputeShaderStructs`: packs obstacles with the corrected index. The loop as written is `Boids.PackObstaclesAsWritten`; see Findings.
- `BoidsController.OnNumBoidsEdit`: it repacks through the corrected obstacle packing. So whenever the obstacle list is non-empty and deleting did not already throw, it returns Ok where the loop as written throws ArgumentOutOfRange.
- `CubeController`: `numCubesX` and `numCubesY` are naturals. The inspector's minimum of 1 is not enforced.

## Findings

| source | as written | input that shows it | evidently intended | confidence | as-written member | corrected member |
|---|---|---|---|---|---|---|
| Assets/Scripts/Boids/BoidsController.cs:287-291 | Obstacle slot i, for i from 6, reads obstacle i. | Any non-empty obstacle list. With one obstacle, slot 6 reads index 6 of a 1-element list and throws. With more than 6, the first 6 obstacles are skipped. | Slot i holds obstacle i - 6, so all obstacles follow the 6 walls. | high; not executed | Boids.PackObstaclesAsWritten | Boids.PackObstacles |
| Assets/Scripts/GameOfLife/GameOfLife.cs:54 | Each state is a float draw from [0, 1] cast to int, which truncates. | Any draw below 1.0, for example 0.5, gives 0. So the grid starts dead unless a draw is exactly 1.0, and a dead grid stays dead. | A fair random choice of dead or alive per cell. | high; not executed | GameOfLife.DrawBelowOneIsDead | GameOfLife.Life.RandomizeCells |
