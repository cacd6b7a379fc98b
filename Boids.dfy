/**
 * The book-keeping half of the flocking controller: the two parallel lists of
 * boid objects and their rigid bodies, grown and shrunk to a requested size;
 * the per-boid flag that selects the CPU steering script; the arrays packed
 * for the GPU kernel each tick; the frame-time ring; and the kernel-count
 * arithmetic. Engine objects are values with fresh identities, and what the
 * engine reports (positions, velocities, boundary walls, obstacles) is passed
 * in as parameters.
 */
module Boids {

  /** How many boids the controller spawns when it wakes up. */
  const InitialBoids := 25
  /** Number of boundary walls packed ahead of the obstacles. */
  const BoundaryCount := 6
  /** Length of the frame-time ring. */
  const FrameWindow := 100
  /** uint.MaxValue. */
  const UintMax := 0xFFFF_FFFF
  /** The numerator of the kernel-count expression. */
  const ThreadBudget := 1024
  /** int.MaxValue; int.MinValue is -Int32Max - 1. */
  const Int32Max := 0x7FFF_FFFF

  /**
   * The exceptions the modelled code can throw: an integer division by zero,
   * and the ArgumentOutOfRangeException a List indexer throws for `index`.
   */
  datatype Exception = DivideByZero | ArgumentOutOfRange(index: int)

  /** The outcome of code that may throw. */
  datatype Result<T> = Ok(value: T) | Throw(error: Exception)

  datatype Option<T> = None | Some(value: T)

  /** A 3-vector as the engine reports it. */
  datatype Vec3 = Vec3(x: real, y: real, z: real)

  const Zero := Vec3(0.0, 0.0, 0.0)

  type ObjectId = nat

  /** A boid game object: identity, name, and whether its CPU steering script runs. */
  datatype BoidObject = BoidObject(id: ObjectId, name: string, scriptEnabled: bool)

  /** The rigid body component attached to the game object `owner`. */
  datatype Rigidbody = Rigidbody(owner: ObjectId)

  /** What an obstacle game object reports: its position and its rigid body's velocity. */
  datatype Obstacle = Obstacle(pos: Vec3, vel: Vec3)

  /** One boid's record in the kernel's input: its state and zeroed accumulators. */
  datatype BoidShader = BoidShader(pos: Vec3, vel: Vec3, flockHeading: Vec3, flockCenter: Vec3,
                                   separationHeading: Vec3, numFlockMates: int)

  /** One obstacle's record in the kernel's input. */
  datatype ObstacleShader = ObstacleShader(pos: Vec3, vel: Vec3)

  /** GetComponent<Rigidbody>() on a boid. */
  function RigidbodyOf(b: BoidObject): (body: Rigidbody)
    ensures body.owner == b.id
  {
    Rigidbody(b.id)
  }

  // ---------------------------------------------------------------------
  // Names
  // ---------------------------------------------------------------------

  function DigitChar(d: nat): (c: char)
    requires d < 10
    ensures '0' <= c <= '9' && c as int - '0' as int == d
  {
    ('0' as int + d) as char
  }

  /** int.ToString() of a non-negative value: its decimal digits, most significant first. */
  function DecimalString(n: nat): (s: string)
    ensures 1 <= |s| && (|s| == 1 <==> n < 10)
    ensures s[|s| - 1] as int - '0' as int == n % 10
    decreases n
  {
    if n < 10 then [DigitChar(n)] else DecimalString(n / 10) + [DigitChar(n % 10)]
  }

  /** Different numbers have different decimal strings. */
  lemma {:induction false} DecimalStringInjective(m: nat, n: nat)
    requires DecimalString(m) == DecimalString(n)
    ensures m == n
    decreases m
  {
    var s := DecimalString(m);
    if m >= 10 {
      assert n >= 10;
      assert s[..|s| - 1] == DecimalString(m / 10);
      assert s[..|s| - 1] == DecimalString(n / 10);
      DecimalStringInjective(m / 10, n / 10);
    }
  }

  /** The name a boid gets: "Boid_" followed by the list index it is added at. */
  function BoidName(index: nat): string {
    "Boid_" + DecimalString(index)
  }

  /** Boids at different indices have different names. */
  lemma BoidNamesDistinct(i: nat, j: nat)
    requires BoidName(i) == BoidName(j)
    ensures i == j
  {
    assert BoidName(i)[5..] == DecimalString(i);
    assert BoidName(j)[5..] == DecimalString(j);
    DecimalStringInjective(i, j);
  }

  // ---------------------------------------------------------------------
  // Arithmetic
  // ---------------------------------------------------------------------

  /**
   * The number of thread groups dispatched for the boid count typed in:
   * Max(1, CeilToInt(1024 / n)) with integer division, which throws for 0.
   */
  function NumKernels(numBoidsTyped: int): (r: Result<int>)
    ensures r.Ok? <==> numBoidsTyped != 0
    ensures r.Throw? ==> r.error == DivideByZero
    ensures r.Ok? ==> r.value >= 1
    ensures r.Ok? && numBoidsTyped > ThreadBudget ==> r.value == 1
    ensures r.Ok? && numBoidsTyped < 0 ==> r.value == 1
    ensures r.Ok? && 0 < numBoidsTyped <= ThreadBudget ==>
              r.value * numBoidsTyped <= ThreadBudget < (r.value + 1) * numBoidsTyped
  {
    if numBoidsTyped == 0 then Throw(DivideByZero)
    else
      // C#'s integer division truncates toward zero; the numerator is positive.
      var quotient := if numBoidsTyped > 0 then ThreadBudget / numBoidsTyped
                      else -(ThreadBudget / -numBoidsTyped);
      Ok(if quotient > 1 then quotient else 1)
  }

  /**
   * C#'s unchecked int arithmetic: the 32-bit value congruent to `v` modulo
   * 2^32, which is `v` itself whenever `v` fits.
   */
  function Wrap32(v: int): (w: int)
    ensures -Int32Max - 1 <= w <= Int32Max
    ensures (v - w) % 0x1_0000_0000 == 0
    ensures -Int32Max - 1 <= v <= Int32Max ==> w == v
  {
    var m := v % 0x1_0000_0000;
    if m > Int32Max then m - 0x1_0000_0000 else m
  }

  /** The ring slot the frame counter selects. */
  function FrameSlot(counter: nat): (slot: nat)
    ensures slot < FrameWindow
    ensures (counter - slot) % FrameWindow == 0
  {
    counter % FrameWindow
  }

  // ---------------------------------------------------------------------
  // Packing the kernel's input
  // ---------------------------------------------------------------------

  /**
   * One record per boid, in list order: the boid's position and its rigid
   * body's velocity, with every accumulator zero.
   */
  method PackBoids(boids: seq<BoidObject>, positionOf: ObjectId -> Vec3, velocityOf: Rigidbody -> Vec3)
    returns (packed: array<BoidShader>)
    ensures packed.Length == |boids|
    ensures forall i :: 0 <= i < |boids| ==>
              packed[i] == BoidShader(positionOf(boids[i].id), velocityOf(RigidbodyOf(boids[i])), Zero, Zero, Zero, 0)
  {
    packed := new BoidShader[|boids|];
    for i := 0 to packed.Length
      invariant forall k :: 0 <= k < i ==>
                  packed[k] == BoidShader(positionOf(boids[k].id), velocityOf(RigidbodyOf(boids[k])), Zero, Zero, Zero, 0)
    {
      packed[i] := BoidShader(positionOf(boids[i].id), velocityOf(RigidbodyOf(boids[i])), Zero, Zero, Zero, 0);
    }
  }

  /**
   * The obstacle records as the loop evidently intends them: the 6 boundary
   * walls, not moving, then every obstacle in list order.
   */
  method PackObstacles(walls: seq<Vec3>, obstacles: seq<Obstacle>) returns (packed: array<ObstacleShader>)
    requires |walls| >= BoundaryCount
    ensures packed.Length == |obstacles| + BoundaryCount
    ensures forall i :: 0 <= i < BoundaryCount ==> packed[i] == ObstacleShader(walls[i], Zero)
    ensures forall k :: 0 <= k < |obstacles| ==>
              packed[BoundaryCount + k] == ObstacleShader(obstacles[k].pos, obstacles[k].vel)
  {
    packed := new ObstacleShader[|obstacles| + BoundaryCount];
    for i := 0 to BoundaryCount
      invariant forall k :: 0 <= k < i ==> packed[k] == ObstacleShader(walls[k], Zero)
    {
      packed[i] := ObstacleShader(walls[i], Zero);
    }
    for i := BoundaryCount to packed.Length
      invariant forall k :: 0 <= k < BoundaryCount ==> packed[k] == ObstacleShader(walls[k], Zero)
      invariant forall k :: 0 <= k < i - BoundaryCount ==>
                  packed[BoundaryCount + k] == ObstacleShader(obstacles[k].pos, obstacles[k].vel)
    {
      packed[i] := ObstacleShader(obstacles[i - BoundaryCount].pos, obstacles[i - BoundaryCount].vel);
    }
  }

  /**
   * The obstacle records as the loop is written: slot i reads obstacle i
   * rather than obstacle i - 6. Any non-empty obstacle list makes it read
   * past the end, at index max(6, count), and throw; slots 6 up to that
   * index hold obstacles 6 onwards, so the first six obstacles are skipped.
   */
  method PackObstaclesAsWritten(walls: seq<Vec3>, obstacles: seq<Obstacle>)
    returns (packed: array<ObstacleShader>, thrown: Option<Exception>)
    requires |walls| >= BoundaryCount
    ensures packed.Length == |obstacles| + BoundaryCount
    ensures forall i :: 0 <= i < BoundaryCount ==> packed[i] == ObstacleShader(walls[i], Zero)
    ensures thrown == if |obstacles| == 0 then None
                      else Some(ArgumentOutOfRange(if |obstacles| > BoundaryCount then |obstacles| else BoundaryCount))
    ensures forall i :: BoundaryCount <= i < |obstacles| ==> packed[i] == ObstacleShader(obstacles[i].pos, obstacles[i].vel)
  {
    packed := new ObstacleShader[|obstacles| + BoundaryCount];
    for i := 0 to BoundaryCount
      invariant forall k :: 0 <= k < i ==> packed[k] == ObstacleShader(walls[k], Zero)
    {
      packed[i] := ObstacleShader(walls[i], Zero);
    }
    for i := BoundaryCount to packed.Length
      invariant forall k :: 0 <= k < BoundaryCount ==> packed[k] == ObstacleShader(walls[k], Zero)
      invariant i <= |obstacles| || i == BoundaryCount
      invariant forall k :: BoundaryCount <= k < i ==> packed[k] == ObstacleShader(obstacles[k].pos, obstacles[k].vel)
    {
      if i >= |obstacles| {
        return packed, Some(ArgumentOutOfRange(i));
      }
      packed[i] := ObstacleShader(obstacles[i].pos, obstacles[i].vel);
    }
    thrown := None;
  }

  /** A non-empty obstacle list always makes the loop as written throw. */
  method ObstaclePackingThrows(walls: seq<Vec3>, obstacle: Obstacle) returns (thrown: Option<Exception>)
    requires |walls| >= BoundaryCount
    ensures thrown == Some(ArgumentOutOfRange(BoundaryCount))
  {
    var _, t := PackObstaclesAsWritten(walls, [obstacle]);
    thrown := t;
  }

  /** How many of `count` list entries deleting `k` from the tail removes before it runs out. */
  function Removed(k: int, count: nat): (n: nat)
    ensures n <= count
    ensures k <= 0 ==> n == 0
    ensures 0 <= k <= count ==> n == k
    ensures k > count ==> n == count
  {
    if k <= 0 then 0 else if k <= count then k else count
  }

  /** The identities of the boids from index `from` to the end. */
  function IdsFrom(boids: seq<BoidObject>, from: nat): set<ObjectId>
    requires from <= |boids|
  {
    set j | from <= j < |boids| :: boids[j].id
  }

  class BoidsController {
    var boids: seq<BoidObject>
    var boidBody: seq<Rigidbody>
    /** The GPU toggle's state. */
    var gpuToggleOn: bool
    /** The engine's next fresh object identity. */
    var nextId: ObjectId
    /** Identities of destroyed game objects. */
    var destroyed: set<ObjectId>
    var computeShaderBoids: array<BoidShader>
    var computeShaderObstacles: array<ObstacleShader>
    var frameTimes: array<real>
    var frameCounter: nat

    /**
     * The object invariant: the lists are parallel, boid i's body is its own
     * rigid body and its name is "Boid_i", every script runs exactly when
     * the GPU toggle is off, boids are live objects in creation order, every
     * destroyed object was created before the next fresh identity, and
     * the frame ring and counter are in range.
     */
    ghost predicate Valid()
      reads this, frameTimes
    {
      |boids| == |boidBody| &&
      (forall i :: 0 <= i < |boids| ==>
         boidBody[i] == RigidbodyOf(boids[i]) && boids[i].name == BoidName(i) &&
         boids[i].scriptEnabled == !gpuToggleOn && boids[i].id < nextId && boids[i].id !in destroyed) &&
      (forall i, j :: 0 <= i < j < |boids| ==> boids[i].id < boids[j].id) &&
      (forall d :: d in destroyed ==> d < nextId) &&
      frameTimes.Length == FrameWindow && frameCounter < UintMax
    }

    /** Empty lists, an empty frame ring, then the initial 25 boids. */
    constructor Awake(toggleOn: bool)
      ensures Valid() && fresh(frameTimes)
      ensures |boids| == InitialBoids && gpuToggleOn == toggleOn && destroyed == {}
      ensures frameTimes[..] == seq(FrameWindow, _ => 0.0) && frameCounter == 0
    {
      boids, boidBody := [], [];
      gpuToggleOn := toggleOn;
      nextId := 0;
      destroyed := {};
      computeShaderBoids := new BoidShader[0];
      computeShaderObstacles := new ObstacleShader[0];
      frameTimes := new real[FrameWindow](_ => 0.0);
      frameCounter := 0;
      new;
      SpawnBoids(InitialBoids);
    }

    /**
     * Records one frame's duration: the counter advances (it stays below
     * uint.MaxValue, so the increment never wraps), the duration goes to the
     * counter's ring slot, and the counter restarts at 0 on reaching
     * uint.MaxValue.
     */
    method Update(deltaTime: real)
      requires Valid()
      modifies this, frameTimes
      ensures Valid()
      ensures frameCounter == if old(frameCounter) + 1 == UintMax then 0 else old(frameCounter) + 1
      ensures frameTimes[..] == old(frameTimes[..])[FrameSlot(old(frameCounter) + 1) := deltaTime]
      ensures boids == old(boids) && boidBody == old(boidBody) && gpuToggleOn == old(gpuToggleOn)
      ensures nextId == old(nextId) && destroyed == old(destroyed) && frameTimes == old(frameTimes)
      ensures computeShaderBoids == old(computeShaderBoids) && computeShaderObstacles == old(computeShaderObstacles)
    {
      frameCounter := (frameCounter + 1) % (UintMax + 1);
      frameTimes[frameCounter % FrameWindow] := deltaTime;
      if frameCounter == UintMax {
        frameCounter := 0;
      }
    }

    /**
     * The GPU toggle changed to `isOn`: every boid's CPU script is switched
     * off when the GPU runs the flock, on otherwise.
     */
    method OnGPUToggleChange(isOn: bool)
      requires Valid()
      modifies this
      ensures Valid() && gpuToggleOn == isOn
      ensures |boids| == |old(boids)|
      ensures forall i :: 0 <= i < |boids| ==> boids[i] == old(boids[i]).(scriptEnabled := !isOn)
      ensures boidBody == old(boidBody) && nextId == old(nextId) && destroyed == old(destroyed)
      ensures frameCounter == old(frameCounter) && frameTimes == old(frameTimes)
      ensures computeShaderBoids == old(computeShaderBoids) && computeShaderObstacles == old(computeShaderObstacles)
    {
      gpuToggleOn := isOn;
      if gpuToggleOn {
        for i := 0 to |boids|
          invariant |boids| == |old(boids)|
          invariant forall k :: 0 <= k < i ==> boids[k] == old(boids[k]).(scriptEnabled := false)
          invariant forall k :: i <= k < |boids| ==> boids[k] == old(boids[k])
          invariant boidBody == old(boidBody) && nextId == old(nextId) && destroyed == old(destroyed)
          invariant frameCounter == old(frameCounter) && frameTimes == old(frameTimes) && gpuToggleOn == isOn
          invariant computeShaderBoids == old(computeShaderBoids) && computeShaderObstacles == old(computeShaderObstacles)
        {
          boids := boids[i := boids[i].(scriptEnabled := false)];
        }
      } else {
        for i := 0 to |boids|
          invariant |boids| == |old(boids)|
          invariant forall k :: 0 <= k < i ==> boids[k] == old(boids[k]).(scriptEnabled := true)
          invariant forall k :: i <= k < |boids| ==> boids[k] == old(boids[k])
          invariant boidBody == old(boidBody) && nextId == old(nextId) && destroyed == old(destroyed)
          invariant frameCounter == old(frameCounter) && frameTimes == old(frameTimes) && gpuToggleOn == isOn
          invariant computeShaderBoids == old(computeShaderBoids) && computeShaderObstacles == old(computeShaderObstacles)
        {
          boids := boids[i := boids[i].(scriptEnabled := true)];
        }
      }
    }

    /**
     * The number typed in was edited: shrink the lists from the tail or grow
     * them to that many boids, then repack the kernel input. The number to
     * delete is the unchecked int difference count - n. A negative n asks to
     * delete more boids than exist, which empties the lists and then throws
     * before anything is repacked, unless the difference overflows: then it
     * wraps negative, nothing is deleted and the kernel input is repacked.
     */
    method OnNumBoidsEdit(newNumBoids: int, walls: seq<Vec3>, obstacles: seq<Obstacle>,
                          positionOf: ObjectId -> Vec3, velocityOf: Rigidbody -> Vec3)
      returns (r: Result<()>)
      requires Valid() && |walls| >= BoundaryCount
      requires -Int32Max - 1 <= newNumBoids <= Int32Max && |boids| <= Int32Max
      modifies this
      ensures Valid()
      ensures gpuToggleOn == old(gpuToggleOn) && frameCounter == old(frameCounter) && frameTimes == old(frameTimes)
      ensures r.Ok? <==> newNumBoids >= 0 || |old(boids)| - newNumBoids > Int32Max
      ensures r.Throw? ==> r.error == ArgumentOutOfRange(-1) && boids == [] &&
                           computeShaderBoids == old(computeShaderBoids) && computeShaderObstacles == old(computeShaderObstacles)
      ensures r.Ok? && newNumBoids >= 0 ==> |boids| == newNumBoids
      ensures r.Ok? && 0 <= newNumBoids <= |old(boids)| ==> boids == old(boids)[..newNumBoids]
      ensures r.Ok? && newNumBoids < 0 ==> boids == old(boids) && boidBody == old(boidBody) && destroyed == old(destroyed)
      ensures r.Throw? || 0 <= newNumBoids <= |old(boids)| ==> destroyed == old(destroyed) + IdsFrom(old(boids), |boids|)
      ensures r.Ok? && newNumBoids >= |old(boids)| ==>
                destroyed == old(destroyed) && forall j :: |old(boids)| <= j < |boids| ==> boids[j].id >= old(nextId)
      ensures nextId >= old(nextId)
      ensures r.Ok? && newNumBoids >= |old(boids)| ==> boids[..|old(boids)|] == old(boids)
      ensures r.Ok? ==> computeShaderBoids.Length == |boids|
      ensures r.Ok? ==> forall i :: 0 <= i < |boids| ==>
                computeShaderBoids[i] == BoidShader(positionOf(boids[i].id), velocityOf(boidBody[i]), Zero, Zero, Zero, 0)
      ensures r.Ok? ==> computeShaderObstacles.Length == |obstacles| + BoundaryCount
      ensures r.Ok? ==> forall i :: 0 <= i < BoundaryCount ==> computeShaderObstacles[i] == ObstacleShader(walls[i], Zero)
      ensures r.Ok? ==> forall k :: 0 <= k < |obstacles| ==>
                computeShaderObstacles[BoundaryCount + k] == ObstacleShader(obstacles[k].pos, obstacles[k].vel)
    {
      if |boids| > newNumBoids {
        r := DeleteBoids(Wrap32(|boids| - newNumBoids));
        if r.Throw? {
          return;
        }
      } else {
        SpawnBoids(newNumBoids - |boids|);
      }
      UpdateComputeShaderStructs(walls, obstacles, positionOf, velocityOf);
      r := Ok(());
    }

    /**
     * Removes `numToDelete` boids from the tail of both lists, destroying
     * each; asking for more than there are removes them all and then throws
     * on indexing the empty list.
     */
    method DeleteBoids(numToDelete: int) returns (r: Result<()>)
      requires Valid()
      modifies this
      ensures Valid()
      ensures r.Ok? <==> numToDelete <= |old(boids)|
      ensures r.Throw? ==> r.error == ArgumentOutOfRange(-1)
      ensures boids == old(boids)[..|old(boids)| - Removed(numToDelete, |old(boids)|)]
      ensures boidBody == old(boidBody)[..|old(boids)| - Removed(numToDelete, |old(boids)|)]
      ensures destroyed == old(destroyed) + IdsFrom(old(boids), |boids|)
      ensures nextId == old(nextId) && gpuToggleOn == old(gpuToggleOn)
      ensures computeShaderBoids == old(computeShaderBoids) && computeShaderObstacles == old(computeShaderObstacles)
      ensures frameCounter == old(frameCounter) && frameTimes == old(frameTimes)
    {
      var i := 0;
      while i < numToDelete
        invariant 0 <= i <= |old(boids)| && (i <= numToDelete || i == 0)
        invariant Valid()
        invariant boids == old(boids)[..|old(boids)| - i] && boidBody == old(boidBody)[..|old(boids)| - i]
        invariant destroyed == old(destroyed) + IdsFrom(old(boids), |boids|)
        invariant nextId == old(nextId) && gpuToggleOn == old(gpuToggleOn)
        invariant computeShaderBoids == old(computeShaderBoids) && computeShaderObstacles == old(computeShaderObstacles)
        invariant frameCounter == old(frameCounter) && frameTimes == old(frameTimes)
      {
        if |boids| == 0 {
          return Throw(ArgumentOutOfRange(-1));
        }
        RemoveLast();
        i := i + 1;
      }
      r := Ok(());
    }

    /** One delete step: the last boid leaves both lists and is destroyed. */
    method RemoveLast()
      requires Valid() && |boids| > 0
      modifies this
      ensures Valid()
      ensures boids == old(boids)[..|old(boids)| - 1] && boidBody == old(boidBody)[..|old(boids)| - 1]
      ensures destroyed == old(destroyed) + {old(boids)[|old(boids)| - 1].id}
      ensures nextId == old(nextId) && gpuToggleOn == old(gpuToggleOn)
      ensures computeShaderBoids == old(computeShaderBoids) && computeShaderObstacles == old(computeShaderObstacles)
      ensures frameCounter == old(frameCounter) && frameTimes == old(frameTimes)
    {
      var boidToRemove := boids[|boids| - 1];
      boids := boids[..|boids| - 1];
      boidBody := boidBody[..|boidBody| - 1];
      destroyed := destroyed + {boidToRemove.id};
    }

    /**
     * Appends `numToSpawn` new boids (none when it is not positive) to both
     * lists: each a fresh object named after the index it is added at, with
     * its CPU script off exactly when the GPU toggle is on.
     */
    method SpawnBoids(numToSpawn: int)
      requires Valid()
      modifies this
      ensures Valid()
      ensures |boids| == |old(boids)| + (if numToSpawn > 0 then numToSpawn else 0)
      ensures boids[..|old(boids)|] == old(boids) && boidBody[..|old(boids)|] == old(boidBody)
      ensures forall j :: |old(boids)| <= j < |boids| ==>
                boids[j].name == BoidName(j) && boids[j].scriptEnabled == !gpuToggleOn && boids[j].id >= old(nextId)
      ensures gpuToggleOn == old(gpuToggleOn) && destroyed == old(destroyed) && nextId >= old(nextId)
      ensures computeShaderBoids == old(computeShaderBoids) && computeShaderObstacles == old(computeShaderObstacles)
      ensures frameCounter == old(frameCounter) && frameTimes == old(frameTimes)
    {
      var i := 0;
      while i < numToSpawn
        invariant 0 <= i && (i <= numToSpawn || i == 0)
        invariant Valid()
        invariant |boids| == |old(boids)| + i && nextId >= old(nextId)
        invariant boids[..|old(boids)|] == old(boids) && boidBody[..|old(boids)|] == old(boidBody)
        invariant forall j :: |old(boids)| <= j < |boids| ==> boids[j].id >= old(nextId)
        invariant gpuToggleOn == old(gpuToggleOn) && destroyed == old(destroyed)
        invariant computeShaderBoids == old(computeShaderBoids) && computeShaderObstacles == old(computeShaderObstacles)
        invariant frameCounter == old(frameCounter) && frameTimes == old(frameTimes)
      {
        SpawnOne();
        i := i + 1;
      }
    }

    /**
     * One spawn step: a fresh object, named after the index it is added at,
     * appended to both lists with its CPU script off exactly when the GPU
     * toggle is on.
     */
    method SpawnOne()
      requires Valid()
      modifies this
      ensures Valid()
      ensures |boids| == |old(boids)| + 1 && nextId == old(nextId) + 1
      ensures boids[..|old(boids)|] == old(boids) && boidBody[..|old(boids)|] == old(boidBody)
      ensures boids[|old(boids)|] == BoidObject(old(nextId), BoidName(|old(boids)|), !gpuToggleOn)
      ensures gpuToggleOn == old(gpuToggleOn) && destroyed == old(destroyed)
      ensures computeShaderBoids == old(computeShaderBoids) && computeShaderObstacles == old(computeShaderObstacles)
      ensures frameCounter == old(frameCounter) && frameTimes == old(frameTimes)
    {
      // A new object, its Boid script enabled as a fresh component is.
      var thisBoid := BoidObject(nextId, "", true);
      nextId := nextId + 1;
      thisBoid := thisBoid.(name := BoidName(|boids|));
      if gpuToggleOn {
        thisBoid := thisBoid.(scriptEnabled := false);
      }
      boids := boids + [thisBoid];
      boidBody := boidBody + [RigidbodyOf(thisBoid)];
      assert forall i :: 0 <= i < |boids| - 1 ==> boids[i] == old(boids)[i] && boidBody[i] == old(boidBody)[i];
    }

    /**
     * Rebuilds the kernel's input: one record per boid with zeroed
     * accumulators, then the six walls followed by the obstacles.
     */
    method UpdateComputeShaderStructs(walls: seq<Vec3>, obstacles: seq<Obstacle>,
                                      positionOf: ObjectId -> Vec3, velocityOf: Rigidbody -> Vec3)
      requires Valid() && |walls| >= BoundaryCount
      modifies this
      ensures Valid()
      ensures computeShaderBoids.Length == |boids|
      ensures forall i :: 0 <= i < |boids| ==>
                computeShaderBoids[i] == BoidShader(positionOf(boids[i].id), velocityOf(boidBody[i]), Zero, Zero, Zero, 0)
      ensures computeShaderObstacles.Length == |obstacles| + BoundaryCount
      ensures forall i :: 0 <= i < BoundaryCount ==> computeShaderObstacles[i] == ObstacleShader(walls[i], Zero)
      ensures forall k :: 0 <= k < |obstacles| ==>
                computeShaderObstacles[BoundaryCount + k] == ObstacleShader(obstacles[k].pos, obstacles[k].vel)
      ensures boids == old(boids) && boidBody == old(boidBody) && gpuToggleOn == old(gpuToggleOn)
      ensures nextId == old(nextId) && destroyed == old(destroyed)
      ensures frameCounter == old(frameCounter) && frameTimes == old(frameTimes)
    {
      computeShaderBoids := PackBoids(boids, positionOf, velocityOf);
      computeShaderObstacles := PackObstacles(walls, obstacles);
    }
  }
}
