/** WorldLoader.cs: decides, around the player's chunk, which chunks to
    queue for unloading and which to load, and triggers the periodic save.
    The threads it starts are recorded as jobs; what a job does is modelled
    by the World operation it runs. */
module WorldLoaders {
  import opened Vectors
  import opened Chunks
  import opened WorldCoords
  import opened CubeScan
  import opened Worlds

  /** A thread or task started by the loader: checkChunkLoading for a player
      chunk, saveAll, or loadAll (getChunks, then spawning) for coordinates. */
  datatype Job = Check(playerChunk: Coord) | Save | LoadAll(coords: seq<Coord>)

  const DEFAULT_LOAD_DIST: int := 5
  const DEFAULT_UNLOAD_DIST: int := 7
  const DEFAULT_SAVE_INTERVAL: real := 10.0

  /** The unload test: squared chunk distance from the player at least
      unloadDist squared. */
  predicate TooFar(k: Coord, player: Coord, unloadDist: int) {
    SqrMagnitude(Minus(k, player)) >= unloadDist * unloadDist
  }

  /** The load test for a scanned position c: in bounds, squared distance
      from the player at most loadDist squared, and not resident. */
  function LoadTest(infinite: bool, radius: Coord, player: Coord, loadDist: int, resident: set<Coord>): Coord -> bool {
    c => InBounds(infinite, radius, c) && SqrMagnitude(Minus(c, player)) <= loadDist * loadDist && c !in resident
  }

  /** The coordinates checkChunkLoading queues for loading, in scan order. */
  function LoadList(infinite: bool, radius: Coord, player: Coord, loadDist: int, resident: set<Coord>): seq<Coord> {
    Scan(player, loadDist, LoadTest(infinite, radius, player, loadDist, resident))
  }

  /** Load soundness and completeness: a coordinate is queued for loading
      exactly when it is in bounds, within loadDist of the player (by
      squared distance) and not resident; a negative loadDist loads
      nothing. */
  lemma LoadListMembers(infinite: bool, radius: Coord, player: Coord, loadDist: int, resident: set<Coord>, c: Coord)
    ensures c in LoadList(infinite, radius, player, loadDist, resident) <==>
              loadDist >= 0 && InBounds(infinite, radius, c) &&
              SqrMagnitude(Minus(c, player)) <= loadDist * loadDist && c !in resident
  {
    var sel := LoadTest(infinite, radius, player, loadDist, resident);
    ScanMembers(player, loadDist, sel, c);
    var o := Minus(c, player);
    if loadDist >= 0 && SqrMagnitude(o) <= loadDist * loadDist {
      AxisBounds(o, loadDist);
    }
  }

  /** The load list is in scan order (x, then y, then z) and so has no
      duplicates. */
  lemma LoadListOrdered(infinite: bool, radius: Coord, player: Coord, loadDist: int, resident: set<Coord>)
    ensures StrictlySorted(LoadList(infinite, radius, player, loadDist, resident))
    ensures var l := LoadList(infinite, radius, player, loadDist, resident);
            forall i, j :: 0 <= i < j < |l| ==> l[i] != l[j]
  {
    ScanOrdered(player, loadDist, LoadTest(infinite, radius, player, loadDist, resident));
  }

  /** With loadDist below unloadDist, nothing the scan loads is far enough
      to be unloaded by the same check. */
  lemma LoadUnloadGap(infinite: bool, radius: Coord, player: Coord, loadDist: int, unloadDist: int,
                      resident: set<Coord>, c: Coord)
    requires 0 <= loadDist < unloadDist
    requires c in LoadList(infinite, radius, player, loadDist, resident)
    ensures !TooFar(c, player, unloadDist)
  {
    LoadListMembers(infinite, radius, player, loadDist, resident, c);
    SquareGrows(loadDist, unloadDist);
  }

  /** Hysteresis: when loadDist + 1 < unloadDist, a chunk within loadDist of
      the player's chunk is not unloaded after the player moves into a
      neighbouring chunk. */
  lemma StaysAfterStep(k: Coord, player: Coord, next: Coord, loadDist: int, unloadDist: int)
    requires 0 <= loadDist && loadDist + 1 < unloadDist
    requires SqrMagnitude(Minus(k, player)) <= loadDist * loadDist
    requires next in FaceNeighbors(player)
    ensures !TooFar(k, next, unloadDist)
  {
    var o := Minus(k, player);
    var d := Minus(next, player);
    AxisBounds(o, loadDist);
    FaceStep(player, next);
    assert Minus(k, next) == Minus(o, d);
    StepBound(o, d, loadDist);
    SquareSucc(loadDist);
    SquareGrows(loadDist + 1, unloadDist);
  }

  /** An offset within squared distance n * n lies in the cube of radius n. */
  lemma AxisBounds(o: Coord, n: int)
    requires 0 <= n && SqrMagnitude(o) <= n * n
    ensures -n <= o.x <= n && -n <= o.y <= n && -n <= o.z <= n
  {
    assert o.x * o.x >= 0 && o.y * o.y >= 0 && o.z * o.z >= 0;
    SquareBelow(o.x, n);
    SquareBelow(o.y, n);
    SquareBelow(o.z, n);
  }

  /** A face neighbour differs by one on exactly one axis. */
  lemma FaceStep(p: Coord, q: Coord)
    requires q in FaceNeighbors(p)
    ensures var d := Minus(q, p);
            -1 <= d.x <= 1 && -1 <= d.y <= 1 && -1 <= d.z <= 1 &&
            ((d.x == 0 && d.y == 0) || (d.x == 0 && d.z == 0) || (d.y == 0 && d.z == 0))
  {
  }

  lemma SquareSucc(n: int)
    ensures (n + 1) * (n + 1) == n * n + 2 * n + 1
  {
  }

  /** A face step from an offset inside the cube of radius n adds at most
      2n + 1 to its squared length. */
  lemma StepBound(o: Coord, d: Coord, n: int)
    requires -n <= o.x <= n && -n <= o.y <= n && -n <= o.z <= n
    requires -1 <= d.x <= 1 && -1 <= d.y <= 1 && -1 <= d.z <= 1
    requires (d.x == 0 && d.y == 0) || (d.x == 0 && d.z == 0) || (d.y == 0 && d.z == 0)
    ensures SqrMagnitude(Minus(o, d)) <= SqrMagnitude(o) + 2 * n + 1
  {
    AxisStep(o.x, d.x, n);
    AxisStep(o.y, d.y, n);
    AxisStep(o.z, d.z, n);
  }

  /** Squares grow with the non-negative root. */
  lemma SquareGrows(a: int, b: int)
    requires 0 <= a < b
    ensures a * a < b * b
  {
    assert a * a <= a * b < b * b;
  }

  /** One axis of a face step: an offset within [-n, n] moved by at most one
      grows in square by at most 2n + 1, and only on a moved axis. */
  lemma AxisStep(a: int, s: int, n: int)
    requires -n <= a <= n && -1 <= s <= 1
    ensures s == 0 ==> (a - s) * (a - s) == a * a
    ensures s != 0 ==> (a - s) * (a - s) <= a * a + 2 * n + 1
  {
    if s == 1 {
      assert (a - 1) * (a - 1) == a * a - 2 * a + 1;
    } else if s == -1 {
      assert (a + 1) * (a + 1) == a * a + 2 * a + 1;
    }
  }

  /** Whether an Update with frame time deltaTime starts a save. */
  predicate SaveDue(saveTimer: real, deltaTime: real, saveInterval: real) {
    saveTimer + deltaTime > saveInterval
  }

  class WorldLoader {
    const world: World
    var loadDist: int
    var unloadDist: int
    var toLoad: int
    var saveInterval: real
    var loadBuffer: seq<Coord>
    var unloadBuffer: seq<Chunk>
    var oldPlayerCoords: Coord
    var saveTimer: real
    /** The threads and tasks started so far, in order. */
    var started: seq<Job>

    /** The field initialisers, then Start(): empty buffers, the player's
        chunk remembered, and a first check started for it. */
    constructor (world: World, playerChunk: Coord)
      ensures this.world == world
      ensures loadDist == DEFAULT_LOAD_DIST && unloadDist == DEFAULT_UNLOAD_DIST
      ensures saveInterval == DEFAULT_SAVE_INTERVAL && saveTimer == 0.0 && toLoad == 0
      ensures loadBuffer == [] && unloadBuffer == []
      ensures oldPlayerCoords == playerChunk
      ensures started == [Check(playerChunk)]
    {
      this.world := world;
      loadDist := DEFAULT_LOAD_DIST;
      unloadDist := DEFAULT_UNLOAD_DIST;
      toLoad := 0;
      saveInterval := DEFAULT_SAVE_INTERVAL;
      saveTimer := 0.0;
      loadBuffer := [];
      unloadBuffer := [];
      oldPlayerCoords := playerChunk;
      started := [Check(playerChunk)];
    }

    /** Update: a check is started exactly when the player's chunk differs
        from the one of the previous frame; the save timer advances by the
        frame time and, once past saveInterval, a save is started and the
        timer reset. */
    method Update(playerChunk: Coord, deltaTime: real)
      modifies this`oldPlayerCoords, this`saveTimer, this`started
      ensures oldPlayerCoords == playerChunk
      ensures started == old(started) + (if playerChunk != old(oldPlayerCoords) then [Check(playerChunk)] else []) +
                         (if SaveDue(old(saveTimer), deltaTime, saveInterval) then [Save] else [])
      ensures saveTimer == if SaveDue(old(saveTimer), deltaTime, saveInterval) then 0.0 else old(saveTimer) + deltaTime
    {
      if playerChunk != oldPlayerCoords {
        CheckOnThread(playerChunk);
      }
      oldPlayerCoords := playerChunk;
      saveTimer := saveTimer + deltaTime;
      if saveTimer > saveInterval {
        SaveOnThread();
      }
    }

    /** saveOnThread: resets the timer and starts a save. */
    method SaveOnThread()
      modifies this`saveTimer, this`started
      ensures saveTimer == 0.0 && started == old(started) + [Save]
    {
      saveTimer := 0.0;
      started := started + [Save];
    }

    /** checkOnThread: starts a check for the player's chunk. */
    method CheckOnThread(playerChunk: Coord)
      modifies this`started
      ensures started == old(started) + [Check(playerChunk)]
    {
      started := started + [Check(playerChunk)];
    }

    /** OnApplicationQuit: saves every resident chunk. */
    method OnApplicationQuit()
      requires world.Valid()
      modifies world`disk
      ensures world.disk == old(world.disk) + world.View()
    {
      world.SaveAll();
    }

    /** checkChunkLoading for the player's chunk: every resident chunk too far
        away is queued for unloading, once; the coordinates to load are
        collected in scan order; toLoad is their count, and a load task is
        started for them. */
    method CheckChunkLoading(player: Coord)
      requires world.Valid()
      modifies this`unloadBuffer, this`loadBuffer, this`toLoad, this`started, world`unloadChunkBuffer
      ensures forall c :: c in unloadBuffer <==>
                c in world.loadedChunks.Values && TooFar(c.chunkCoords, player, unloadDist)
      ensures forall i, j :: 0 <= i < j < |unloadBuffer| ==> unloadBuffer[i] != unloadBuffer[j]
      ensures world.unloadChunkBuffer == old(world.unloadChunkBuffer) + multiset(unloadBuffer)
      ensures loadBuffer == LoadList(world.infinite, world.worldRadius, player, loadDist, world.loadedChunks.Keys)
      ensures toLoad == |loadBuffer|
      ensures started == old(started) + [LoadAll(loadBuffer)]
    {
      SelectUnloads(player);
      QueueUnloads();
      ScanLoads(player);
      toLoad := |loadBuffer|;
      started := started + [LoadAll(loadBuffer)];
    }

    /** The first loop of checkChunkLoading: the resident chunks at least
        unloadDist away, each once (the dictionary's order is not modelled). */
    method SelectUnloads(player: Coord)
      requires world.Valid()
      modifies this`unloadBuffer
      ensures forall c :: c in unloadBuffer <==>
                c in world.loadedChunks.Values && TooFar(c.chunkCoords, player, unloadDist)
      ensures forall i, j :: 0 <= i < j < |unloadBuffer| ==> unloadBuffer[i] != unloadBuffer[j]
    {
      unloadBuffer := [];
      var rest := world.loadedChunks.Keys;
      while rest != {}
        invariant rest <= world.loadedChunks.Keys
        invariant forall c :: c in unloadBuffer ==>
                    c in world.loadedChunks.Values && c.chunkCoords !in rest && TooFar(c.chunkCoords, player, unloadDist)
        invariant forall k :: k in world.loadedChunks && k !in rest && TooFar(k, player, unloadDist) ==>
                    world.loadedChunks[k] in unloadBuffer
        invariant forall i, j :: 0 <= i < j < |unloadBuffer| ==> unloadBuffer[i] != unloadBuffer[j]
        decreases rest
      {
        var k :| k in rest;
        var chunk := world.loadedChunks[k];
        if TooFar(chunk.chunkCoords, player, unloadDist) {
          unloadBuffer := unloadBuffer + [chunk];
        }
        rest := rest - {k};
      }
      forall c | c in world.loadedChunks.Values && TooFar(c.chunkCoords, player, unloadDist)
        ensures c in unloadBuffer
      {
        var k :| k in world.loadedChunks && world.loadedChunks[k] == c;
      }
    }

    /** The second loop: each selected chunk is pushed onto the world's
        unload queue. */
    method QueueUnloads()
      modifies world`unloadChunkBuffer
      ensures world.unloadChunkBuffer == old(world.unloadChunkBuffer) + multiset(unloadBuffer)
    {
      var i := 0;
      while i < |unloadBuffer|
        invariant 0 <= i <= |unloadBuffer|
        invariant world.unloadChunkBuffer == old(world.unloadChunkBuffer) + multiset(unloadBuffer[..i])
      {
        world.PushUnload(unloadBuffer[i]);
        assert unloadBuffer[..i + 1] == unloadBuffer[..i] + [unloadBuffer[i]];
        i := i + 1;
      }
      assert unloadBuffer[..i] == unloadBuffer;
    }

    /** The load test of this check, over the resident set as it stands. */
    ghost function Selection(player: Coord): Coord -> bool
      reads this`loadDist, world`loadedChunks
    {
      LoadTest(world.infinite, world.worldRadius, player, loadDist, world.loadedChunks.Keys)
    }

    /** The triple loop: offsets x, then y, then z in [-loadDist, loadDist];
        a position is kept when it passes the load test. */
    method ScanLoads(player: Coord)
      modifies this`loadBuffer
      ensures loadBuffer == LoadList(world.infinite, world.worldRadius, player, loadDist, world.loadedChunks.Keys)
    {
      loadBuffer := [];
      var x := -loadDist;
      while x <= loadDist
        invariant -loadDist <= x && (x <= loadDist + 1 || x == -loadDist)
        invariant loadBuffer == Cube(player, loadDist, Selection(player), x)
      {
        ScanPlane(player, x);
        x := x + 1;
      }
    }

    /** The y and z loops for one x offset. */
    method ScanPlane(player: Coord, x: int)
      modifies this`loadBuffer
      ensures loadBuffer == old(loadBuffer) + Plane(player, loadDist, Selection(player), x, loadDist + 1)
    {
      ghost var b0 := loadBuffer;
      var y := -loadDist;
      while y <= loadDist
        invariant -loadDist <= y && (y <= loadDist + 1 || y == -loadDist)
        invariant loadBuffer == b0 + Plane(player, loadDist, Selection(player), x, y)
      {
        ScanRow(player, x, y);
        AppendAssoc(b0, Plane(player, loadDist, Selection(player), x, y), Row(player, loadDist, Selection(player), x, y, loadDist + 1));
        y := y + 1;
      }
    }

    /** The z loop for one (x, y) offset. */
    method ScanRow(player: Coord, x: int, y: int)
      modifies this`loadBuffer
      ensures loadBuffer == old(loadBuffer) + Row(player, loadDist, Selection(player), x, y, loadDist + 1)
    {
      ghost var b0 := loadBuffer;
      var z := -loadDist;
      while z <= loadDist
        invariant -loadDist <= z && (z <= loadDist + 1 || z == -loadDist)
        invariant loadBuffer == b0 + Row(player, loadDist, Selection(player), x, y, z)
      {
        var coords := Plus(player, Coord(x, y, z));
        var sqrDist := x * x + y * y + z * z;
        assert Minus(coords, player) == Coord(x, y, z);
        if world.ChunkInBounds(coords) && sqrDist <= loadDist * loadDist && coords !in world.loadedChunks {
          AppendAssoc(b0, Row(player, loadDist, Selection(player), x, y, z), [coords]);
          loadBuffer := loadBuffer + [coords];
        }
        z := z + 1;
      }
    }
  }
}
