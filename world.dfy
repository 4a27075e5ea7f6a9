/** The chunk store (World.cs): the map from chunk coordinate to resident
    chunk, the block-level API over it, persistence of whole chunks, the
    eviction queue and the voxel part of explosions.

    Persistence (ChunkSerializer) is the map `disk` from chunk coordinate to
    the image last written there.  The eviction queue (ChunkBuffer) is the
    multiset `unloadChunkBuffer`: its push/pop order is not part of the model,
    so a pop may take any queued chunk.  Calls out of the store whose effects
    are not modelled (BlockData.onBlockUpdate, BlockData.interact,
    GameObject.SetActive) are appended to `events`. */
module Worlds {
  import opened Wrappers
  import opened Vectors
  import opened BlockDatas
  import opened Chunks
  import opened WorldCoords
  import opened CubeScan

  /** A call the store makes into code outside the model. */
  datatype Event =
    | BlockUpdate(block: BlockData, at: Coord)   // block.onBlockUpdate(at, world)
    | Interact(block: BlockData, at: Coord)      // block.interact(at, world)
    | Deactivate(handle: ObjectId)               // chunk.gameObject.SetActive(false)

  /** The block type at world position p in a value view of the resident
      chunks: the border sentinel where no chunk is resident, `empty` in a
      chunk without a block array, the stored type otherwise. */
  function TypeIn(view: map<Coord, Image>, p: Coord): BlockType
  {
    var k := FloorChunk(p);
    if k !in view then ChunkBorder
    else match view[k]
      case None => Empty
      case Some(g) => Cell(g, FloorLocal(p))
  }

  /** The image a write into chunk k starts from: the resident chunk, else
      the saved one, else a new chunk. */
  function BaseImage(view: map<Coord, Image>, disk: map<Coord, Image>, k: Coord): Image {
    if k in view then view[k] else if k in disk then disk[k] else None
  }

  function WrittenImage(view: map<Coord, Image>, disk: map<Coord, Image>, k: Coord, b: Coord, t: BlockType): Image
    requires InChunk(b)
  {
    Written(BaseImage(view, disk, k), b, t)
  }

  /** The type at p in the chunk a write would start from. */
  function BaseTypeAt(view: map<Coord, Image>, disk: map<Coord, Image>, p: Coord): BlockType
  {
    match BaseImage(view, disk, FloorChunk(p))
    case None => Empty
    case Some(g) => Cell(g, FloorLocal(p))
  }

  /** Reading a position right after writing it gives what was written. */
  lemma ReadAfterWrite(view: map<Coord, Image>, disk: map<Coord, Image>, p: Coord, t: BlockType)
    ensures var k := FloorChunk(p);
            var view' := view[k := WrittenImage(view, disk, k, FloorLocal(p), t)];
            TypeIn(view', p) == t
  {
  }

  /** A write at chunk k, cell b changes the answer at no other position of a
      resident chunk or of another chunk. */
  lemma WriteKeepsOthers(view: map<Coord, Image>, disk: map<Coord, Image>, k: Coord, b: Coord, t: BlockType, q: Coord)
    requires InChunk(b)
    requires q != Plus(Times(CHUNK_SIZE, k), b)
    requires FloorChunk(q) == k ==> k in view
    ensures var view' := view[k := WrittenImage(view, disk, k, b, t)];
            TypeIn(view', q) == TypeIn(view, q)
  {
    SplitWorldIsFloor(q);
  }

  /** The onBlockUpdate calls updateNeighborBlocks(p) makes, in order
      (+x, -x, +y, -y, +z, -z), each on the block data of the type there. */
  function NeighborEvents(view: map<Coord, Image>, blockTypes: BlockType -> BlockData, p: Coord): seq<Event>
  {
    var n := FaceNeighbors(p);
    [BlockUpdate(blockTypes(TypeIn(view, n[0])), n[0]), BlockUpdate(blockTypes(TypeIn(view, n[1])), n[1]),
     BlockUpdate(blockTypes(TypeIn(view, n[2])), n[2]), BlockUpdate(blockTypes(TypeIn(view, n[3])), n[3]),
     BlockUpdate(blockTypes(TypeIn(view, n[4])), n[4]), BlockUpdate(blockTypes(TypeIn(view, n[5])), n[5])]
  }

  /** The onBlockUpdate calls setBlock makes with updateNeighbors after
      writing t at p: on the written block, then on its six neighbours. */
  function UpdateEvents(view: map<Coord, Image>, blockTypes: BlockType -> BlockData, t: BlockType, p: Coord): seq<Event>
  {
    [BlockUpdate(blockTypes(t), p)] + NeighborEvents(view, blockTypes, p)
  }

  /** chunkInBounds: always true for an infinite world, otherwise the open
      box -radius < c < radius on every axis. */
  function InBounds(infinite: bool, radius: Coord, c: Coord): (b: bool)
    ensures b <==> infinite || (Abs(c.x) < radius.x && Abs(c.y) < radius.y && Abs(c.z) < radius.z)
    ensures b && !infinite ==> 0 < radius.x && 0 < radius.y && 0 < radius.z
  {
    infinite ||
    ((-radius.x < c.x && c.x < radius.x) &&
     (-radius.y < c.y && c.y < radius.y) &&
     (-radius.z < c.z && c.z < radius.z))
  }

  /** An infinite world accepts every chunk; a bounded one of the
      constructor's radius (3, 3, 3) accepts exactly the chunks with every
      coordinate in [-2, 2]. */
  lemma InBoundsBox(c: Coord)
    ensures InBounds(true, Coord(3, 3, 3), c)
    ensures InBounds(false, Coord(3, 3, 3), c) <==> InCube(c, 2)
  {
  }

  /** Mathf.CeilToInt. */
  function Ceil(s: real): int {
    -((-s).Floor)
  }

  /** The voxel test of createExplosion: squared offset below strength squared. */
  predicate InBall(origin: Coord, strength: real, c: Coord) {
    (SqrMagnitude(Minus(c, origin)) as real) < strength * strength
  }

  /** The positions createExplosion clears: offsets in the cube of radius
      ceil(strength) that pass the voxel test. */
  predicate InBlast(origin: Coord, strength: real, c: Coord) {
    InCube(Minus(c, origin), Ceil(strength)) && InBall(origin, strength, c)
  }

  /** For a non-negative strength, the cube of radius ceil(strength) covers
      the whole open ball, so the explosion clears exactly the positions at
      squared distance below strength squared. */
  lemma ExplosionClearsBall(origin: Coord, strength: real, c: Coord)
    requires strength >= 0.0
    ensures InBlast(origin, strength, c) <==> InBall(origin, strength, c)
  {
    var o := Minus(c, origin);
    if InBall(origin, strength, c) {
      assert o.x * o.x >= 0 && o.y * o.y >= 0 && o.z * o.z >= 0;
      CeilCovers(o.x, strength);
      CeilCovers(o.y, strength);
      CeilCovers(o.z, strength);
    }
  }

  /** One axis of the ball: a square below s * s puts the base within ceil(s). */
  lemma CeilCovers(a: int, s: real)
    requires s >= 0.0
    requires ((a * a) as real) < s * s
    ensures -Ceil(s) <= a <= Ceil(s)
  {
    var n := Ceil(s);
    assert (n as real) >= s;
  }

  /** An explosion: its origin, its strength and the radius ceil(strength)
      of the cube its loop scans. */
  datatype Blast = Blast(origin: Coord, strength: real, size: int)

  /** Offset o lies in the scanned cube and comes before offset `at` in the
      order of the explosion loop (x outermost, then y, then z). */
  predicate Swept(o: Coord, size: int, at: Coord) {
    InCube(o, size) && (o.x < at.x || (o.x == at.x && (o.y < at.y || (o.y == at.y && o.z < at.z))))
  }

  /** Position c has been cleared once the loop reaches offset `at`. */
  predicate Cleared(bl: Blast, at: Coord, c: Coord) {
    Swept(Minus(c, bl.origin), bl.size, at) && InBall(bl.origin, bl.strength, c)
  }

  /** The loop offset after `at` within a row. */
  function Next(at: Coord): Coord {
    Coord(at.x, at.y, at.z + 1)
  }

  /** Every chunk resident before is still resident. */
  ghost predicate KeptResident(v0: map<Coord, Image>, v: map<Coord, Image>) {
    forall k :: k in v0 ==> k in v
  }

  /** A chunk made resident is in bounds and holds a cleared position. */
  ghost predicate NewChunksCleared(v0: map<Coord, Image>, v: map<Coord, Image>, bl: Blast, at: Coord,
                                   infinite: bool, radius: Coord) {
    forall k :: k in v && k !in v0 ==>
      InBounds(infinite, radius, k) && exists c :: FloorChunk(c) == k && Cleared(bl, at, c)
  }

  /** Each cleared position in an in-bounds chunk is `empty`. */
  ghost predicate ClearedEmpty(v: map<Coord, Image>, bl: Blast, at: Coord, infinite: bool, radius: Coord) {
    forall c :: Cleared(bl, at, c) && InBounds(infinite, radius, FloorChunk(c)) ==> TypeIn(v, c) == Empty
  }

  /** Every other position of a resident chunk holds what the chunk started
      from (resident in v0, else saved, else new). */
  ghost predicate RestAsBefore(v0: map<Coord, Image>, disk: map<Coord, Image>, v: map<Coord, Image>,
                               bl: Blast, at: Coord) {
    forall c :: !Cleared(bl, at, c) && FloorChunk(c) in v ==> TypeIn(v, c) == BaseTypeAt(v0, disk, c)
  }

  /** The resident chunks v once the explosion loop has reached offset `at`,
      starting from v0 over persistence disk. */
  ghost predicate Blasted(v0: map<Coord, Image>, disk: map<Coord, Image>, v: map<Coord, Image>,
                          bl: Blast, at: Coord, infinite: bool, radius: Coord)
  {
    && KeptResident(v0, v)
    && NewChunksCleared(v0, v, bl, at, infinite, radius)
    && ClearedEmpty(v, bl, at, infinite, radius)
    && RestAsBefore(v0, disk, v, bl, at)
  }

  /** Nothing is cleared before the loop starts. */
  lemma BlastedStart(v0: map<Coord, Image>, disk: map<Coord, Image>, bl: Blast, infinite: bool, radius: Coord)
    ensures Blasted(v0, disk, v0, bl, Coord(-bl.size, -bl.size, -bl.size), infinite, radius)
  {
  }

  /** What a write of t at chunk k, cell b does to the type at c: c itself
      now holds t; the other cells of a chunk that was not resident hold what
      the write started from; everything else is unchanged. */
  lemma WriteEffect(v: map<Coord, Image>, disk: map<Coord, Image>, k: Coord, b: Coord, t: BlockType, c: Coord)
    requires InChunk(b)
    ensures var v' := v[k := WrittenImage(v, disk, k, b, t)];
            TypeIn(v', c) == if c == Plus(Times(CHUNK_SIZE, k), b) then t
                             else if FloorChunk(c) == k && k !in v then BaseTypeAt(v, disk, c)
                             else TypeIn(v, c)
  {
    SplitWorldIsFloor(c);
    if c == Plus(Times(CHUNK_SIZE, k), b) {
      SplitJoin(k, b);
    }
  }

  /** The position the loop visits at offset `at`. */
  function BlastPos(bl: Blast, at: Coord): Coord {
    Plus(at, bl.origin)
  }

  /** Whether the iteration at `at` writes: the voxel test passes and the
      chunk is in bounds (setBlockAndMesh registers nothing otherwise). */
  predicate StepWrites(bl: Blast, at: Coord, infinite: bool, radius: Coord) {
    InBall(bl.origin, bl.strength, BlastPos(bl, at)) && InBounds(infinite, radius, FloorChunk(BlastPos(bl, at)))
  }

  /** The resident chunks v after setBlockAndMesh writes t at p: the write
      lands when p's chunk is in bounds. */
  function WriteView(v: map<Coord, Image>, disk: map<Coord, Image>, p: Coord, t: BlockType,
                     infinite: bool, radius: Coord): map<Coord, Image> {
    var k := FloorChunk(p);
    if InBounds(infinite, radius, k) then v[k := WrittenImage(v, disk, k, FloorLocal(p), t)] else v
  }

  /** The onBlockUpdate calls setBlockAndMesh makes writing t at p over the
      resident chunks v: with updateNeighbors, and when getChunk finds the
      chunk (setBlock's update branch), on the written block and its six
      neighbours as they read after the write. */
  function WriteEvents(blockTypes: BlockType -> BlockData, v: map<Coord, Image>, disk: map<Coord, Image>,
                       p: Coord, t: BlockType, updateNeighbors: bool, infinite: bool, radius: Coord): seq<Event>
  {
    var k := FloorChunk(p);
    if updateNeighbors && InBounds(infinite, radius, k) && (k in v || k in disk)
    then UpdateEvents(WriteView(v, disk, p, t, infinite, radius), blockTypes, t, p)
    else []
  }

  /** The interact call createExplosion makes on a tnt block at pos. */
  function TntEvents(blockTypes: BlockType -> BlockData, v: map<Coord, Image>, pos: Coord): seq<Event> {
    var cur := blockTypes(TypeIn(v, pos));
    if cur.kind == Tnt then [Interact(cur, pos)] else []
  }

  /** The calls clearing pos makes: interact on a tnt block found there, then
      those of setBlockAndMesh writing `empty` with updateNeighbors. */
  function ClearEvents(blockTypes: BlockType -> BlockData, v: map<Coord, Image>, disk: map<Coord, Image>,
                       pos: Coord, infinite: bool, radius: Coord): seq<Event>
  {
    TntEvents(blockTypes, v, pos) + WriteEvents(blockTypes, v, disk, pos, Empty, true, infinite, radius)
  }

  /** The resident chunks after the iteration at `at`. */
  function StepView(v: map<Coord, Image>, disk: map<Coord, Image>, bl: Blast, at: Coord,
                    infinite: bool, radius: Coord): map<Coord, Image> {
    if InBall(bl.origin, bl.strength, BlastPos(bl, at)) then WriteView(v, disk, BlastPos(bl, at), Empty, infinite, radius) else v
  }

  /** The calls the iteration at `at` makes on the resident chunks v. */
  function StepEvents(blockTypes: BlockType -> BlockData, v: map<Coord, Image>, disk: map<Coord, Image>,
                      bl: Blast, at: Coord, infinite: bool, radius: Coord): seq<Event>
  {
    if InBall(bl.origin, bl.strength, BlastPos(bl, at)) then ClearEvents(blockTypes, v, disk, BlastPos(bl, at), infinite, radius)
    else []
  }

  /** The resident chunks after row (x, y) of the explosion loop has run
      from z = -size up to, not including, z. */
  function RowView(v: map<Coord, Image>, disk: map<Coord, Image>, bl: Blast, x: int, y: int, z: int,
                   infinite: bool, radius: Coord): map<Coord, Image>
    decreases z + bl.size
  {
    if z <= -bl.size then v
    else StepView(RowView(v, disk, bl, x, y, z - 1, infinite, radius), disk, bl, Coord(x, y, z - 1), infinite, radius)
  }

  /** The resident chunks after plane x has run its rows from y = -size up
      to, not including, y. */
  function PlaneView(v: map<Coord, Image>, disk: map<Coord, Image>, bl: Blast, x: int, y: int,
                     infinite: bool, radius: Coord): map<Coord, Image>
    decreases y + bl.size
  {
    if y <= -bl.size then v
    else RowView(PlaneView(v, disk, bl, x, y - 1, infinite, radius), disk, bl, x, y - 1, bl.size + 1, infinite, radius)
  }

  /** The resident chunks after the loop has run its planes from x = -size
      up to, not including, x. */
  function CubeView(v: map<Coord, Image>, disk: map<Coord, Image>, bl: Blast, x: int,
                    infinite: bool, radius: Coord): map<Coord, Image>
    decreases x + bl.size
  {
    if x <= -bl.size then v
    else PlaneView(CubeView(v, disk, bl, x - 1, infinite, radius), disk, bl, x - 1, bl.size + 1, infinite, radius)
  }

  /** The blast of createExplosion(strength, origin). */
  function BlastOf(origin: Coord, strength: real): Blast {
    Blast(origin, strength, Ceil(strength))
  }

  /** The resident chunks after createExplosion's voxel loop. */
  function ExplosionView(v: map<Coord, Image>, disk: map<Coord, Image>, origin: Coord, strength: real,
                         infinite: bool, radius: Coord): map<Coord, Image>
  {
    CubeView(v, disk, BlastOf(origin, strength), Ceil(strength) + 1, infinite, radius)
  }

  /** Once the loop has passed every plane, Blasted says what the
      explosion did, in terms of the blast positions. */
  lemma BlastedFinal(v0: map<Coord, Image>, disk: map<Coord, Image>, v: map<Coord, Image>,
                     origin: Coord, strength: real, infinite: bool, radius: Coord)
    requires var size := Ceil(strength);
             Blasted(v0, disk, v, Blast(origin, strength, size), Coord(size + 1, -size, -size), infinite, radius)
    ensures forall k :: k in v0 ==> k in v
    ensures forall k :: k in v && k !in v0 ==>
              InBounds(infinite, radius, k) && exists c :: FloorChunk(c) == k && InBlast(origin, strength, c)
    ensures forall c :: InBlast(origin, strength, c) && InBounds(infinite, radius, FloorChunk(c)) ==> TypeIn(v, c) == Empty
    ensures forall c :: !InBlast(origin, strength, c) && FloorChunk(c) in v ==> TypeIn(v, c) == BaseTypeAt(v0, disk, c)
  {
    var size := Ceil(strength);
    var bl := Blast(origin, strength, size);
    var at := Coord(size + 1, -size, -size);
    forall c ensures Cleared(bl, at, c) <==> InBlast(origin, strength, c) {
      SweptAll(origin, strength, c);
    }
  }

  /** The iteration at `at` clears exactly its own position, when that
      passes the voxel test. */
  lemma ClearedNext(bl: Blast, at: Coord, c: Coord)
    requires InCube(at, bl.size)
    ensures Cleared(bl, Next(at), c) <==>
              Cleared(bl, at, c) || (c == BlastPos(bl, at) && InBall(bl.origin, bl.strength, c))
  {
    if c == BlastPos(bl, at) {
      assert Minus(c, bl.origin) == at;
    }
  }

  lemma StepNewChunks(v0: map<Coord, Image>, disk: map<Coord, Image>, v: map<Coord, Image>,
                      bl: Blast, at: Coord, infinite: bool, radius: Coord)
    requires InCube(at, bl.size)
    requires NewChunksCleared(v0, v, bl, at, infinite, radius)
    ensures NewChunksCleared(v0, StepView(v, disk, bl, at, infinite, radius), bl, Next(at), infinite, radius)
  {
    var v' := StepView(v, disk, bl, at, infinite, radius);
    var pos := BlastPos(bl, at);
    forall k | k in v' && k !in v0
      ensures InBounds(infinite, radius, k) && exists c :: FloorChunk(c) == k && Cleared(bl, Next(at), c)
    {
      if k in v {
        var c :| FloorChunk(c) == k && Cleared(bl, at, c);
        ClearedNext(bl, at, c);
      } else {
        ClearedNext(bl, at, pos);
      }
    }
  }

  lemma StepClearedEmpty(disk: map<Coord, Image>, v: map<Coord, Image>,
                         bl: Blast, at: Coord, infinite: bool, radius: Coord)
    requires InCube(at, bl.size)
    requires ClearedEmpty(v, bl, at, infinite, radius)
    ensures ClearedEmpty(StepView(v, disk, bl, at, infinite, radius), bl, Next(at), infinite, radius)
  {
    var v' := StepView(v, disk, bl, at, infinite, radius);
    var pos := BlastPos(bl, at);
    SplitWorldIsFloor(pos);
    forall c | Cleared(bl, Next(at), c) && InBounds(infinite, radius, FloorChunk(c))
      ensures TypeIn(v', c) == Empty
    {
      ClearedNext(bl, at, c);
      if StepWrites(bl, at, infinite, radius) {
        WriteEffect(v, disk, FloorChunk(pos), FloorLocal(pos), Empty, c);
      }
    }
  }

  lemma StepRestAsBefore(v0: map<Coord, Image>, disk: map<Coord, Image>, v: map<Coord, Image>,
                         bl: Blast, at: Coord, infinite: bool, radius: Coord)
    requires InCube(at, bl.size)
    requires KeptResident(v0, v) && RestAsBefore(v0, disk, v, bl, at)
    ensures RestAsBefore(v0, disk, StepView(v, disk, bl, at, infinite, radius), bl, Next(at))
  {
    var v' := StepView(v, disk, bl, at, infinite, radius);
    var pos := BlastPos(bl, at);
    SplitWorldIsFloor(pos);
    forall c | !Cleared(bl, Next(at), c) && FloorChunk(c) in v'
      ensures TypeIn(v', c) == BaseTypeAt(v0, disk, c)
    {
      ClearedNext(bl, at, c);
      if StepWrites(bl, at, infinite, radius) {
        WriteEffect(v, disk, FloorChunk(pos), FloorLocal(pos), Empty, c);
      }
    }
  }

  /** One iteration of the explosion loop: clearing the position at offset
      `at` (when it passes the voxel test and its chunk is in bounds) moves
      the loop on to the next offset of the row. */
  lemma BlastStep(v0: map<Coord, Image>, disk: map<Coord, Image>, v: map<Coord, Image>,
                  bl: Blast, at: Coord, at': Coord, infinite: bool, radius: Coord)
    requires InCube(at, bl.size) && at' == Next(at)
    requires Blasted(v0, disk, v, bl, at, infinite, radius)
    ensures Blasted(v0, disk, StepView(v, disk, bl, at, infinite, radius), bl, at', infinite, radius)
  {
    StepNewChunks(v0, disk, v, bl, at, infinite, radius);
    StepClearedEmpty(disk, v, bl, at, infinite, radius);
    StepRestAsBefore(v0, disk, v, bl, at, infinite, radius);
  }

  /** Blasted depends on the loop offset only through the positions it has
      cleared. */
  lemma BlastedMoves(v0: map<Coord, Image>, disk: map<Coord, Image>, v: map<Coord, Image>,
                     bl: Blast, at: Coord, at': Coord, infinite: bool, radius: Coord)
    requires forall o :: Swept(o, bl.size, at) <==> Swept(o, bl.size, at')
    requires Blasted(v0, disk, v, bl, at, infinite, radius)
    ensures Blasted(v0, disk, v, bl, at', infinite, radius)
  {
    forall k | k in v && k !in v0
      ensures exists c :: FloorChunk(c) == k && Cleared(bl, at', c)
    {
      var c :| FloorChunk(c) == k && Cleared(bl, at, c);
      assert Cleared(bl, at', c);
    }
  }

  /** The end of a row of the loop is the start of the next. */
  lemma SweptRowEnd(size: int, at: Coord, at': Coord)
    requires at.z == size + 1 && at' == Coord(at.x, at.y + 1, -size)
    ensures forall o :: Swept(o, size, at) <==> Swept(o, size, at')
  {
  }

  /** The end of a plane of the loop is the start of the next. */
  lemma SweptPlaneEnd(size: int, at: Coord, at': Coord)
    requires at.y == size + 1 && at.z == -size && at' == Coord(at.x + 1, -size, -size)
    ensures forall o :: Swept(o, size, at) <==> Swept(o, size, at')
  {
  }

  /** Once every plane is done, the loop has cleared exactly the blast. */
  lemma SweptAll(origin: Coord, strength: real, c: Coord)
    ensures var size := Ceil(strength);
            Cleared(Blast(origin, strength, size), Coord(size + 1, -size, -size), c) <==> InBlast(origin, strength, c)
  {
  }

  /** Running row (x, y) up to z keeps Blasted, now at (x, y, z). */
  lemma {:induction false} RowBlasted(v0: map<Coord, Image>, disk: map<Coord, Image>, v: map<Coord, Image>,
                                      bl: Blast, x: int, y: int, z: int, infinite: bool, radius: Coord)
    requires -bl.size <= x <= bl.size && -bl.size <= y <= bl.size && -bl.size <= z <= bl.size + 1
    requires Blasted(v0, disk, v, bl, Coord(x, y, -bl.size), infinite, radius)
    ensures Blasted(v0, disk, RowView(v, disk, bl, x, y, z, infinite, radius), bl, Coord(x, y, z), infinite, radius)
    decreases z + bl.size
  {
    if z > -bl.size {
      RowBlasted(v0, disk, v, bl, x, y, z - 1, infinite, radius);
      BlastStep(v0, disk, RowView(v, disk, bl, x, y, z - 1, infinite, radius), bl, Coord(x, y, z - 1), Coord(x, y, z), infinite, radius);
    }
  }

  /** Running plane x up to row y keeps Blasted, now at (x, y, -size). */
  lemma {:induction false} PlaneBlasted(v0: map<Coord, Image>, disk: map<Coord, Image>, v: map<Coord, Image>,
                                        bl: Blast, x: int, y: int, infinite: bool, radius: Coord)
    requires -bl.size <= x <= bl.size && -bl.size <= y <= bl.size + 1
    requires Blasted(v0, disk, v, bl, Coord(x, -bl.size, -bl.size), infinite, radius)
    ensures Blasted(v0, disk, PlaneView(v, disk, bl, x, y, infinite, radius), bl, Coord(x, y, -bl.size), infinite, radius)
    decreases y + bl.size
  {
    if y > -bl.size {
      PlaneBlasted(v0, disk, v, bl, x, y - 1, infinite, radius);
      var pv := PlaneView(v, disk, bl, x, y - 1, infinite, radius);
      RowBlasted(v0, disk, pv, bl, x, y - 1, bl.size + 1, infinite, radius);
      SweptRowEnd(bl.size, Coord(x, y - 1, bl.size + 1), Coord(x, y, -bl.size));
      BlastedMoves(v0, disk, RowView(pv, disk, bl, x, y - 1, bl.size + 1, infinite, radius), bl,
                   Coord(x, y - 1, bl.size + 1), Coord(x, y, -bl.size), infinite, radius);
    }
  }

  /** Running the loop up to plane x keeps Blasted, now at (x, -size, -size). */
  lemma {:induction false} CubeBlasted(v0: map<Coord, Image>, disk: map<Coord, Image>,
                                       bl: Blast, x: int, infinite: bool, radius: Coord)
    requires -bl.size <= x <= bl.size + 1
    ensures Blasted(v0, disk, CubeView(v0, disk, bl, x, infinite, radius), bl, Coord(x, -bl.size, -bl.size), infinite, radius)
    decreases x + bl.size
  {
    if x > -bl.size {
      CubeBlasted(v0, disk, bl, x - 1, infinite, radius);
      var cv := CubeView(v0, disk, bl, x - 1, infinite, radius);
      PlaneBlasted(v0, disk, cv, bl, x - 1, bl.size + 1, infinite, radius);
      SweptPlaneEnd(bl.size, Coord(x - 1, bl.size + 1, -bl.size), Coord(x, -bl.size, -bl.size));
      BlastedMoves(v0, disk, PlaneView(cv, disk, bl, x - 1, bl.size + 1, infinite, radius), bl,
                   Coord(x - 1, bl.size + 1, -bl.size), Coord(x, -bl.size, -bl.size), infinite, radius);
    } else {
      BlastedStart(v0, disk, bl, infinite, radius);
    }
  }

  /** What createExplosion's voxel loop does to the resident chunks v0:
      every blast position whose chunk is in bounds is `empty`; every other
      position of a resident chunk holds what the chunk started from (its
      old contents, else the saved chunk, else a new one); no chunk is
      dropped, and each chunk made resident is in bounds and contains a
      blast position. */
  lemma ExplosionEffect(v0: map<Coord, Image>, disk: map<Coord, Image>, origin: Coord, strength: real,
                        infinite: bool, radius: Coord)
    ensures var v := ExplosionView(v0, disk, origin, strength, infinite, radius);
            && (forall k :: k in v0 ==> k in v)
            && (forall k :: k in v && k !in v0 ==>
                  InBounds(infinite, radius, k) && exists c :: FloorChunk(c) == k && InBlast(origin, strength, c))
            && (forall c :: InBlast(origin, strength, c) && InBounds(infinite, radius, FloorChunk(c)) ==>
                  TypeIn(v, c) == Empty)
            && (forall c :: !InBlast(origin, strength, c) && FloorChunk(c) in v ==>
                  TypeIn(v, c) == BaseTypeAt(v0, disk, c))
  {
    var bl := BlastOf(origin, strength);
    var s := bl.size;
    var v := ExplosionView(v0, disk, origin, strength, infinite, radius);
    if s >= 0 {
      CubeBlasted(v0, disk, bl, s + 1, infinite, radius);
    } else {
      BlastedStart(v0, disk, bl, infinite, radius);
      BlastedMoves(v0, disk, v0, bl, Coord(-s, -s, -s), Coord(s + 1, -s, -s), infinite, radius);
    }
    BlastedFinal(v0, disk, v, origin, strength, infinite, radius);
  }

  /** How many chunks unloadFromQueue pops when the queue holds n: it stops
      once the queue is empty, or once at least minUnloads were popped and the
      time budget is spent; withinBudget(i) is the stopwatch test made before
      pop i. */
  function Drained(n: nat, minUnloads: int, withinBudget: nat -> bool, i: nat): (m: nat)
    requires i <= n
    ensures i <= m <= n
    ensures forall j :: i <= j < m ==> j < minUnloads || withinBudget(j)
    ensures m < n ==> minUnloads <= m && !withinBudget(m)
    decreases n - i
  {
    if i == n || (i >= minUnloads && !withinBudget(i)) then i
    else Drained(n, minUnloads, withinBudget, i + 1)
  }

  function Min(a: int, b: int): int {
    if a <= b then a else b
  }

  lemma {:induction false} DrainedFrom(n: nat, minUnloads: int, withinBudget: nat -> bool, i: nat)
    requires i <= n
    ensures i <= minUnloads ==> Min(n, minUnloads) <= Drained(n, minUnloads, withinBudget, i)
    decreases n - i
  {
    if !(i == n || (i >= minUnloads && !withinBudget(i))) {
      DrainedFrom(n, minUnloads, withinBudget, i + 1);
    }
  }

  /** unloadFromQueue never pops more than the queue holds, and pops at least
      min(n, minUnloads) whatever the clock says. */
  lemma DrainBounds(n: nat, minUnloads: int, withinBudget: nat -> bool)
    ensures Min(n, minUnloads) <= Drained(n, minUnloads, withinBudget, 0) <= n
  {
    DrainedFrom(n, minUnloads, withinBudget, 0);
  }

  /** With the budget already spent (maxTimeMS = 0), exactly
      min(n, minUnloads) chunks are popped (none for a negative floor). */
  lemma {:induction false} DrainSpentBudget(n: nat, minUnloads: int, withinBudget: nat -> bool, i: nat)
    requires i <= n
    requires forall j :: !withinBudget(j)
    ensures Drained(n, minUnloads, withinBudget, i) == if i >= minUnloads then i else Min(n, minUnloads)
    decreases n - i
  {
    if !(i == n || i >= minUnloads) {
      DrainSpentBudget(n, minUnloads, withinBudget, i + 1);
    }
  }

  /** With time to spare at every check, the whole queue is drained. */
  lemma {:induction false} DrainAmpleBudget(n: nat, minUnloads: int, withinBudget: nat -> bool, i: nat)
    requires i <= n
    requires forall j :: withinBudget(j)
    ensures Drained(n, minUnloads, withinBudget, i) == n
    decreases n - i
  {
    if i < n {
      DrainAmpleBudget(n, minUnloads, withinBudget, i + 1);
    }
  }

  /** The slots of the Direction enum (not part of this model), taken to be
      numbered in this order. */
  const POS_X: nat := 0
  const POS_Y: nat := 1
  const POS_Z: nat := 2
  const NEG_X: nat := 3
  const NEG_Y: nat := 4
  const NEG_Z: nat := 5

  /** What unloading a chunk uses of it: its coordinate, its grid and its
      game object. */
  datatype Unloaded = Unloaded(at: Coord, image: Image, handle: Option<ObjectId>)

  /** What unloading chunk c hands on: its coordinate, grid and game object. */
  function Snapshot(c: Chunk): Unloaded
    reads c
  {
    Unloaded(c.chunkCoords, c.blocks, c.gameObject)
  }

  /** The SetActive(false) call unloading a chunk with this game object
      makes, if any. */
  function Deactivation(handle: Option<ObjectId>): seq<Event> {
    if handle.Some? then [Deactivate(handle.value)] else []
  }

  /** Persistence after writing the chunks us in order (later writes win). */
  function PersistAll(disk: map<Coord, Image>, us: seq<Unloaded>): map<Coord, Image>
  {
    if us == [] then disk
    else
      var last := us[|us| - 1];
      PersistAll(disk, us[..|us| - 1])[last.at := last.image]
  }

  /** The SetActive(false) calls unloading the chunks us makes, in order. */
  function Deactivations(us: seq<Unloaded>): seq<Event>
  {
    if us == [] then [] else Deactivations(us[..|us| - 1]) + Deactivation(us[|us| - 1].handle)
  }

  /** The coordinates of the chunks us. */
  function CoordsOf(us: seq<Unloaded>): set<Coord>
  {
    if us == [] then {} else CoordsOf(us[..|us| - 1]) + {us[|us| - 1].at}
  }

  /** Unloading one more chunk u extends the writes, the SetActive calls and
      the removed coordinates by u's. */
  lemma UnloadStep(us: seq<Unloaded>, u: Unloaded, disk: map<Coord, Image>)
    ensures PersistAll(disk, us + [u]) == PersistAll(disk, us)[u.at := u.image]
    ensures Deactivations(us + [u]) == Deactivations(us) + Deactivation(u.handle)
    ensures CoordsOf(us + [u]) == CoordsOf(us) + {u.at}
  {
    assert (us + [u])[..|us|] == us;
  }

  /** Removing keys s, then k, removes s + {k}. */
  lemma RemoveMore(m: map<Coord, Chunk>, s: set<Coord>, k: Coord)
    ensures (m - s) - {k} == m - (s + {k})
  {
  }

  lemma AppendMore(a: seq<Event>, b: seq<Event>, c: seq<Event>)
    ensures (a + b) + c == a + (b + c)
  {
  }

  /** Two maps that agree away from k agree once k is overwritten. */
  lemma UpdateOver(m0: map<Coord, Image>, m1: map<Coord, Image>, k: Coord, v: Image)
    requires forall q :: q != k ==> (q in m1 <==> q in m0)
    requires forall q :: q != k && q in m1 ==> m1[q] == m0[q]
    ensures m1[k := v] == m0[k := v]
  {
  }

  /** BlockData.interact as the base class declares it: it changes neither
      the chunk nor the world. */
  method BaseInteract(block: BlockData, worldPos: Coord, chunkPos: Coord, chunk: Chunk?, world: World)
    ensures unchanged(world) && (chunk != null ==> unchanged(chunk))
  {
  }

  class World {
    var loadedChunks: map<Coord, Chunk>
    var disk: map<Coord, Image>
    var unloadChunkBuffer: multiset<Chunk>
    var events: seq<Event>
    const worldRadius: Coord
    const infinite: bool
    /** Block.blockTypes, the shared registry (not part of this model). */
    const blockTypes: BlockType -> BlockData

    /** The resident chunks as values: coordinate to current grid. */
    ghost function View(): map<Coord, Image>
      reads this`loadedChunks, loadedChunks.Values
    {
      map k | k in loadedChunks :: loadedChunks[k].blocks
    }

    /** Store invariant: every resident chunk sits under its own
        coordinate, inside the world's bounds. */
    ghost predicate Valid()
      reads this`loadedChunks
    {
      forall k :: k in loadedChunks ==> loadedChunks[k].chunkCoords == k && ChunkInBounds(k)
    }

    /** chunkInBounds. */
    function ChunkInBounds(c: Coord): (b: bool)
      ensures infinite ==> b
      ensures !infinite ==> (b <==> Abs(c.x) < worldRadius.x && Abs(c.y) < worldRadius.y && Abs(c.z) < worldRadius.z)
    {
      InBounds(infinite, worldRadius, c)
    }

    /** getChunk finds the chunk: in bounds, and resident or saved. */
    ghost predicate CanGet(k: Coord)
      reads this`loadedChunks, this`disk
    {
      ChunkInBounds(k) && (k in loadedChunks || k in disk)
    }

    /** The World constructor: an infinite world of radius (3, 3, 3), nothing
        resident, over whatever persistence already holds. */
    constructor (blockTypes: BlockType -> BlockData, saved: map<Coord, Image>)
      ensures Valid()
      ensures infinite && worldRadius == Coord(3, 3, 3)
      ensures this.blockTypes == blockTypes
      ensures loadedChunks == map[] && disk == saved
      ensures unloadChunkBuffer == multiset{} && events == []
    {
      this.blockTypes := blockTypes;
      worldRadius := Coord(3, 3, 3);
      infinite := true;
      loadedChunks := map[];
      disk := saved;
      unloadChunkBuffer := multiset{};
      events := [];
    }

    /** getBlock(chunkCoords, blockCoords). */
    function GetBlockAt(k: Coord, b: Coord): (r: BlockData)
      requires Valid() && InChunk(b)
      reads this`loadedChunks, loadedChunks.Values
      ensures r == blockTypes(TypeIn(View(), Plus(Times(CHUNK_SIZE, k), b)))
    {
      var p := Plus(Times(CHUNK_SIZE, k), b);
      SplitJoin(k, b);
      SplitWorldIsFloor(p);
      assert k in View() <==> k in loadedChunks;
      if k in loadedChunks then
        assert View()[k] == loadedChunks[k].blocks;
        match loadedChunks[k].blocks
        case None => blockTypes(Empty)
        case Some(g) => blockTypes(Cell(g, b))
      else blockTypes(ChunkBorder)
    }

    /** getBlock(worldCoords). */
    function GetBlock(p: Coord): (r: BlockData)
      requires Valid()
      reads this`loadedChunks, loadedChunks.Values
      ensures r == blockTypes(TypeIn(View(), p))
      ensures FloorChunk(p) !in loadedChunks ==> r == blockTypes(ChunkBorder)
      ensures FloorChunk(p) in loadedChunks && loadedChunks[FloorChunk(p)].blocks == None ==> r == blockTypes(Empty)
    {
      var split := SplitWorld(p);
      SplitWorldIsFloor(p);
      GetBlockAt(split.0, split.1)
    }

    /** ChunkSerializer.readChunk: a new chunk holding the saved image, or
        null when nothing is saved under k. */
    method ReadChunk(k: Coord) returns (c: Chunk?)
      requires Valid()
      ensures c == null <==> k !in disk
      ensures c != null ==> fresh(c) && c.chunkCoords == k && c.blocks == disk[k]
    {
      if k !in disk {
        return null;
      }
      c := new Chunk(DefaultGrid(), k);
      c.blocks := disk[k];
    }

    /** createChunk: inserts c under its coordinate when that is in bounds and
        not already taken; otherwise nothing changes. */
    method CreateChunk(c: Chunk)
      requires Valid()
      modifies this`loadedChunks
      ensures Valid()
      ensures var k := c.chunkCoords;
              loadedChunks == if ChunkInBounds(k) && k !in old(loadedChunks) then old(loadedChunks)[k := c]
                              else old(loadedChunks)
      ensures var k := c.chunkCoords;
              View() == if ChunkInBounds(k) && k !in old(loadedChunks) then old(View())[k := c.blocks] else old(View())
    {
      if !ChunkInBounds(c.chunkCoords) {
        return;
      }
      if c.chunkCoords !in loadedChunks {
        AddResident(c.chunkCoords, c);
      }
    }

    /** getChunk: null out of bounds; the resident chunk if there is one;
        otherwise the saved chunk, now made resident; otherwise null. */
    method GetChunk(k: Coord) returns (r: Chunk?)
      requires Valid()
      modifies this`loadedChunks
      ensures Valid()
      ensures r == null <==> !old(CanGet(k))
      ensures r != null ==> k in loadedChunks && loadedChunks[k] == r
      ensures k in old(loadedChunks) || !old(CanGet(k)) ==> loadedChunks == old(loadedChunks)
      ensures k !in old(loadedChunks) && old(CanGet(k)) ==>
                fresh(r) && loadedChunks == old(loadedChunks)[k := r]
      ensures View() == if k !in old(loadedChunks) && old(CanGet(k)) then old(View())[k := disk[k]] else old(View())
      ensures r != null && k !in old(loadedChunks) ==> r.blocks == disk[k]
      ensures forall k' :: k' in old(loadedChunks) ==> k' in loadedChunks && loadedChunks[k'] == old(loadedChunks)[k']
      ensures loadedChunks.Keys == old(loadedChunks).Keys + (if r == null then {} else {k})
    {
      if !ChunkInBounds(k) {
        return null;
      }
      if k in loadedChunks {
        return loadedChunks[k];
      }
      r := ReadChunk(k);
      if r != null {
        AddResident(k, r);
      }
    }

    /** loadedChunks.Add(k, c) for a chunk read from persistence. */
    method AddResident(k: Coord, c: Chunk)
      requires Valid() && c.chunkCoords == k && ChunkInBounds(k) && k !in loadedChunks
      modifies this`loadedChunks
      ensures Valid()
      ensures loadedChunks == old(loadedChunks)[k := c]
      ensures View() == old(View())[k := c.blocks]
    {
      ghost var v0 := View();
      loadedChunks := loadedChunks[k := c];
      assert View().Keys == v0.Keys + {k};
      assert forall q :: q in View() ==> View()[q] == v0[k := c.blocks][q];
    }

    /** loadChunkFromFile as written: loads the saved chunk when in bounds and
        not resident, but reports false on every path. */
    method LoadChunkFromFile(k: Coord) returns (loaded: bool)
      requires Valid()
      modifies this`loadedChunks
      ensures Valid()
      ensures !loaded
      ensures k !in old(loadedChunks) && old(CanGet(k)) ==>
                k in loadedChunks && loadedChunks == old(loadedChunks)[k := loadedChunks[k]] && fresh(loadedChunks[k])
      ensures k in old(loadedChunks) || !old(CanGet(k)) ==> loadedChunks == old(loadedChunks)
      ensures View() == if k !in old(loadedChunks) && old(CanGet(k)) then old(View())[k := disk[k]] else old(View())
    {
      if !ChunkInBounds(k) {
        return false;
      }
      if k in loadedChunks {
        return false;
      }
      var read := ReadChunk(k);
      if read != null {
        AddResident(k, read);
      }
      return false;
    }

    /** loadChunkFromFile as its comment describes it: true exactly when the
        chunk was read and made resident (so it needs meshing). */
    method LoadChunkFromFileReporting(k: Coord) returns (loaded: bool)
      requires Valid()
      modifies this`loadedChunks
      ensures Valid()
      ensures loaded <==> k !in old(loadedChunks) && k in loadedChunks
      ensures loaded <==> k !in old(loadedChunks) && old(CanGet(k))
      ensures loaded ==> loadedChunks == old(loadedChunks)[k := loadedChunks[k]] && fresh(loadedChunks[k])
      ensures !loaded ==> loadedChunks == old(loadedChunks)
      ensures View() == if loaded then old(View())[k := disk[k]] else old(View())
    {
      if !ChunkInBounds(k) || k in loadedChunks {
        return false;
      }
      var read := ReadChunk(k);
      if read != null {
        AddResident(k, read);
      }
      return read != null;
    }

    /** ChunkSerializer.writeChunk: persistence now holds the chunk's grid
        under its coordinate. */
    method WriteChunk(chunk: Chunk)
      requires Valid()
      modifies this`disk
      ensures Valid()
      ensures disk == old(disk)[chunk.chunkCoords := chunk.blocks]
    {
      disk := disk[chunk.chunkCoords := chunk.blocks];
    }

    /** unloadChunk(chunk): hides its game object, removes its coordinate from
        the resident map and writes the chunk to persistence. */
    method UnloadChunk(chunk: Chunk)
      requires Valid()
      modifies this`loadedChunks, this`disk, this`events
      ensures Valid()
      ensures loadedChunks == old(loadedChunks) - {chunk.chunkCoords}
      ensures disk == old(disk)[chunk.chunkCoords := chunk.blocks]
      ensures events == old(events) + Deactivation(chunk.gameObject)
    {
      if chunk.gameObject.Some? {
        events := events + [Deactivate(chunk.gameObject.value)];
      }
      loadedChunks := loadedChunks - {chunk.chunkCoords};
      WriteChunk(chunk);
    }

    /** unloadChunk(coords): unloads the resident chunk at k; fails, as the
        dictionary lookup throws, when none is resident. */
    method UnloadChunkAt(k: Coord) returns (found: bool)
      requires Valid()
      modifies this`loadedChunks, this`disk, this`events
      ensures Valid()
      ensures found <==> k in old(loadedChunks)
      ensures loadedChunks == old(loadedChunks) - {k}
      ensures disk == if found then old(disk)[k := old(View())[k]] else old(disk)
      ensures found ==> events == old(events) + Deactivation(old(loadedChunks)[k].gameObject)
      ensures !found ==> events == old(events)
    {
      if k !in loadedChunks {
        return false;
      }
      UnloadChunk(loadedChunks[k]);
      return true;
    }

    /** saveAll: writes every resident chunk to persistence. */
    method SaveAll()
      requires Valid()
      modifies this`disk
      ensures Valid()
      ensures disk == old(disk) + View()
    {
      var toSave := loadedChunks.Keys;
      while toSave != {}
        invariant toSave <= loadedChunks.Keys
        invariant Valid()
        invariant disk.Keys == old(disk).Keys + (loadedChunks.Keys - toSave)
        invariant forall k :: k in disk ==>
                    disk[k] == if k in loadedChunks && k !in toSave then loadedChunks[k].blocks else old(disk)[k]
        decreases toSave
      {
        var k :| k in toSave;
        WriteChunk(loadedChunks[k]);
        toSave := toSave - {k};
      }
    }

    /** Of the requests ks, those getChunk finds (in bounds, and resident or
        saved: in `known`), in request order. */
    function Resolved(ks: seq<Coord>, known: set<Coord>): seq<Coord> {
      if ks == [] then []
      else (if ChunkInBounds(ks[0]) && ks[0] in known then [ks[0]] else []) + Resolved(ks[1..], known)
    }

    /** Of the requests ks, those left for the generator, in request order. */
    function Unresolved(ks: seq<Coord>, known: set<Coord>): seq<Coord> {
      if ks == [] then []
      else (if ChunkInBounds(ks[0]) && ks[0] in known then [] else [ks[0]]) + Unresolved(ks[1..], known)
    }

    /** getChunks' two lists partition the request: nothing is lost or
        duplicated. */
    lemma {:induction false} ResolvedPartition(ks: seq<Coord>, known: set<Coord>)
      ensures multiset(Resolved(ks, known)) + multiset(Unresolved(ks, known)) == multiset(ks)
      ensures |Resolved(ks, known)| + |Unresolved(ks, known)| == |ks|
    {
      if ks != [] {
        ResolvedPartition(ks[1..], known);
        assert ks == [ks[0]] + ks[1..];
      }
    }

    /** A request is resolved exactly when getChunk finds it, and left for
        the generator exactly when it does not. */
    lemma {:induction false} ResolvedMembers(ks: seq<Coord>, known: set<Coord>, k: Coord)
      ensures k in Resolved(ks, known) <==> k in ks && ChunkInBounds(k) && k in known
      ensures k in Unresolved(ks, known) <==> k in ks && !(ChunkInBounds(k) && k in known)
    {
      if ks != [] {
        ResolvedMembers(ks[1..], known, k);
        assert ks == [ks[0]] + ks[1..];
      }
    }

    /** Resolved and Unresolved grow one request at a time. */
    lemma {:induction false} ResolvedSplit(ks: seq<Coord>, k: Coord, known: set<Coord>)
      ensures Resolved(ks + [k], known) == Resolved(ks, known) + (if ChunkInBounds(k) && k in known then [k] else [])
      ensures Unresolved(ks + [k], known) == Unresolved(ks, known) + (if ChunkInBounds(k) && k in known then [] else [k])
    {
      if ks != [] {
        ResolvedSplit(ks[1..], k, known);
        assert (ks + [k])[1..] == ks[1..] + [k];
      }
    }

    /** Resolved and Unresolved of a request prefix grow one request at a time. */
    lemma ResolvedStep(ks: seq<Coord>, i: int, known: set<Coord>)
      requires 0 <= i < |ks|
      ensures Resolved(ks[..i + 1], known) == Resolved(ks[..i], known) + (if ChunkInBounds(ks[i]) && ks[i] in known then [ks[i]] else [])
      ensures Unresolved(ks[..i + 1], known) == Unresolved(ks[..i], known) + (if ChunkInBounds(ks[i]) && ks[i] in known then [] else [ks[i]])
    {
      ResolvedSplit(ks[..i], ks[i], known);
      assert ks[..i + 1] == ks[..i] + [ks[i]];
    }

    /** getChunks, up to the generator call: every requested coordinate is
        looked up with getChunk; the hits are returned in request order and
        the misses are the coordinates handed to the generator. */
    method GetChunks(ks: seq<Coord>) returns (found: seq<Chunk>, toGenerate: seq<Coord>)
      requires Valid()
      modifies this`loadedChunks
      ensures Valid()
      ensures toGenerate == Unresolved(ks, old(loadedChunks).Keys + disk.Keys)
      ensures |found| == |Resolved(ks, old(loadedChunks).Keys + disk.Keys)|
      ensures forall i :: 0 <= i < |found| ==>
                var k := Resolved(ks, old(loadedChunks).Keys + disk.Keys)[i];
                k in loadedChunks && found[i] == loadedChunks[k]
      ensures loadedChunks.Keys == old(loadedChunks).Keys + set k | k in Resolved(ks, old(loadedChunks).Keys + disk.Keys)
      ensures forall k :: k in old(loadedChunks) ==> loadedChunks[k] == old(loadedChunks)[k]
      ensures loadedChunks.Keys <= old(loadedChunks).Keys + disk.Keys
      ensures View() == old(View()) + map k | k in loadedChunks.Keys - old(loadedChunks).Keys :: disk[k]
    {
      ghost var known, loaded0, v0 := loadedChunks.Keys + disk.Keys, loadedChunks, View();
      ghost var resolved: seq<Coord> := [];
      found, toGenerate := [], [];
      var i := 0;
      while i < |ks|
        invariant 0 <= i <= |ks|
        invariant Valid()
        invariant known == loaded0.Keys + disk.Keys
        invariant loadedChunks.Keys <= known
        invariant resolved == Resolved(ks[..i], known)
        invariant toGenerate == Unresolved(ks[..i], known)
        invariant |found| == |resolved|
        invariant forall j :: 0 <= j < |found| ==> resolved[j] in loadedChunks && found[j] == loadedChunks[resolved[j]]
        invariant forall k :: k in loadedChunks <==> k in loaded0 || k in resolved
        invariant forall k :: k in loaded0 ==> loadedChunks[k] == loaded0[k]
        invariant forall k :: k in loadedChunks && k !in loaded0 ==> k in disk && loadedChunks[k].blocks == disk[k]
      {
        ResolvedStep(ks, i, known);
        var chunk := GetChunk(ks[i]);
        if chunk == null {
          toGenerate := toGenerate + [ks[i]];
        } else {
          found := found + [chunk];
          resolved := resolved + [ks[i]];
        }
        i := i + 1;
      }
      assert ks[..i] == ks;
      LoadedView(v0, loaded0);
    }

    /** When the chunks resident before (whose grids v0 held) are kept and
        every other resident chunk holds its saved grid, the view is v0
        extended by those saved grids. */
    lemma LoadedView(v0: map<Coord, Image>, loaded0: map<Coord, Chunk>)
      requires v0.Keys == loaded0.Keys && forall k :: k in loaded0 ==> loaded0[k].blocks == v0[k]
      requires forall k :: k in loaded0 ==> k in loadedChunks && loadedChunks[k] == loaded0[k]
      requires forall k :: k in loadedChunks && k !in loaded0 ==> k in disk && loadedChunks[k].blocks == disk[k]
      ensures View() == v0 + map k | k in loadedChunks.Keys - loaded0.Keys :: disk[k]
    {
    }

    /** The resident chunks at the coordinates ks, in the order of ks. */
    function Residents(ks: seq<Coord>): (cs: seq<Chunk>)
      reads this`loadedChunks
      ensures |cs| <= |ks|
      ensures forall i :: 0 <= i < |ks| && ks[i] in loadedChunks ==> loadedChunks[ks[i]] in cs
      ensures forall j :: 0 <= j < |cs| ==> exists i :: 0 <= i < |ks| && ks[i] in loadedChunks && loadedChunks[ks[i]] == cs[j]
    {
      if ks == [] then []
      else
        var k := ks[|ks| - 1];
        var front := Residents(ks[..|ks| - 1]);
        front + (if k in loadedChunks then [loadedChunks[k]] else [])
    }

    /** getNeighboringChunks: the resident chunks among the six face
        neighbours of chunk k, in the order +x, -x, +y, -y, +z, -z. */
    method GetNeighboringChunks(k: Coord) returns (neighbors: seq<Chunk>)
      ensures neighbors == Residents(FaceNeighbors(k))
    {
      var faces := FaceNeighbors(k);
      neighbors := [];
      var i := 0;
      while i < 6
        invariant 0 <= i <= 6
        invariant neighbors == Residents(faces[..i])
      {
        assert faces[..i + 1][..i] == faces[..i];
        if faces[i] in loadedChunks {
          neighbors := neighbors + [loadedChunks[faces[i]]];
        }
        i := i + 1;
      }
      assert faces[..6] == faces;
    }

    /** updateNeighborBlocks: one onBlockUpdate per face neighbour of p, in
        the order +x, -x, +y, -y, +z, -z, each on the block getBlock reports
        there (the border sentinel in a non-resident chunk). */
    method UpdateNeighborBlocks(p: Coord)
      requires Valid()
      modifies this`events
      ensures events == old(events) + NeighborEvents(View(), blockTypes, p)
    {
      var n := FaceNeighbors(p);
      NeighborEventsRead(p);
      var e0, e1, e2 := BlockUpdate(GetBlock(n[0]), n[0]), BlockUpdate(GetBlock(n[1]), n[1]), BlockUpdate(GetBlock(n[2]), n[2]);
      var e3, e4, e5 := BlockUpdate(GetBlock(n[3]), n[3]), BlockUpdate(GetBlock(n[4]), n[4]), BlockUpdate(GetBlock(n[5]), n[5]);
      events := events + [e0, e1, e2, e3, e4, e5];
    }

    /** The update calls read the blocks getBlock reports. */
    lemma NeighborEventsRead(p: Coord)
      requires Valid()
      ensures var n := FaceNeighbors(p);
              NeighborEvents(View(), blockTypes, p) ==
                [BlockUpdate(GetBlock(n[0]), n[0]), BlockUpdate(GetBlock(n[1]), n[1]), BlockUpdate(GetBlock(n[2]), n[2]),
                 BlockUpdate(GetBlock(n[3]), n[3]), BlockUpdate(GetBlock(n[4]), n[4]), BlockUpdate(GetBlock(n[5]), n[5])]
    {
    }

    /** getSurroundingBlocks: each of the six direction slots of toStore
        receives the block one step away in that direction; the rest of
        toStore is untouched. */
    method GetSurroundingBlocks(p: Coord, toStore: array<BlockData>)
      requires Valid()
      requires toStore.Length >= 6
      modifies toStore
      ensures toStore[POS_X] == GetBlock(Coord(p.x + 1, p.y, p.z))
      ensures toStore[POS_Y] == GetBlock(Coord(p.x, p.y + 1, p.z))
      ensures toStore[POS_Z] == GetBlock(Coord(p.x, p.y, p.z + 1))
      ensures toStore[NEG_X] == GetBlock(Coord(p.x - 1, p.y, p.z))
      ensures toStore[NEG_Y] == GetBlock(Coord(p.x, p.y - 1, p.z))
      ensures toStore[NEG_Z] == GetBlock(Coord(p.x, p.y, p.z - 1))
      ensures forall i :: 6 <= i < toStore.Length ==> toStore[i] == old(toStore[i])
    {
      var px, py, pz := GetBlock(Coord(p.x + 1, p.y, p.z)), GetBlock(Coord(p.x, p.y + 1, p.z)), GetBlock(Coord(p.x, p.y, p.z + 1));
      var nx, ny, nz := GetBlock(Coord(p.x - 1, p.y, p.z)), GetBlock(Coord(p.x, p.y - 1, p.z)), GetBlock(Coord(p.x, p.y, p.z - 1));
      var found := [px, py, pz, nx, ny, nz];
      forall i | 0 <= i < 6 {
        toStore[i] := found[i];
      }
    }

    /** The cell write of setBlock on a chunk getChunk returned: a chunk with
        no grid first gets a fresh one. */
    method WriteCell(chunk: Chunk, b: Coord, t: BlockType)
      requires InChunk(b)
      modifies chunk`blocks
      ensures chunk.blocks == Written(old(chunk.blocks), b, t)
    {
      var g := if chunk.blocks == None then DefaultGrid() else chunk.blocks.value;
      chunk.blocks := Some(SetCell(g, b, t));
    }

    /** The cell write on the resident chunk at k: only k's grid changes. */
    method WriteResident(chunk: Chunk, k: Coord, b: Coord, t: BlockType)
      requires Valid() && InChunk(b) && k in loadedChunks && loadedChunks[k] == chunk
      modifies chunk`blocks
      ensures Valid()
      ensures chunk.blocks == Written(old(chunk.blocks), b, t)
      ensures View() == old(View())[k := Written(old(View())[k], b, t)]
    {
      ghost var v0 := View();
      WriteCell(chunk, b, t);
      assert View().Keys == v0.Keys;
      assert forall q :: q in View() ==> View()[q] == v0[k := chunk.blocks][q];
    }

    /** The branch of setBlock for a chunk getChunk returned: the cell is
        written, and with updateNeighbors the written block and its six
        neighbours receive onBlockUpdate. */
    method SetBlockLoaded(chunk: Chunk, k: Coord, b: Coord, t: BlockType, updateNeighbors: bool)
      requires Valid() && InChunk(b) && k in loadedChunks && loadedChunks[k] == chunk
      modifies chunk`blocks, this`events
      ensures Valid()
      ensures View() == old(View())[k := Written(old(View())[k], b, t)]
      ensures events == if updateNeighbors
                        then old(events) + UpdateEvents(View(), blockTypes, t, Plus(Times(CHUNK_SIZE, k), b))
                        else old(events)
    {
      WriteResident(chunk, k, b, t);
      if updateNeighbors {
        var pos := Plus(Times(CHUNK_SIZE, k), b);
        assert GetBlockAt(k, b) == blockTypes(t);
        events := events + [BlockUpdate(GetBlockAt(k, b), pos)];
        UpdateNeighborBlocks(pos);
      }
    }

    /** The branch of setBlock with forceLoadChunk when getChunk found
        nothing: a new chunk holding the cell, registered when in bounds. */
    method SetBlockForced(k: Coord, b: Coord, t: BlockType) returns (r: Chunk)
      requires Valid() && InChunk(b) && !CanGet(k)
      modifies this`loadedChunks
      ensures Valid()
      ensures fresh(r) && r.chunkCoords == k && r.blocks == Written(None, b, t)
      ensures loadedChunks == if ChunkInBounds(k) then old(loadedChunks)[k := r] else old(loadedChunks)
      ensures View() == if ChunkInBounds(k) then old(View())[k := Written(None, b, t)] else old(View())
    {
      ghost var v0 := View();
      r := new Chunk(DefaultGrid(), k);
      CreateChunk(r);
      if ChunkInBounds(k) {
        ghost var v1 := View();
        WriteResident(r, k, b, t);
        UpdateOver(v0, v1, k, Written(None, b, t));
      } else {
        WriteCell(r, b, t);
      }
    }

    /** setBlock(chunkCoords, blockCoords, ...): write one cell.
        - A chunk getChunk obtains (resident, or loaded from persistence) gets
          a fresh grid if it has none, then the cell (SetBlockLoaded).
        - Otherwise, with forceLoadChunk, a new chunk holding the cell is
          created and registered when in bounds (SetBlockForced).
        - Otherwise nothing happens and null is returned. */
    method SetBlockAt(k: Coord, b: Coord, t: BlockType, forceLoadChunk: bool, updateNeighbors: bool)
      returns (r: Chunk?)
      requires Valid() && InChunk(b)
      modifies this`loadedChunks, this`events, loadedChunks.Values`blocks
      ensures Valid()
      ensures r == null <==> !old(CanGet(k)) && !forceLoadChunk
      ensures r != null ==> r.chunkCoords == k
      ensures old(CanGet(k)) ==> k in loadedChunks && loadedChunks[k] == r &&
                                 r.blocks == WrittenImage(old(View()), disk, k, b, t)
      ensures !old(CanGet(k)) && forceLoadChunk ==> fresh(r) && r.blocks == Written(None, b, t)
      ensures View() == if (old(CanGet(k)) || forceLoadChunk) && ChunkInBounds(k)
                        then old(View())[k := WrittenImage(old(View()), disk, k, b, t)] else old(View())
      ensures events == if old(CanGet(k)) && updateNeighbors
                        then old(events) + UpdateEvents(View(), blockTypes, t, Plus(Times(CHUNK_SIZE, k), b))
                        else old(events)
      ensures forall c :: c in loadedChunks.Values ==> c in old(loadedChunks.Values) || fresh(c)
    {
      ghost var v0, can := View(), CanGet(k);
      var chunk := GetChunk(k);
      if chunk != null {
        assert can && loadedChunks[k] == chunk;
        ghost var v1 := View();
        SetBlockLoaded(chunk, k, b, t, updateNeighbors);
        UpdateOver(v0, v1, k, WrittenImage(v0, disk, k, b, t));
        return chunk;
      } else if forceLoadChunk {
        assert !can && (ChunkInBounds(k) ==> WrittenImage(v0, disk, k, b, t) == Written(None, b, t));
        chunk := SetBlockForced(k, b, t);
        return chunk;
      }
      return null;
    }

    /** setBlock(worldCoords, ...): splits the position as World.cs does and
        writes through setBlock(chunkCoords, blockCoords, ...).  When the
        chunk is obtained or created in bounds, p afterwards reads back t. */
    method SetBlock(p: Coord, t: BlockType, forceLoadChunk: bool, updateNeighbors: bool) returns (r: Chunk?)
      requires Valid()
      modifies this`loadedChunks, this`events, loadedChunks.Values`blocks
      ensures Valid()
      ensures r == null <==> !old(CanGet(FloorChunk(p))) && !forceLoadChunk
      ensures var k := FloorChunk(p);
              View() == if (old(CanGet(k)) || forceLoadChunk) && ChunkInBounds(k)
                        then old(View())[k := WrittenImage(old(View()), disk, k, FloorLocal(p), t)] else old(View())
      ensures (old(CanGet(FloorChunk(p))) || forceLoadChunk) && ChunkInBounds(FloorChunk(p)) ==> TypeIn(View(), p) == t
      ensures events == if old(CanGet(FloorChunk(p))) && updateNeighbors
                        then old(events) + UpdateEvents(View(), blockTypes, t, p)
                        else old(events)
      ensures forall c :: c in loadedChunks.Values ==> c in old(loadedChunks.Values) || fresh(c)
    {
      var split := SplitWorld(p);
      SplitWorldIsFloor(p);
      r := SetBlockAt(split.0, split.1, t, forceLoadChunk, updateNeighbors);
      ReadAfterWrite(old(View()), disk, p, t);
    }

    /** setBlockAndMesh: setBlock with forceLoadChunk, so an in-bounds write
        always lands; the remesh that follows is not part of this model. */
    method SetBlockAndMesh(p: Coord, t: BlockType, updateNeighbors: bool)
      requires Valid()
      modifies this`loadedChunks, this`events, loadedChunks.Values`blocks
      ensures Valid()
      ensures View() == WriteView(old(View()), disk, p, t, infinite, worldRadius)
      ensures ChunkInBounds(FloorChunk(p)) ==> TypeIn(View(), p) == t
      ensures events == old(events) + WriteEvents(blockTypes, old(View()), disk, p, t, updateNeighbors, infinite, worldRadius)
      ensures forall c :: c in loadedChunks.Values ==> c in old(loadedChunks.Values) || fresh(c)
    {
      var split := SplitWorld(p);
      SplitWorldIsFloor(p);
      var _ := SetBlockAt(split.0, split.1, t, true, updateNeighbors);
      ReadAfterWrite(old(View()), disk, p, t);
    }

    /** One voxel of createExplosion, at offset `at` from the origin: when it
        passes the voxel test, its position is cleared. */
    method ExplodeAt(bl: Blast, at: Coord)
      requires Valid()
      modifies this`loadedChunks, this`events, loadedChunks.Values`blocks
      ensures Valid()
      ensures View() == StepView(old(View()), disk, bl, at, infinite, worldRadius)
      ensures events == old(events) + StepEvents(blockTypes, old(View()), disk, bl, at, infinite, worldRadius)
      ensures forall c :: c in loadedChunks.Values ==> c in old(loadedChunks.Values) || fresh(c)
    {
      var pos := BlastPos(bl, at);
      if InBall(bl.origin, bl.strength, pos) {
        ClearVoxel(pos);
      }
    }

    /** The body of the voxel test: a tnt block at pos is triggered, then pos
        is set to `empty` with setBlockAndMesh. */
    method ClearVoxel(pos: Coord)
      requires Valid()
      modifies this`loadedChunks, this`events, loadedChunks.Values`blocks
      ensures Valid()
      ensures View() == WriteView(old(View()), disk, pos, Empty, infinite, worldRadius)
      ensures events == old(events) + ClearEvents(blockTypes, old(View()), disk, pos, infinite, worldRadius)
      ensures forall c :: c in loadedChunks.Values ==> c in old(loadedChunks.Values) || fresh(c)
    {
      ghost var v0, e0 := View(), events;
      var cur := GetBlock(pos);
      if cur.kind == Tnt {
        events := events + [Interact(cur, pos)];
      }
      assert View() == v0 && events == e0 + TntEvents(blockTypes, v0, pos);
      SetBlockAndMesh(pos, Empty, true);
      AppendMore(e0, TntEvents(blockTypes, v0, pos), WriteEvents(blockTypes, v0, disk, pos, Empty, true, infinite, worldRadius));
    }

    /** The voxel loop of createExplosion: x, then y, then z over the cube of
        radius ceil(strength) around the origin (ExplosionEffect says what
        that does to the blocks). */
    method CreateExplosion(strength: real, origin: Coord)
      requires Valid()
      modifies this`loadedChunks, this`events, loadedChunks.Values`blocks
      ensures Valid()
      ensures View() == ExplosionView(old(View()), disk, origin, strength, infinite, worldRadius)
      ensures old(events) <= events
    {
      ghost var v0, e0 := View(), events;
      var size := Ceil(strength);
      var bl := Blast(origin, strength, size);
      var x := -size;
      while x <= size
        invariant Valid()
        invariant -size <= x && (x <= size + 1 || x == -size)
        invariant View() == CubeView(v0, disk, bl, x, infinite, worldRadius)
        invariant e0 <= events
        invariant forall c :: c in loadedChunks.Values ==> c in old(loadedChunks.Values) || fresh(c)
      {
        ExplodePlane(bl, x);
        x := x + 1;
      }
    }

    /** Plane x of the explosion loop. */
    method ExplodePlane(bl: Blast, x: int)
      requires Valid() && bl.size >= 0
      modifies this`loadedChunks, this`events, loadedChunks.Values`blocks
      ensures Valid()
      ensures View() == PlaneView(old(View()), disk, bl, x, bl.size + 1, infinite, worldRadius)
      ensures old(events) <= events
      ensures forall c :: c in loadedChunks.Values ==> c in old(loadedChunks.Values) || fresh(c)
    {
      ghost var v0, e0 := View(), events;
      var y := -bl.size;
      while y <= bl.size
        invariant Valid()
        invariant -bl.size <= y <= bl.size + 1
        invariant View() == PlaneView(v0, disk, bl, x, y, infinite, worldRadius)
        invariant e0 <= events
        invariant forall c :: c in loadedChunks.Values ==> c in old(loadedChunks.Values) || fresh(c)
      {
        ExplodeRow(bl, x, y);
        y := y + 1;
      }
    }

    /** Row (x, y) of the explosion loop. */
    method ExplodeRow(bl: Blast, x: int, y: int)
      requires Valid() && bl.size >= 0
      modifies this`loadedChunks, this`events, loadedChunks.Values`blocks
      ensures Valid()
      ensures View() == RowView(old(View()), disk, bl, x, y, bl.size + 1, infinite, worldRadius)
      ensures old(events) <= events
      ensures forall c :: c in loadedChunks.Values ==> c in old(loadedChunks.Values) || fresh(c)
    {
      ghost var v0, e0 := View(), events;
      var z := -bl.size;
      while z <= bl.size
        invariant Valid()
        invariant -bl.size <= z <= bl.size + 1
        invariant View() == RowView(v0, disk, bl, x, y, z, infinite, worldRadius)
        invariant e0 <= events
        invariant forall c :: c in loadedChunks.Values ==> c in old(loadedChunks.Values) || fresh(c)
      {
        ExplodeAt(bl, Coord(x, y, z));
        z := z + 1;
      }
    }

    /** pushing a chunk onto unloadChunkBuffer (ChunkBuffer.Push). */
    method PushUnload(c: Chunk)
      modifies this`unloadChunkBuffer
      ensures unloadChunkBuffer == old(unloadChunkBuffer) + multiset{c}
    {
      unloadChunkBuffer := unloadChunkBuffer + multiset{c};
    }

    /** ChunkBuffer.pop on the unload queue: takes out some queued chunk. */
    method PopUnload() returns (c: Chunk)
      requires |unloadChunkBuffer| > 0
      modifies this`unloadChunkBuffer
      ensures c in old(unloadChunkBuffer) && unloadChunkBuffer == old(unloadChunkBuffer) - multiset{c}
    {
      c :| c in unloadChunkBuffer;
      unloadChunkBuffer := unloadChunkBuffer - multiset{c};
    }

    /** unloadFromQueue: pops and unloads queued chunks until the queue is
        empty, or at least minUnloads were unloaded and the time budget is
        spent (withinBudget(i): the stopwatch check before pop i).  Each
        popped chunk is written to persistence, hidden and dropped from the
        resident map; `popped` lists them in order. */
    method UnloadFromQueue(minUnloads: int, withinBudget: nat -> bool)
      returns (ghost popped: seq<Chunk>, ghost unloaded: seq<Unloaded>)
      requires Valid()
      modifies this`loadedChunks, this`disk, this`events, this`unloadChunkBuffer
      ensures Valid()
      ensures multiset(popped) + unloadChunkBuffer == old(unloadChunkBuffer)
      ensures |popped| == Drained(|old(unloadChunkBuffer)|, minUnloads, withinBudget, 0)
      ensures |unloaded| == |popped|
      ensures forall i :: 0 <= i < |popped| ==>
                unloaded[i] == Snapshot(popped[i])
      ensures disk == PersistAll(old(disk), unloaded)
      ensures events == old(events) + Deactivations(unloaded)
      ensures loadedChunks == old(loadedChunks) - CoordsOf(unloaded)
    {
      ghost var n, queued, disk0, events0, loaded0 := |unloadChunkBuffer|, unloadChunkBuffer, disk, events, loadedChunks;
      var remaining := |unloadChunkBuffer|;
      var unloads := 0;
      popped, unloaded := [], [];
      while remaining > 0 && (unloads < minUnloads || withinBudget(unloads))
        invariant Valid()
        invariant remaining == |unloadChunkBuffer| && unloads == |popped| == |unloaded| && unloads + remaining == n
        invariant multiset(popped) + unloadChunkBuffer == queued
        invariant Drained(n, minUnloads, withinBudget, unloads) == Drained(n, minUnloads, withinBudget, 0)
        invariant forall i :: 0 <= i < |popped| ==>
                    unloaded[i] == Snapshot(popped[i])
        invariant disk == PersistAll(disk0, unloaded)
        invariant events == events0 + Deactivations(unloaded)
        invariant loadedChunks == loaded0 - CoordsOf(unloaded)
      {
        var c := PopUnload();
        ghost var u := Snapshot(c);
        UnloadStep(unloaded, u, disk0);
        RemoveMore(loaded0, CoordsOf(unloaded), u.at);
        AppendMore(events0, Deactivations(unloaded), Deactivation(u.handle));
        UnloadChunk(c);
        popped, unloaded := popped + [c], unloaded + [u];
        remaining := remaining - 1;
        unloads := unloads + 1;
      }
    }
  }
}

