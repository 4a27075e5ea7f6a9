/** Splitting a world block position into a chunk coordinate and a block
    coordinate inside that chunk, and the six face neighbours of a position
    (World.cs). */
module WorldCoords {
  import opened Vectors
  import opened Chunks

  /** The chunk that holds world position w: floor division by CHUNK_SIZE,
      written with Dafny's Euclidean operators (the divisor is positive). */
  function FloorChunk(w: Coord): Coord {
    Coord(w.x / CHUNK_SIZE, w.y / CHUNK_SIZE, w.z / CHUNK_SIZE)
  }

  /** Where w lies inside FloorChunk(w). */
  function FloorLocal(w: Coord): (b: Coord)
    ensures InChunk(b)
  {
    Coord(w.x % CHUNK_SIZE, w.y % CHUNK_SIZE, w.z % CHUNK_SIZE)
  }

  /** One axis of the split as World.cs computes it: C#'s truncating `/` and
      `%`, then a negative remainder moves the chunk down by one and the block
      up by CHUNK_SIZE. */
  function SplitAxis(w: int): (r: (int, int))
    ensures 0 <= r.1 < CHUNK_SIZE && CHUNK_SIZE * r.0 + r.1 == w
  {
    var c := TruncDiv(w, CHUNK_SIZE);
    var b := TruncRem(w, CHUNK_SIZE);
    if b < 0 then (c - 1, b + CHUNK_SIZE) else (c, b)
  }

  /** The corrected truncating split is floor division: the block lies in
      [0, CHUNK_SIZE), chunk and block recombine to w, and both agree with
      Euclidean division. */
  lemma SplitAxisIsFloor(w: int)
    ensures 0 <= SplitAxis(w).1 < CHUNK_SIZE
    ensures CHUNK_SIZE * SplitAxis(w).0 + SplitAxis(w).1 == w
    ensures SplitAxis(w).0 == w / CHUNK_SIZE && SplitAxis(w).1 == w % CHUNK_SIZE
  {
    var (c, b) := SplitAxis(w);
    FloorUnique(w, c, b);
  }

  /** Quotient and remainder by CHUNK_SIZE are unique. */
  lemma FloorUnique(w: int, c: int, b: int)
    requires 0 <= b < CHUNK_SIZE && CHUNK_SIZE * c + b == w
    ensures c == w / CHUNK_SIZE && b == w % CHUNK_SIZE
  {
    var q, r := w / CHUNK_SIZE, w % CHUNK_SIZE;
    assert CHUNK_SIZE * q + r == w;
    assert CHUNK_SIZE * (c - q) == r - b;
  }

  /** World.WorldToChunkCoords(Vector3Int): only the chunk part is corrected. */
  function WorldToChunkCoords(w: Coord): (c: Coord)
    ensures c == FloorChunk(w)
  {
    var q := Coord(TruncDiv(w.x, CHUNK_SIZE), TruncDiv(w.y, CHUNK_SIZE), TruncDiv(w.z, CHUNK_SIZE));
    var r := Coord(TruncRem(w.x, CHUNK_SIZE), TruncRem(w.y, CHUNK_SIZE), TruncRem(w.z, CHUNK_SIZE));
    SplitAxisIsFloor(w.x);
    SplitAxisIsFloor(w.y);
    SplitAxisIsFloor(w.z);
    Coord(if r.x < 0 then q.x - 1 else q.x,
          if r.y < 0 then q.y - 1 else q.y,
          if r.z < 0 then q.z - 1 else q.z)
  }

  /** The split at the head of setBlock, setBlockAndMesh and getBlock:
      (chunk coordinate, block coordinate). */
  function SplitWorld(w: Coord): (r: (Coord, Coord))
    ensures InChunk(r.1)
  {
    SplitAxisIsFloor(w.x);
    SplitAxisIsFloor(w.y);
    SplitAxisIsFloor(w.z);
    (Coord(SplitAxis(w.x).0, SplitAxis(w.y).0, SplitAxis(w.z).0),
     Coord(SplitAxis(w.x).1, SplitAxis(w.y).1, SplitAxis(w.z).1))
  }

  /** The split is floor division by CHUNK_SIZE on every axis, and chunk and
      block coordinate recombine to the position. */
  lemma SplitWorldIsFloor(w: Coord)
    ensures Plus(Times(CHUNK_SIZE, SplitWorld(w).0), SplitWorld(w).1) == w
    ensures SplitWorld(w) == (FloorChunk(w), FloorLocal(w))
  {
    SplitAxisIsFloor(w.x);
    SplitAxisIsFloor(w.y);
    SplitAxisIsFloor(w.z);
  }

  /** Round trip the other way: joining a chunk coordinate and an in-chunk
      block coordinate, then splitting, gives both back. */
  lemma SplitJoin(c: Coord, b: Coord)
    requires InChunk(b)
    ensures SplitWorld(Plus(Times(CHUNK_SIZE, c), b)) == (c, b)
  {
    var w := Plus(Times(CHUNK_SIZE, c), b);
    SplitWorldIsFloor(w);
    FloorUnique(w.x, c.x, b.x);
    FloorUnique(w.y, c.y, b.y);
    FloorUnique(w.z, c.z, b.z);
  }

  /** A chunk's worldCoords (CHUNK_SIZE * chunkCoords) is the world position
      of its block (0, 0, 0). */
  lemma ChunkOrigin(c: Coord)
    ensures SplitWorld(Times(CHUNK_SIZE, c)) == (c, Coord(0, 0, 0))
  {
    assert Plus(Times(CHUNK_SIZE, c), Coord(0, 0, 0)) == Times(CHUNK_SIZE, c);
    SplitJoin(c, Coord(0, 0, 0));
  }

  /** The worked example with negative coordinates. */
  lemma SplitNegativeExample()
    ensures SplitWorld(Coord(-1, 5, 20)) == (Coord(-1, 0, 1), Coord(15, 5, 4))
  {
    SplitJoin(Coord(-1, 0, 1), Coord(15, 5, 4));
  }

  /** The six face neighbours in the order World.cs visits them:
      +x, -x, +y, -y, +z, -z. */
  function FaceNeighbors(p: Coord): seq<Coord> {
    [Plus(p, Coord(1, 0, 0)), Plus(p, Coord(-1, 0, 0)),
     Plus(p, Coord(0, 1, 0)), Plus(p, Coord(0, -1, 0)),
     Plus(p, Coord(0, 0, 1)), Plus(p, Coord(0, 0, -1))]
  }

  /** The face neighbours are exactly the positions at squared distance 1. */
  lemma FaceNeighborsAtDistanceOne(p: Coord, q: Coord)
    ensures q in FaceNeighbors(p) <==> SqrMagnitude(Minus(q, p)) == 1
  {
    if q in FaceNeighbors(p) {
      NeighborAtDistanceOne(p, q);
    }
    if SqrMagnitude(Minus(q, p)) == 1 {
      DistanceOneIsNeighbor(p, q);
    }
  }

  lemma NeighborAtDistanceOne(p: Coord, q: Coord)
    requires q in FaceNeighbors(p)
    ensures SqrMagnitude(Minus(q, p)) == 1
  {
    var n := FaceNeighbors(p);
    var d := Minus(q, p);
    if q == n[0] {
      assert d == Coord(1, 0, 0);
    } else if q == n[1] {
      assert d == Coord(-1, 0, 0);
    } else if q == n[2] {
      assert d == Coord(0, 1, 0);
    } else if q == n[3] {
      assert d == Coord(0, -1, 0);
    } else if q == n[4] {
      assert d == Coord(0, 0, 1);
    } else {
      assert d == Coord(0, 0, -1);
    }
  }

  lemma DistanceOneIsNeighbor(p: Coord, q: Coord)
    requires SqrMagnitude(Minus(q, p)) == 1
    ensures q in FaceNeighbors(p)
  {
    var n := FaceNeighbors(p);
    var d := Minus(q, p);
    UnitSquare(d.x);
    UnitSquare(d.y);
    UnitSquare(d.z);
    if d.x == 1 {
      assert q == n[0];
    } else if d.x == -1 {
      assert q == n[1];
    } else if d.y == 1 {
      assert q == n[2];
    } else if d.y == -1 {
      assert q == n[3];
    } else if d.z == 1 {
      assert q == n[4];
    } else {
      assert d.z == -1;
      assert q == n[5];
    }
  }

  /** The square of an integer is 0 at 0, 1 at -1 and 1, and above 1
      everywhere else. */
  lemma UnitSquare(a: int)
    ensures a == 0 ==> a * a == 0
    ensures (a == 1 || a == -1) ==> a * a == 1
    ensures (a < -1 || 1 < a) ==> a * a > 1
  {
    if a > 1 {
      assert a * a >= 2 * a;
    } else if a < -1 {
      assert a * a >= -2 * a;
    }
  }
}
