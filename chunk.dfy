/** A chunk: a 16 x 16 x 16 grid of blocks with its chunk coordinate and a
    slot for the externally owned visual handle (Chunk.cs). */
module Chunks {
  import opened Wrappers
  import opened Vectors
  import opened BlockDatas

  const CHUNK_SIZE: int := 16
  const BLOCK_COUNT: int := 4096

  /** BLOCK_COUNT is the number of cells of a chunk, CHUNK_SIZE cubed. */
  lemma BlockCount()
    ensures BLOCK_COUNT == CHUNK_SIZE * CHUNK_SIZE * CHUNK_SIZE == 4096
  {
  }

  /** A value snapshot of a block array: BLOCK_COUNT cells, cell b at
      position Index(b). */
  type Grid = g: seq<BlockType> | |g| == BLOCK_COUNT
    witness seq(BLOCK_COUNT, i => DEFAULT_BLOCK)

  /** What persistence keeps of a chunk: its grid, or None for a chunk that
      has no block array yet. */
  type Image = Option<Grid>

  /** An opaque reference to a Unity object (GameObject, MeshData). */
  type ObjectId = nat

  datatype ChunkError = InvalidDimensions(at: Coord)

  predicate HasChunkDims(a: array3<BlockType>) {
    a.Length0 == CHUNK_SIZE && a.Length1 == CHUNK_SIZE && a.Length2 == CHUNK_SIZE
  }

  /** Block coordinates that address a cell of a chunk. */
  predicate InChunk(b: Coord) {
    0 <= b.x < CHUNK_SIZE && 0 <= b.y < CHUNK_SIZE && 0 <= b.z < CHUNK_SIZE
  }

  /** The position of cell b in a grid, x-major like the array:
      (x * CHUNK_SIZE + y) * CHUNK_SIZE + z, with CHUNK_SIZE = 16. */
  function Index(b: Coord): (i: int)
    ensures InChunk(b) ==> 0 <= i < BLOCK_COUNT
  {
    b.x * 256 + b.y * 16 + b.z
  }

  /** The cell at grid position i. */
  function CellAt(i: int): (b: Coord)
    requires 0 <= i < BLOCK_COUNT
    ensures InChunk(b) && Index(b) == i
  {
    var a := i / 16;
    assert i == 16 * a + i % 16 && 0 <= i % 16 < 16;
    assert 0 <= a < 256;
    assert a == 16 * (a / 16) + a % 16 && 0 <= a % 16 < 16;
    Coord(a / 16, a % 16, i % 16)
  }

  /** Distinct cells have distinct positions. */
  lemma IndexInjective(b: Coord, b': Coord)
    requires InChunk(b) && InChunk(b') && Index(b) == Index(b')
    ensures b == b'
  {
    assert b.x * 256 <= Index(b) < b.x * 256 + 256;
    assert b'.x * 256 <= Index(b') < b'.x * 256 + 256;
    assert b.y * 16 <= Index(b) - b.x * 256 < b.y * 16 + 16;
    assert b'.y * 16 <= Index(b') - b'.x * 256 < b'.y * 16 + 16;
  }

  /** Every cell is found again from its position. */
  lemma CellAtIndex(b: Coord)
    requires InChunk(b)
    ensures CellAt(Index(b)) == b
  {
    IndexInjective(CellAt(Index(b)), b);
  }

  function Cell(g: Grid, b: Coord): BlockType
    requires InChunk(b)
  {
    g[Index(b)]
  }

  /** Two shaped grids that agree on every cell are equal. */
  lemma GridsEqual(g: Grid, h: Grid)
    requires forall b :: InChunk(b) ==> Cell(g, b) == Cell(h, b)
    ensures g == h
  {
    forall i | 0 <= i < BLOCK_COUNT
      ensures g[i] == h[i]
    {
      assert Cell(g, CellAt(i)) == Cell(h, CellAt(i));
    }
  }

  /** The grid a block array currently holds. */
  function GridOf(a: array3<BlockType>): (g: Grid)
    requires HasChunkDims(a)
    reads a
    ensures forall b :: InChunk(b) ==> Cell(g, b) == a[b.x, b.y, b.z]
  {
    var g := seq(BLOCK_COUNT, i requires 0 <= i < BLOCK_COUNT reads a => var b := CellAt(i); a[b.x, b.y, b.z]);
    assert forall b :: InChunk(b) ==> Cell(g, b) == a[b.x, b.y, b.z] by {
      forall b | InChunk(b) {
        CellAtIndex(b);
      }
    }
    g
  }

  /** The grid of a freshly allocated block array. */
  function DefaultGrid(): (g: Grid)
    ensures forall b :: InChunk(b) ==> Cell(g, b) == DEFAULT_BLOCK
  {
    seq(BLOCK_COUNT, i => DEFAULT_BLOCK)
  }

  function SetCell(g: Grid, b: Coord, t: BlockType): (r: Grid)
    requires InChunk(b)
    ensures Cell(r, b) == t
    ensures forall b' :: InChunk(b') && b' != b ==> Cell(r, b') == Cell(g, b')
  {
    var r := g[Index(b) := t];
    assert forall b' :: InChunk(b') && b' != b ==> Cell(r, b') == Cell(g, b') by {
      forall b' | InChunk(b') && b' != b
        ensures Cell(r, b') == Cell(g, b')
      {
        if Index(b') == Index(b) {
          IndexInjective(b', b);
        }
      }
    }
    r
  }

  /** The image of a chunk after one cell is written; a chunk without a block
      array first gets a fresh one. */
  function Written(img: Image, b: Coord, t: BlockType): (r: Image)
    requires InChunk(b)
    ensures r.Some?
    ensures Cell(r.value, b) == t
    ensures forall b' :: InChunk(b') && b' != b ==>
              Cell(r.value, b') == if img.None? then DEFAULT_BLOCK else Cell(img.value, b')
  {
    match img
    case None => Some(SetCell(DefaultGrid(), b, t))
    case Some(g) => Some(SetCell(g, b, t))
  }

  /** A chunk.  Its Block[,,] array is held by value (see Create): a write
      reassigns `blocks` with the cell changed.  The two coordinates are
      assigned only by the constructor. */
  class Chunk {
    var blocks: Image
    const worldCoords: Coord
    const chunkCoords: Coord
    var gameObject: Option<ObjectId>
    var renderData: Option<ObjectId>

    /** The assignments of the constructor, once its dimension check passed
        (see Create). */
    constructor (blocks: Grid, chunkCoords: Coord)
      ensures this.blocks == Some(blocks) && this.chunkCoords == chunkCoords
      ensures worldCoords == Times(CHUNK_SIZE, chunkCoords)
      ensures gameObject == None && renderData == None
    {
      this.worldCoords := Times(CHUNK_SIZE, chunkCoords);
      this.chunkCoords := chunkCoords;
      this.blocks := Some(blocks);
      gameObject := None;
      renderData := None;
    }

    /** `new Chunk(blocks, chunkCoords)`: fails, as the constructor throws,
        unless all three dimensions of the array are CHUNK_SIZE; otherwise the
        chunk holds what the array holds. */
    static method Create(blocks: array3<BlockType>, chunkCoords: Coord)
      returns (r: Result<Chunk, ChunkError>)
      ensures r.Failure? <==> !HasChunkDims(blocks)
      ensures r.Failure? ==> r.error == InvalidDimensions(chunkCoords)
      ensures r.Success? ==> fresh(r.value)
      ensures r.Success? ==> r.value.blocks == Some(GridOf(blocks)) && r.value.chunkCoords == chunkCoords
      ensures r.Success? ==> r.value.worldCoords == Times(CHUNK_SIZE, chunkCoords)
      ensures r.Success? ==> r.value.gameObject == None && r.value.renderData == None
    {
      if blocks.Length0 != CHUNK_SIZE || blocks.Length1 != CHUNK_SIZE || blocks.Length2 != CHUNK_SIZE {
        return Failure(InvalidDimensions(chunkCoords));
      }
      var c := new Chunk(GridOf(blocks), chunkCoords);
      return Success(c);
    }
  }
}
