/** Block types and the per-type property record (BlockData.cs). */
module BlockDatas {

  /** The BlockType enum is not part of this model.  The store names only
      `empty`, `chunk_border` and `tnt`; every other member is `Other`. */
  datatype BlockType = Empty | ChunkBorder | Tnt | Other(id: nat)

  /** The value a freshly allocated `Block[16, 16, 16]` holds in every cell:
      C# zero-initialises the struct, i.e. the enum's first member, which this
      model takes to be `empty`. */
  const DEFAULT_BLOCK: BlockType := Empty

  /** Shared, per-type properties of a block (the texture is left out). */
  datatype BlockData = BlockData(
    kind: BlockType,
    isOpaque: bool,
    fullCollision: bool,
    raycastable: bool,
    interactable: bool)

  /** A BlockData built with the field initialisers of BlockData.cs: solid,
      collidable and hit by rays, but not interactable. */
  function NewBlockData(kind: BlockType): (d: BlockData)
    ensures d.kind == kind
    ensures d.isOpaque && d.fullCollision && d.raycastable
    ensures !d.interactable
  {
    BlockData(kind, true, true, true, false)
  }
}
