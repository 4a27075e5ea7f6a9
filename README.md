# Voxel chunk store

A Dafny model of the chunk store at the centre of a Unity voxel game, with
proofs about it. The world is split into 16 x 16 x 16 chunks.

- `World` keeps the resident chunks in a map from chunk coordinate to chunk.
- It answers block reads and writes at world positions, and tells the six
  neighbours of a written block.
- It loads chunks from persistence and writes them back.
- It drains a queue of chunks waiting to be unloaded.
- It clears a ball of blocks in an explosion.
- `WorldLoader` decides around the player's chunk which resident chunks are
  too far away and which chunk coordinates should be loaded.
- `WorldLoader` restarts that check when the player changes chunk, and
  starts a save at a fixed interval.

Modules, one per concept:

| file | module | models |
|---|---|---|
| `wrappers.dfy` | `Wrappers` | `Option` and `Result` for nullable returns and the constructor's exception |
| `vectors.dfy` | `Vectors` | `Vector3Int` as `Coord`, and the C# truncating `/` and `%` |
| `block_data.dfy` | `BlockDatas` | `BlockType` and the `BlockData` record with its field defaults |
| `chunk.dfy` | `Chunks` | the `Chunk` class, its constants, its dimension check, and the block grid as a value |
| `world_coords.dfy` | `WorldCoords` | splitting a world position into chunk and block coordinates, and the six face neighbours |
| `cube_scan.dfy` | `CubeScan` | the x, then y, then z scan of the load check over a cube of offsets; the explosion reuses only its cube test `InCube` |
| `world.dfy` | `Worlds` | the `World` class: chunk map, persistence, block API, unload queue, explosion |
| `world_loader.dfy` | `WorldLoaders` | the `WorldLoader` class: unload and load selection, rescan rule, save timer |

How the model represents the source:

- A chunk's `Block[,,]` array is a value: a `Grid` of 4096 block types.
  A write reassigns `Chunk.blocks`.
  `None` stands for a chunk with no array yet.
- `World.View()` gives the resident chunks as a map from coordinate to
  grid. The block-level operations are specified against it.
- Persistence (`ChunkSerializer`) is the field `disk`, a map from chunk
  coordinate to the grid last written there.
- The unload queue (`ChunkBuffer`) is a multiset. A pop may take any queued
  chunk.
- Calls into code outside the model are appended, in order, to
  `World.events`:
  - `onBlockUpdate` and `interact` on block data;
  - `GameObject.SetActive(false)`.
- Threads and tasks that `WorldLoader` starts are appended to
  `WorldLoader.started`.

Two points of behaviour the model keeps as the code has them:

- `unloadChunk` (`World.cs:183-197`) hides the game object, removes the
  entry from the map, and then writes the chunk. The model runs each
  operation as one sequential step and keeps that order of calls.
- `unloadFromQueue` stops when the queue is empty, so it pops at least
  `min(n, minUnloads)` chunks of a queue of `n`, not always `minUnloads`
  (`DrainBounds`).

## Model

| member | source | states |
|---|---|---|
| Vectors.TruncDiv | Assets/Scripts/World/World.cs:307 | C#'s `/` truncates toward zero: `d * q` lies between 0 and the dividend, less than d away from it |
| Vectors.TruncRem | Assets/Scripts/World/World.cs:308 | C#'s `%` is what is left of the dividend after the truncated quotient |
| Vectors.TruncDivRem | Assets/Scripts/World/World.cs:307-308 | C#'s truncating `/` and `%` recombine to the dividend, and the remainder lies strictly between -d and d with the dividend's sign |
| WorldCoords.SplitAxis | Assets/Scripts/World/World.cs:307-323 | one axis of the split as written: the block part lies in [0, 16) and chunk and block recombine to the position |
| WorldCoords.SplitAxisIsFloor | Assets/Scripts/World/World.cs:307-323 | after the negative-remainder correction, one axis of the split is floor division by 16: the block lies in [0, 16), chunk and block recombine to the position, and both agree with Euclidean `/` and `%` |
| WorldCoords.WorldToChunkCoords | Assets/Scripts/World/World.cs:254-271 | the chunk coordinate it computes is floor division of the position by 16 on every axis |
| WorldCoords.SplitWorld | Assets/Scripts/World/World.cs:362-378 | the block coordinate of the split always addresses a cell of a chunk |
| WorldCoords.SplitWorldIsFloor | Assets/Scripts/World/World.cs:387-403 | the split is (floor(w / 16), w mod 16), and `16 * chunk + block` gives back the position |
| WorldCoords.SplitJoin | Assets/Scripts/World/World.cs:336-337 | splitting `CHUNK_SIZE * chunkCoords + blockCoords` gives back both coordinates, for every in-chunk block coordinate |
| WorldCoords.ChunkOrigin | Assets/Scripts/World/Chunk.cs:21 | a chunk's `worldCoords` is the world position of its block (0, 0, 0) |
| WorldCoords.SplitNegativeExample | Assets/Scripts/World/World.cs:307-323 | position (-1, 5, 20) splits into chunk (-1, 0, 1) and block (15, 5, 4) |
| WorldCoords.FaceNeighborsAtDistanceOne | Assets/Scripts/World/World.cs:352-357 | the six positions visited are exactly those at squared distance 1 |
| Chunks.BlockCount | Assets/Scripts/World/Chunk.cs:7-8 | BLOCK_COUNT equals CHUNK_SIZE cubed, which is 4096 |
| Chunks.GridOf | Assets/Scripts/World/Chunk.cs:10 | the grid holds, at every cell, what the block array holds there |
| Chunks.DefaultGrid | Assets/Scripts/World/World.cs:343 | a freshly allocated block array holds the default block type in every cell |
| Chunks.SetCell | Assets/Scripts/World/World.cs:333 | the written cell holds the new type and every other cell keeps its type |
| Chunks.Written | Assets/Scripts/World/World.cs:331-333 | a chunk with no array gets a default one; then exactly the one cell changes |
| Chunks.Chunk.constructor | Assets/Scripts/World/Chunk.cs:21-25 | `worldCoords` is 16 times `chunkCoords`, the grid and coordinate are the arguments, and no game object or render data is attached |
| Chunks.Chunk.Create | Assets/Scripts/World/Chunk.cs:16-26 | construction fails exactly when some dimension of the array is not 16, reporting the chunk coordinate; otherwise the new chunk holds the array's contents, with `worldCoords == 16 * chunkCoords` and no handles |
| BlockDatas.NewBlockData | Assets/Scripts/World/BlockData/BlockData.cs:5-9 | a new BlockData is opaque, fully collidable and raycastable, and not interactable |
| Worlds.BaseInteract | Assets/Scripts/World/BlockData/BlockData.cs:12-14 | the base `interact` changes neither the chunk nor the world |
| Worlds.InBounds | Assets/Scripts/World/World.cs:61-65 | a chunk is in bounds exactly when the world is infinite or each coordinate is smaller in magnitude than the radius on that axis; a bounded world with a non-positive radius component accepts nothing |
| Worlds.InBoundsBox | Assets/Scripts/World/World.cs:61-65 | an infinite world accepts every chunk; a bounded world of radius 3 accepts exactly the chunks with all coordinates in [-2, 2] (an open box) |
| Worlds.ReadAfterWrite | Assets/Scripts/World/World.cs:326-349 | reading a position right after writing t there gives t |
| Worlds.WriteKeepsOthers | Assets/Scripts/World/World.cs:333 | a write changes the type at no other position of a resident chunk |
| Worlds.WriteEffect | Assets/Scripts/World/World.cs:341-346 | after a write, the written position holds t; the other cells of a chunk that was not resident hold what the write started from; everything else is unchanged |
| Worlds.ExplosionClearsBall | Assets/Scripts/World/World.cs:78-87 | for non-negative strength, the cube of radius ceil(strength) covers the whole ball, so the loop clears exactly the offsets with squared length below strength squared |
| Worlds.ExplosionEffect | Assets/Scripts/World/World.cs:80-99 | after the voxel loop, every blast position in an in-bounds chunk is `empty`; every other position of a resident chunk holds what its chunk started from; no chunk is dropped; each newly resident chunk is in bounds and contains a blast position |
| Worlds.BlastStep | Assets/Scripts/World/World.cs:84-96 | one iteration of the loop clears exactly its own position when that passes the strict `<` test, and keeps the loop invariant |
| Worlds.RowBlasted | Assets/Scripts/World/World.cs:84-97 | running the z loop of a row keeps the loop invariant |
| Worlds.PlaneBlasted | Assets/Scripts/World/World.cs:82-98 | running the y loop of a plane keeps the loop invariant |
| Worlds.CubeBlasted | Assets/Scripts/World/World.cs:80-99 | running the x loop keeps the loop invariant from the start |
| Worlds.Drained | Assets/Scripts/World/World.cs:137-145 | the number of pops stops at the queue size; every check before it passed (floor not reached, or time left); stopping early means the floor was reached and the time budget spent |
| Worlds.DrainBounds | Assets/Scripts/World/World.cs:137-145 | unloadFromQueue pops at most the n queued chunks, and at least min(n, minUnloads) whatever the clock says |
| Worlds.DrainSpentBudget | Assets/Scripts/World/World.cs:139 | with the time budget already spent, exactly min(n, minUnloads) chunks are popped |
| Worlds.DrainAmpleBudget | Assets/Scripts/World/World.cs:139 | with time to spare at every check, the whole queue is drained |
| Worlds.UnloadStep | Assets/Scripts/World/World.cs:141-142 | unloading one more chunk extends the persisted writes, the SetActive calls and the removed coordinates by that chunk's |
| Worlds.World.constructor | Assets/Scripts/World/World.cs:28-36 | a new world is infinite, has radius (3, 3, 3), and has no resident or queued chunks |
| Worlds.World.ChunkInBounds | Assets/Scripts/World/World.cs:61-65 | an infinite world accepts every chunk; a bounded one accepts exactly the chunks whose coordinates are smaller in magnitude than `worldRadius` on every axis |
| Worlds.World.GetBlockAt | Assets/Scripts/World/World.cs:406-423 | getBlock(chunk, block) answers for the world position the two coordinates join to: `chunk_border` for a chunk that is not resident, `empty` for one with no array, the stored type otherwise |
| Worlds.World.GetBlock | Assets/Scripts/World/World.cs:383-405 | getBlock(world) splits as written and reads the resident chunk that holds p by floor division, at p's floor remainder: `chunk_border` where none is resident, `empty` in a chunk with no array |
| Worlds.World.ReadChunk | Assets/Scripts/World/World.cs:236 | reading persistence gives null exactly when nothing is saved under the coordinate; otherwise a new chunk with the saved grid |
| Worlds.World.CreateChunk | Assets/Scripts/World/World.cs:171-182 | the chunk is inserted under its coordinate exactly when that is in bounds and not already taken; otherwise the map is unchanged |
| Worlds.World.GetChunk | Assets/Scripts/World/World.cs:224-249 | returns null, changing nothing, exactly when the coordinate is out of bounds or neither resident nor saved; returns the resident chunk without change; otherwise makes a new chunk from the saved grid resident and returns it; no other entry changes |
| Worlds.World.AddResident | Assets/Scripts/World/World.cs:240 | the chunk is added under its coordinate and nothing else changes |
| Worlds.World.LoadChunkFromFile | Assets/Scripts/World/World.cs:148-170 | as written: a saved, in-bounds, non-resident chunk becomes resident, nothing else changes, and the result is false on every path |
| Worlds.World.LoadChunkFromFileReporting | Assets/Scripts/World/World.cs:148-170 | corrected: the result is true exactly when the chunk was read from persistence and made resident |
| Worlds.World.WriteChunk | Assets/Scripts/World/World.cs:195 | persistence now holds the chunk's grid under its coordinate |
| Worlds.World.UnloadChunk | Assets/Scripts/World/World.cs:183-197 | the chunk's coordinate is removed from the map and no other entry changes; persistence holds its grid; its game object, if any, receives SetActive(false) |
| Worlds.World.UnloadChunkAt | Assets/Scripts/World/World.cs:198-206 | succeeds exactly when a chunk is resident at the coordinate, which is then removed and saved with its current grid, and its game object, if any, receives SetActive(false); otherwise nothing changes |
| Worlds.World.SaveAll | Assets/Scripts/World/World.cs:37-55 | persistence afterwards holds every resident chunk's grid, and all other saved grids are unchanged |
| Worlds.World.ResolvedPartition | Assets/Scripts/World/World.cs:210-217 | the found and to-generate lists partition the request: together they hold each requested coordinate as often as the request does |
| Worlds.World.ResolvedMembers | Assets/Scripts/World/World.cs:210-217 | a requested coordinate is found exactly when getChunk finds it (in bounds, and resident or saved), and is handed to the generator otherwise |
| Worlds.World.GetChunks | Assets/Scripts/World/World.cs:207-217 | the chunks returned are those getChunk finds, in request order; the coordinates handed on are the others, in request order; the found ones become resident holding their saved grids, and no existing entry changes |
| Worlds.World.Residents | Assets/Scripts/World/World.cs:278-301 | the chunks collected are resident at the probed coordinates, every resident one is collected, and there are at most as many as coordinates probed |
| Worlds.World.GetNeighboringChunks | Assets/Scripts/World/World.cs:272-304 | returns the resident chunks among the six face neighbours, in the order +x, -x, +y, -y, +z, -z |
| Worlds.World.UpdateNeighborBlocks | Assets/Scripts/World/World.cs:350-358 | one onBlockUpdate per face neighbour, in the order +x, -x, +y, -y, +z, -z, each on the block read there |
| Worlds.World.NeighborEventsRead | Assets/Scripts/World/World.cs:352-357 | each neighbour update is made on the block getBlock returns at that neighbour |
| Worlds.World.GetSurroundingBlocks | Assets/Scripts/World/World.cs:424-433 | each of the six direction slots receives getBlock one step away in that direction; the rest of the array is untouched |
| Worlds.World.WriteCell | Assets/Scripts/World/World.cs:331-333 | a chunk with no array gets a fresh one; then exactly the one cell is written |
| Worlds.World.WriteResident | Assets/Scripts/World/World.cs:331-333 | writing a resident chunk's cell changes only that chunk's grid in the view |
| Worlds.World.SetBlockLoaded | Assets/Scripts/World/World.cs:329-340 | the cell is written; with updateNeighbors, the written block and then its six neighbours receive onBlockUpdate, read after the write |
| Worlds.World.SetBlockForced | Assets/Scripts/World/World.cs:341-347 | a new chunk with a default grid and the cell written is returned, and it is registered exactly when in bounds; no neighbour update is made |
| Worlds.World.SetBlockAt | Assets/Scripts/World/World.cs:326-349 | returns null, changing nothing, exactly when getChunk finds nothing and the write is not forced; otherwise the cell is written into the resident, saved or new chunk; neighbour updates happen only on the getChunk path |
| Worlds.World.SetBlock | Assets/Scripts/World/World.cs:305-325 | the write goes to the floor-division split of the position, and the position afterwards reads back the written type whenever the write lands |
| Worlds.World.SetBlockAndMesh | Assets/Scripts/World/World.cs:359-379 | a forced write: in bounds it always lands and reads back; its update calls are those of setBlock |
| Worlds.World.ExplodeAt | Assets/Scripts/World/World.cs:84-96 | an offset passing the strict `<` test has its position cleared with its calls; any other offset changes nothing |
| Worlds.World.ClearVoxel | Assets/Scripts/World/World.cs:89-94 | a tnt block found at the position receives interact, then the position is set to `empty` with neighbour updates |
| Worlds.World.CreateExplosion | Assets/Scripts/World/World.cs:75-99 | the resident chunks afterwards are those of the x, y, z loop over the cube of radius ceil(strength), which ExplosionEffect characterises |
| Worlds.World.ExplodePlane | Assets/Scripts/World/World.cs:82-98 | the resident chunks afterwards are those of the plane's y loop |
| Worlds.World.ExplodeRow | Assets/Scripts/World/World.cs:84-97 | the resident chunks afterwards are those of the row's z loop |
| Worlds.World.PushUnload | Assets/Scripts/World/WorldLoader.cs:95 | the chunk is added to the unload queue |
| Worlds.World.PopUnload | Assets/Scripts/World/World.cs:141 | one queued chunk is taken out of the queue |
| Worlds.World.UnloadFromQueue | Assets/Scripts/World/World.cs:132-147 | pops exactly as many chunks as the drain rule allows; each popped chunk is saved, hidden and removed, in pop order; the queue loses exactly the popped chunks |
| WorldLoaders.LoadListMembers | Assets/Scripts/World/WorldLoader.cs:98-112 | a coordinate is queued for loading exactly when it is in bounds, within squared distance `LoadDist²` of the player and not resident (load soundness and completeness) |
| WorldLoaders.LoadListOrdered | Assets/Scripts/World/WorldLoader.cs:98-110 | the load list is ordered x, then y, then z, ascending, so it has no duplicates |
| WorldLoaders.LoadUnloadGap | Assets/Scripts/World/WorldLoader.cs:87-106 | with LoadDist below UnloadDist, no coordinate queued for loading passes the unload test at the same player position |
| WorldLoaders.StaysAfterStep | Assets/Scripts/World/WorldLoader.cs:13-14 | when LoadDist + 1 < UnloadDist (as with the defaults 5 and 7), a chunk within LoadDist is not unloaded after the player moves to a neighbouring chunk |
| CubeScan.ScanMembers | Assets/Scripts/World/WorldLoader.cs:98-109 | the triple loop collects exactly the accepted positions of the cube |
| CubeScan.ScanOrdered | Assets/Scripts/World/WorldLoader.cs:98-110 | the triple loop visits positions strictly in x, then y, then z order, so none twice |
| WorldLoaders.WorldLoader.constructor | Assets/Scripts/World/WorldLoader.cs:13-35 | LoadDist 5, UnloadDist 7, saveInterval 10, saveTimer 0, empty buffers, the player's chunk remembered and one check started for it |
| WorldLoaders.WorldLoader.Update | Assets/Scripts/World/WorldLoader.cs:36-50 | a check is started exactly when the player's chunk differs from the previous frame's, which is then updated; the timer advances and, once past saveInterval, a save starts and the timer resets |
| WorldLoaders.WorldLoader.SaveOnThread | Assets/Scripts/World/WorldLoader.cs:60-70 | the save timer is reset and a save is started |
| WorldLoaders.WorldLoader.CheckOnThread | Assets/Scripts/World/WorldLoader.cs:71-78 | a check for the player's chunk is started |
| WorldLoaders.WorldLoader.OnApplicationQuit | Assets/Scripts/World/WorldLoader.cs:51-59 | every resident chunk is saved |
| WorldLoaders.WorldLoader.CheckChunkLoading | Assets/Scripts/World/WorldLoader.cs:81-115 | the chunks queued for unloading are exactly the resident ones with squared distance at least `UnloadDist²`, each once; the load list is the ordered scan; toLoad is its length; a load task is started for it |
| WorldLoaders.WorldLoader.SelectUnloads | Assets/Scripts/World/WorldLoader.cs:84-92 | the unload buffer holds exactly the resident chunks too far away, each once |
| WorldLoaders.WorldLoader.QueueUnloads | Assets/Scripts/World/WorldLoader.cs:93-96 | the world's unload queue gains exactly the chunks in the unload buffer |
| WorldLoaders.WorldLoader.ScanLoads | Assets/Scripts/World/WorldLoader.cs:97-112 | the load buffer is the load list of the cube scan |
| WorldLoaders.WorldLoader.ScanPlane | Assets/Scripts/World/WorldLoader.cs:100-111 | one y loop appends the plane's accepted coordinates in order |
| WorldLoaders.WorldLoader.ScanRow | Assets/Scripts/World/WorldLoader.cs:102-110 | one z loop appends the row's accepted coordinates in order |

## Left out

- Worlds.World.CreateExplosion: the contract states the resident chunks exactly but says only that `events` grows. The exact calls are stated per voxel by `ExplodeAt` and `ClearVoxel`. Stating them for the whole triple loop was too costly to verify.
- Worlds.World.ExplodePlane: states its calls only as a growing `events`, as above.
- Worlds.World.ExplodeRow: states its calls only as a growing `events`, as above.
- Chunks.Chunk.Create: the chunk keeps a copy of the array's contents, not the array itself. Aliasing between the caller's array and the chunk is not modelled.
- Block arrays are values. No two chunks can share one, and a write to one chunk's array cannot show through another.
- Worlds.World.GetBlockAt: the map holds no null chunks, so the `chunk == null` branch (`World.cs:412-413`) cannot arise.
- Worlds.World.UnloadChunkAt: the dictionary lookup that throws for a non-resident coordinate is modelled as a `false` result with nothing changed.
- Worlds.World.GetChunks: `WorldGenerator.generateList` and the output list it fills are not part of this model. The method returns the found chunks and the coordinates it would hand to the generator.
- Worlds.World.GetSurroundingBlocks: requires an array of at least six slots. The source indexes slots 0 to 5 without a check, so a shorter array throws `IndexOutOfRangeException`; that exception is not modelled.
- Worlds.World.UnloadFromQueue: the stopwatch is the parameter `withinBudget(i)`, the test made before pop i. `ChunkBuffer` is not part of this model, so a pop takes any queued chunk, and the capacity of 1000 is not modelled.
- WorldLoaders.WorldLoader.SelectUnloads: the order in which the dictionary yields its values is not modelled. The contract states which chunks are selected and that none appears twice, not their order.
- WorldLoaders.WorldLoader.Update: the player's chunk and `Time.deltaTime` are parameters. The `Vector3` overload of `WorldToChunkCoords` (`World.cs:250-253`) truncates floats and is not modelled.
- Threads, tasks and locks: each operation runs as one sequential step. `Thread.Abort`, `Task.Run` and `async` are recorded only as started jobs. Races such as `getBlock` reading the map without a lock are not modelled.
- `loadAll` (`WorldLoader.cs:117-122`) and `MeshGenerator` are not part of this model. This covers spawning, the remesh in `setBlockAndMesh` and the commented-out remesh of `createExplosion`.
- `ChunkSerializer`, directories and world metadata are not part of this model. Persistence is the map `disk`.
- `onBlockUpdate`, the two-argument `interact` that `createExplosion` calls, and `SetActive` are recorded as events. Their effects are not modelled.
- The explosion's entity impulse and particles (`World.cs:121-130`), `spawnEntity` and the object pools are not modelled: they are floating-point and Unity objects.
- `raycast` and `raycastToEmpty` (`World.cs:434-469`) are not modelled: they step in floating point.
- The explosion strength and `WorldLoader.saveTimer` are `real`s. Float rounding is not modelled: not in `explosionStrength * explosionStrength`, not in `Mathf.CeilToInt`, and not in the `saveTimer += Time.deltaTime` accumulation.
- Integers are unbounded. 32-bit overflow, for example in `sqrMagnitude` or in `worldPos.x + 1` near the int limits, is not modelled.
- The `BlockType` enum is not part of this model. A fresh array is taken to hold `empty` in every cell, as the enum's first member.
- The `Direction` enum is not part of this model. Its members are taken to be numbered PosX, PosY, PosZ, NegX, NegY, NegZ from 0.
- `Block.blockTypes` is the function `blockTypes`. It is assumed to give a non-null entry for every type, so `createExplosion`'s null check always passes.
- BlockData's texture is not modelled.

## Findings

| source | as written | input that shows it | evidently intended | confidence | as-written member | corrected member |
|---|---|---|---|---|---|---|
| Assets/Scripts/World/World.cs:148-170 | `loadChunkFromFile` returns false on every path, including the one where it read the chunk and made it resident | an in-bounds coordinate that is not resident but is saved in persistence: the chunk becomes resident and the result is false | the comment above the method: true exactly when the chunk was loaded, so that it gets meshed | high (not executed) | Worlds.World.LoadChunkFromFile | Worlds.World.LoadChunkFromFileReporting |
