# Terrain generation: a verified model

This project models the height-map core of the TerrainGenerationGold terrain
demo in Dafny:

- **`CustomTerrain`** (module `Terrain`) holds a `(dx+1) x (dz+1)` height map.
  It fills the map with one of five algorithms, chosen through an
  enum-to-member-function dispatch map. Its `generate` then turns the map
  into a mesh:
  - every vertex gets its scaled height;
  - a running minimum and maximum become the `heightRange` uniform;
  - each vertex gets a normal estimated from its neighbouring heights.
- **Midpoint displacement** (modules `Subdivision` and `MidpointDisplacement`)
  first seeds the corners of the coarsest square lattice. Each pass then fills
  the centres and sides of a lattice half as fine. A filled cell takes the
  mean of its neighbours plus a random draw, and the draw range shrinks by 0.7
  per pass.
- **Diamond square** (module `DiamondSquare`) refines a flat `W*H` buffer. The
  buffer is addressed with power-of-two wrap-around. The result is copied
  back into the map as a seamless tile.
- **Perlin and fBm fills** (module `NoiseFill`) sample the gradient noise of
  `PerlinNoiseGenerator` (module `PerlinNoise`). The fBm fill sums 16 octaves.
  The multi-fractal algorithm is empty.
- **`CustomTerrain2`** (module `Terrain2`) is the older class. Its midpoint
  displacement is hard-coded to a 33 x 33 grid with its own seeding, range
  and min/max tracking. Its `update` copies the map into the vertices.
- **The mesh layout** (module `Mesh`) is shared by both classes. The vertex of
  cell (x, z) sits at index `x*(dz+1)+z`, and each quad of the grid gets two
  triangles.

How the model represents the source:

- Heights and noise values are `real`.
- The random source `octet::random` is a class whose `k`-th `get(lo, hi)`
  returns `lo + (hi-lo)*u(k)` for an oracle `u`. The oracle is valid when
  all its values lie in [0, 1].
- The 256 uniform choices of the permutation shuffle are a parameter, and so
  are the eight gradient vectors.
- The in-place algorithms are methods with loops over `array2`/`array`
  buffers.
- Ghost write records prove that a cell is read only after it was written,
  and that each write's value is the mean of its neighbours plus its draw.
  For midpoint displacement the record shows each cell written exactly
  once. The diamond-square torus wraps, so several writes can land in one
  slot; its record keeps the last write of each slot. It also shows the
  shape of the refinement: seeds lie exactly on the coarsest lattice, and
  every write reads only slots that hold coarser writes.

Source paths below are relative to the repository's own source directory.

## Model

| member | source | states |
|---|---|---|
| RandomSource.Random.Sample | CustomTerrain.h:236 | when the oracle is valid (every unit sample in [0, 1]) and lo ≤ hi, a draw for the range [lo, hi] lies in [lo, hi] |
| RandomSource.Random.Get | CustomTerrain.h:236 | `rand.get(lo, hi)` consumes exactly one draw and returns that draw's value, which lies in [lo, hi] when the oracle is valid |
| Bits.Mask | PerlinNoiseGenerator.h:89-92 | `n & m` on the 32-bit pattern of any int n never exceeds m |
| Bits.AndLowMask | CustomTerrain.h:350 | for a power of two p, `a & (p-1)` equals `a % p` on naturals |
| Bits.MaskIsMod | CustomTerrain.h:350 | for a power of two p ≤ 2^32, `n & (p-1)` on the two's-complement pattern equals Euclidean `n % p`, negative n included |
| Lattice.StepFlips | CustomTerrain.h:244-248 | one step of `offset` flips the odd/even toggle, so `isOddX` ⇔ (x / offset) is odd |
| Lattice.OddMultiple | CustomTerrain.h:255-271 | an odd multiple of o lies halfway between two multiples of 2o, at least o from 0 |
| Lattice.EvenMultiple | CustomTerrain.h:250 | a multiple of o is an even multiple exactly when it is a multiple of 2o, so cells on lattice 2o are skipped |
| Lattice.CellsCount | CustomTerrain.h:232-248 | the grid has (W+1)(H+1) cells |
| Subdivision.Neighbours | CustomTerrain.h:255-272 | the cells a displaced cell reads: two or four, at distance `offset` |
| Subdivision.ZeroDrawMean | CustomTerrain.h:258-271 | when the draw is 0, a centre is the exact mean of its four diagonal neighbours at distance `offset`, and a side is the mean of its two neighbours, all of them already written |
| Subdivision.NeighbourMean | CustomTerrain.h:258-271 | the mean computed from the grid equals the mean of the neighbours' recorded values |
| Subdivision.CellNeighbours | CustomTerrain.h:250-271 | every `x±offset` and `y±offset` read stays in [0,W]×[0,H] and lands on lattice 2·offset, finished in an earlier pass |
| Subdivision.DisplaceCell | CustomTerrain.h:250-276 | writes one cell, which was unwritten and is off lattice 2o, with its neighbours' mean plus one draw; nothing outside the grid changes |
| Subdivision.VisitCell | CustomTerrain.h:248-277 | one step of the column loop: the toggle follows x / o, and only a centre or side cell is written, once, with one draw; the written cells stay exactly those Done so far |
| Subdivision.SweepCell | CustomTerrain.h:248-277 | one iteration of the column loop, measured from the start of the row: earlier writes are kept, every new write has offset o and the range of the pass and lies between the running min and max, and one draw is made per new write |
| Subdivision.SweepColumns | CustomTerrain.h:246-278 | the column loop of row y ends past W with exactly the centres and sides of row y added, each with one draw and the neighbours' mean, and nothing outside the grid changed |
| Subdivision.SweepRow | CustomTerrain.h:244-278 | a row of the pass writes exactly its cells off lattice 2o, keeps all earlier writes, makes one draw per write, and steps y by o with the odd/even toggle flipped |
| Subdivision.SweepPass | CustomTerrain.h:242-279 | the pass with offset o writes exactly the cells of lattice o off lattice 2o, one draw each, and never rewrites a cell of lattice 2o |
| Subdivision.SeedCell | CustomTerrain.h:236 | seeds one lattice corner with one draw |
| Subdivision.SeedRow | CustomTerrain.h:234-237 | seeds one row of lattice corners |
| Subdivision.SeedCorners | CustomTerrain.h:231-238 | the corner loops write exactly the cells of the coarsest lattice, one draw each |
| Subdivision.PassRange | CustomTerrain.h:282 | the range of a later pass stays positive and no larger than the first range |
| Subdivision.WriteCount | CustomTerrain.h:240-284 | a write record that covers the grid has (W+1)(H+1) entries |
| MidpointDisplacement.GridSize | CustomTerrain.h:225 | `gridSize` is the smaller of the two sides |
| MidpointDisplacement.HalvingsCount | CustomTerrain.h:226-283 | starting from offset G/2 with G = 2^n, the halving loop runs exactly n passes |
| MidpointDisplacement.NextRange | CustomTerrain.h:282-283 | after each pass the random range is multiplied by 0.7 and the offset is halved |
| MidpointDisplacement.RunPass | CustomTerrain.h:242-283 | one iteration of the `while` loop keeps the whole invariant: coverage, schedule and consistency |
| MidpointDisplacement.MidpointDisplacementAlgorithm | CustomTerrain.h:223-285 | every cell is written exactly once, from cells written before it, with one draw of the range of its pass; the passes run with offsets G/2, G/4, …, 1 |
| MidpointDisplacement.SquareCorners | CustomTerrain.h:231-238 | on a square 2^n grid, the seeding writes exactly (0,0), (W,0), (0,W) and (W,W) |
| DiamondSquare.Slot | CustomTerrain.h:348-356 | the wrapped index `(x & (W-1)) + (y & (H-1))*W` lies in [0, W*H) for every x and y, negative ones included |
| DiamondSquare.SlotWrap | CustomTerrain.h:350 | the wrapped index equals `x % W + (y % H) * W` |
| DiamondSquare.SlotCongruent | CustomTerrain.h:350 | two coordinates share a slot if and only if they are congruent mod W and mod H |
| DiamondSquare.SlotPeriodic | CustomTerrain.h:350 | the slot is periodic with period W in x and H in y |
| DiamondSquare.SlotOnto | CustomTerrain.h:350 | every slot of the buffer is the slot of some cell |
| DiamondSquare.CornersAlias | CustomTerrain.h:297-303 | the four seeded corners all alias slot 0 |
| DiamondSquare.SamplePeriodic | CustomTerrain.h:348-351 | `Sample(x+W, y) == Sample(x, y)` and `Sample(x, y+H) == Sample(x, y)` |
| DiamondSquare.SampleAfterSet | CustomTerrain.h:348-356 | after `SetSample(x, y, v)`, a later `Sample` reads v exactly at coordinates congruent to (x, y), and the old value everywhere else |
| DiamondSquare.SetSample | CustomTerrain.h:353-356 | changes exactly the one slot of (x, y) |
| DiamondSquare.SampleSquare | CustomTerrain.h:358-368 | the buffer afterwards is the old buffer with only the slot of (x, y) changed, to the mean of the four diagonal samples size / 2 away plus the value; all four reads hit written slots |
| DiamondSquare.SampleDiamond | CustomTerrain.h:370-380 | the buffer afterwards is the old buffer with only the slot of (x, y) changed, to the mean of the four orthogonal samples size / 2 away plus the value; all four reads hit written slots |
| DiamondSquare.ExpectedSquare | CustomTerrain.h:358-368 | a square centre's entry stores the mean of the samples at its four diagonal corners size / 2 away plus its draw scaled for its step |
| DiamondSquare.ExpectedDiamond | CustomTerrain.h:370-380 | a diamond centre's entry stores the mean of the samples at its four tips size / 2 away plus its draw scaled for its step |
| DiamondSquare.Put | CustomTerrain.h:353-356 | storing in a slot the value its new entry computes, with the next draw, keeps every entry consistent with the buffer when no entry reads that slot |
| DiamondSquare.SquareWrite | CustomTerrain.h:358-368 | a square write keeps the record consistent (its entry's value is what it computes from the buffer), reads only lattice s, and changes only its own slot |
| DiamondSquare.DiamondWrite | CustomTerrain.h:370-380 | a diamond write keeps the record consistent, reads only lattice s or square centres, and changes only its own slot |
| DiamondSquare.ClassRead | CustomTerrain.h:362-377 | a read at a written residue class hits a written slot |
| DiamondSquare.SquareReads | CustomTerrain.h:358-368 | every read of a square step hits a slot of the coarser lattice, which is already written |
| DiamondSquare.DiamondReads | CustomTerrain.h:370-380 | every read of a diamond step hits a lattice corner or a square centre, both already written |
| DiamondSquare.SquareRow | CustomTerrain.h:332-335 | one row of the square loop writes all centres of that row, each entry consistent with the buffer, and makes W/s + 1 draws; no other slot changes |
| DiamondSquare.SquareCell | CustomTerrain.h:334 | one `SampleSquare` with a fresh draw times scale: the record stays consistent and only the centre's slot changes, with one draw |
| DiamondSquare.DiamondCell | CustomTerrain.h:342-343 | one `SampleDiamond` with a fresh draw times scale: the record stays consistent and only that slot changes, with one draw |
| DiamondSquare.DiamondPair | CustomTerrain.h:342-343 | the body of the inner diamond loop writes the slots of (x + h, y) and (x, y + h), with two draws, and nothing else |
| DiamondSquare.DiamondColumn | CustomTerrain.h:340-344 | one round of the inner diamond loop extends the finished part of both rows by one column and the draws by two |
| DiamondSquare.DiamondRow | CustomTerrain.h:340-344 | one row of the diamond loop writes both edge midpoints of every cell in that row, each entry consistent with the buffer, with 2(W/s + 1) draws; no other slot changes |
| DiamondSquare.SquareStep | CustomTerrain.h:330-336 | the square loops write every centre class of the step and nothing else, the record stays consistent, and (W/s + 1)(H/s + 1) draws are made |
| DiamondSquare.DiamondStep | CustomTerrain.h:338-345 | the diamond loops write both edge-midpoint classes of the step and nothing else, the record stays consistent, and 2(W/s + 1)(H/s + 1) draws are made |
| DiamondSquare.DiamondRound | CustomTerrain.h:338-345 | one round of the outer diamond loop extends the finished rows of both midpoint classes by one period, with 2(W/s + 1) more draws |
| DiamondSquare.DiamondSquareCore | CustomTerrain.h:326-346 | one core step writes lattice s/2 from lattice s, every entry consistent with the buffer, touches only the centres and midpoints of step s, and makes 3(W/s + 1)(H/s + 1) draws |
| DiamondSquare.StepsCombine | CustomTerrain.h:326-346 | the square pass and then the diamond pass of step s make one stretch of writes, after which lattice s/2 is written and is all that any entry read |
| DiamondSquare.Refined | CustomTerrain.h:326-346 | the four residue classes of step s make up the lattice of step s/2 |
| DiamondSquare.SeedRow | CustomTerrain.h:299-302 | one row of the seeding loop writes that row's lattice slots, each with its own draw from [lo, hi], and makes W/G + 1 draws |
| DiamondSquare.SeedCell | CustomTerrain.h:301 | `SetSample` of one draw from [lo, hi]: only that slot changes, recorded as a seed |
| DiamondSquare.SeedLattice | CustomTerrain.h:297-303 | the seeding loops write every slot of the coarsest lattice with its own draw from [lo, hi], leave every other slot as it was, and make (W/G + 1)(H/G + 1) draws |
| DiamondSquare.Refine | CustomTerrain.h:305-311 | the loop runs steps G, G/2, …, 2 and stops; afterwards every slot has been written, every entry is consistent with the buffer, and the draws number the sum of 3(W/s + 1)(H/s + 1) over the steps |
| DiamondSquare.SeedsAndSteps | CustomTerrain.h:297-311 | the seeds that were kept and the centres the steps wrote make one record of seeds, square and diamond centres with steps in [1, G]; each write lies where its kind demands (a seed on the lattice of its step, a square centre at s/2 mod s in both coordinates, a diamond centre at s/2 in one and 0 in the other), and every seed has step G |
| DiamondSquare.ClassOf | CustomTerrain.h:297-345 | a write placed as its kind demands, within lattice G, is of its class: it is a seed exactly when its cell is on lattice G, and a seed has step G; a centre of step s is a power of two in [2, G], lies on lattice s/2 but not on lattice s, and is a square centre exactly when both coordinates are s/2 mod s |
| DiamondSquare.ReadCoarse | CustomTerrain.h:358-380 | the corners a square centre of step s reads are on lattice s; the tips a diamond centre reads are on lattice s or are centres of squares of step s |
| DiamondSquare.CoarseFeeds | CustomTerrain.h:326-380 | a write sharing its slot with a cell that a centre of step s reads is a seed, of a larger step, or (for a diamond) a square centre of step s, never a finer write |
| DiamondSquare.RefinedShape | CustomTerrain.h:287-346 | when every slot of the torus is recorded, the whole record has the refinement's shape: every write is of its class, and every slot a write reads holds a seed, a write of a larger step, or, for a diamond, a square centre of the same step |
| DiamondSquare.DisplacementIsScaled | CustomTerrain.h:309-310 | a draw displaces a cell of step s by the draw times the scale of step s, which starts at 1 and halves with each step |
| DiamondSquare.ScaleIsRatio | CustomTerrain.h:291-310 | with power-of-two steps, the scale of step s is s / G |
| DiamondSquare.DoublingScale | CustomTerrain.h:305-311 | when G is s doubled some number of times, the scale of step s times G is s |
| DiamondSquare.Pow2Doubles | CustomTerrain.h:305-311 | every power of two s no larger than the power of two G is G halved some number of times |
| DiamondSquare.RoundsIsProduct | CustomTerrain.h:330-344 | n rounds of a loop stepping by a advance by a·n |
| DiamondSquare.RoundsMultiple | CustomTerrain.h:338-344 | every coordinate the loops reach from 0 in steps of s is a multiple of s |
| DiamondSquare.PositionsIsProduct | CustomTerrain.h:297-303 | a pair of loops stepping by s over [0, W] and [0, H] visits (W/s + 1)(H/s + 1) positions |
| DiamondSquare.AllWritten | CustomTerrain.h:305-311 | a fully refined lattice covers all W*H slots |
| DiamondSquare.CopyOut | CustomTerrain.h:314-320 | the copy-out sets every map cell to the wrapped sample of its coordinates |
| DiamondSquare.Seam | CustomTerrain.h:314-320 | column W samples like column 0 and row H like row 0 |
| DiamondSquare.DiamondSquareAlgorithm | CustomTerrain.h:287-324 | every slot of the torus is written; each holds what its last write computes from the final torus (its seed's draw from [-1, 1], or the mean of the four cells its square or diamond read plus its draw times s / G); draws are used at most once each; a slot holds a seed exactly when its cell is on lattice G, every other slot holds the square or diamond centre its residues mod its step demand, and every cell a write reads holds a coarser write (`Structured`); the map is the wrapped image of the torus, with `vectorMap[W][y] == vectorMap[0][y]` and `vectorMap[x][H] == vectorMap[x][0]`; the steps run G, G/2, …, 2 and the number of draws is (W/G + 1)(H/G + 1) plus 3(W/s + 1)(H/s + 1) per step |
| PerlinNoise.Lerp | PerlinNoiseGenerator.h:19-22 | `lerp(a, b, 0) = a`, `lerp(a, b, 1) = b` and `lerp(a, a, t) = a` |
| PerlinNoise.Fade | PerlinNoiseGenerator.h:24-27 | `fade(0) = 0` and `fade(1) = 1` |
| PerlinNoise.Dot | PerlinNoiseGenerator.h:29-32 | the dot product with the zero offset is 0 |
| PerlinNoise.Trunc | PerlinNoiseGenerator.h:79-81 | the C++ `(int)` cast truncates toward zero, for positive and for negative values |
| PerlinNoise.CellOffset | PerlinNoiseGenerator.h:79-86 | the cell origin x0 satisfies x0 ≤ x ≤ x0+1, so the fraction lies in [0, 1]; the fraction is 0 only at positive integers and 1 at zero and negative integers, so this is not a true floor; off the integers x0 is the floor |
| PerlinNoise.TableIndex | PerlinNoiseGenerator.h:89-92 | `v & 255` lies in [0, 255] for every integer v |
| PerlinNoise.GradientIndex | PerlinNoiseGenerator.h:89-92 | `v & 7` lies in [0, 7] for every integer v |
| PerlinNoise.FillIdentity | PerlinNoiseGenerator.h:62-65 | the first loop leaves the identity table: entry i is i for every i in 0..255 |
| PerlinNoise.Swap | PerlinNoiseGenerator.h:69-72 | one swap keeps the multiset of entries |
| PerlinNoise.SwapEntries | PerlinNoiseGenerator.h:69-72 | exchanging two entries through a temporary changes the table exactly as the swap does |
| PerlinNoise.SwapKeepsPermutation | PerlinNoiseGenerator.h:69-72 | a swap keeps a permutation of 0..255 a permutation |
| PerlinNoise.ShuffledIsPermutation | PerlinNoiseGenerator.h:67-73 | whatever choices of j in [0,255] are made, every stage of the shuffle is a permutation of 0..255: each entry stays in range and none is duplicated or lost |
| PerlinNoise.RandomisePermutations | PerlinNoiseGenerator.h:59-74 | the array ends as the identity shuffled by the given choices, and is a permutation of 0..255 |
| PerlinNoise.PerlinNoiseGenerator.constructor | PerlinNoiseGenerator.h:41-52 | the generator keeps the gradient table and a shuffled permutation table |
| PerlinNoise.PerlinNoiseGenerator.Corner | PerlinNoiseGenerator.h:89-92 | the hashed gradient index of any lattice corner lies in [0, 7] |
| PerlinNoise.PerlinNoiseGenerator.LatticeZero | PerlinNoiseGenerator.h:76-111 | with exact arithmetic, the noise is 0 at every integer lattice point |
| NoiseFill.SampleSquare | CustomTerrain.h:387-394 | the loops fill the (W+1) x (W+1) square with the noise at (x, y) times the frequency; the rows above W keep their values |
| NoiseFill.PerlinNoiseAlgorithm | CustomTerrain.h:382-395 | the Perlin fill samples a fresh generator at frequency 5/(W+1) over the square bounded by `dimensions.x()` in both loops |
| NoiseFill.OctaveClosedForm | CustomTerrain.h:410-418 | octave i samples at frequency 2^i/(W+1) with amplitude 0.65^(i+1) |
| NoiseFill.AmplitudePositive | CustomTerrain.h:411-417 | every amplitude is positive |
| NoiseFill.AmplitudeSeries | CustomTerrain.h:411-417 | the amplitudes form a geometric series: the first n of them plus the tail 0.65^(n+1)/0.35 make exactly 0.65/0.35, so every partial sum stays below 0.65/0.35 |
| NoiseFill.OctaveBoundFactor | CustomTerrain.h:413-418 | adding up B times each amplitude gives B times the amplitude sum |
| NoiseFill.OctaveSumWithin | CustomTerrain.h:413-418 | noise within [-B, B] keeps the octave sum within the added-up per-octave bounds |
| NoiseFill.OctaveSumBound | CustomTerrain.h:413-418 | noise within [-B, B] keeps the n-octave sum within B times the sum of the first n amplitudes |
| NoiseFill.OctaveSumLimit | CustomTerrain.h:397-424 | for any number of octaves, noise within [-B, B] gives an fBm value within B·0.65/0.35 |
| NoiseFill.FbmAt | CustomTerrain.h:409-418 | the octave loop computes the 16-octave sum, with frequency ×2 and amplitude ×0.65 per octave |
| NoiseFill.SampleOctaves | CustomTerrain.h:404-423 | every cell of the map gets its 16-octave sum |
| NoiseFill.FractionalBrownianMotionAlgorithm | CustomTerrain.h:397-424 | a fresh generator's 16-octave sum fills every cell of the (W+1) x (H+1) map |
| NoiseFill.MultiFractalAlgorithm | CustomTerrain.h:426-430 | the map is left exactly as it was |
| Mesh.VertexIndex | CustomTerrain.h:124 | `x*(dz+1)+z` lies in the vertex array, and the cell is recovered from it by division and remainder, so the map is injective |
| Mesh.VertexIndexOnto | CustomTerrain.h:147 | every vertex index is the index of exactly one cell: the layout is a bijection onto [0,(dx+1)(dz+1)) |
| Mesh.FlatPlane | CustomTerrain.h:181-196 | the plane has (dx+1)(dz+1) vertices, and the vertex of cell (x, z) is at height 0 with an up normal |
| Mesh.GetVertexIndexCollides | CustomTerrain.h:218-221 | `x*dz+z` gives the same index to cells (0, dz) and (1, 0), which the layout keeps apart |
| Mesh.CellOf | CustomTerrain.h:124 | decodes a vertex index into the cell it stands for |
| Mesh.QuadAsWritten | CustomTerrain.h:198-215 | the six indices pushed per quad repeat the shared diagonal |
| Mesh.QuadAsWrittenDegenerate | CustomTerrain.h:198-215 | on a 1 x 2 grid, the first triangle pushed joins three cells of one column |
| Mesh.QuadAsWrittenInRange | CustomTerrain.h:198-215 | every index of an as-written quad of a dx x dz grid is below (dx+1)(dz+1), so it names a vertex of the array |
| Mesh.QuadAsWrittenTransposed | CustomTerrain.h:198-215 | on a square grid the as-written quad (x, z) is the layout's quad (z, x): each triangle joins three of its corners, not on one line |
| Mesh.Quad | CustomTerrain.h:198-215 | the corrected quad: six indices, every one a vertex of the grid |
| Mesh.QuadTriangles | CustomTerrain.h:202-212 | the corrected quad's two triangles join the corners (x,z), (x,z+1), (x+1,z) and (x+1,z), (x,z+1), (x+1,z+1), and neither triangle is degenerate |
| Mesh.ColumnQuads | CustomTerrain.h:202-213 | the inner loop pushes the six as-written indices of each quad of the column |
| Mesh.PlaneQuads | CustomTerrain.h:200-215 | the loops push the six as-written indices of every quad, column by column: 6·dx·dz indices |
| Mesh.ColumnQuadsInRange | CustomTerrain.h:202-213 | every as-written index pushed for a column names a vertex of the grid |
| Mesh.PlaneQuadsInRange | CustomTerrain.h:200-215 | every index the as-written loops push names a vertex of the grid |
| Mesh.AppendColumn | CustomTerrain.h:204-213 | the inner index loop appends exactly the column's as-written quads |
| Mesh.AppendQuads | CustomTerrain.h:198-215 | the index loops append exactly the plane's as-written quads to the index buffer |
| Terrain.ColumnEnd | CustomTerrain.h:120-130 | the end of a column of the height loop is the start of the next |
| Terrain.ScaleStep | CustomTerrain.h:124-128 | one step of the height loop sets one vertex's scaled height and keeps min and max bounding every height so far, each attained or still at its start value |
| Terrain.AllScaled | CustomTerrain.h:116-130 | when the loops end, every vertex is scaled and min/max bound every scaled height |
| Terrain.ScaleColumn | CustomTerrain.h:122-129 | the inner height loop scales one column and tracks min and max with the source's comparisons |
| Terrain.ScaleHeights | CustomTerrain.h:116-130 | each vertex of the first block gets `heightMap[x][z]*heightScale`, the rest are untouched, and min ≤ every scaled height ≤ max, each bound attained or still 999999 / -999999 |
| Terrain.PlanarSlopes | CustomTerrain.h:139-145 | on a planar map, the clamped differences, doubled on the border, equal twice the slopes everywhere |
| Terrain.NormalPerpendicular | CustomTerrain.h:135-153 | the corrected normal is perpendicular to both tangent directions of a planar map |
| Terrain.NormalAsWrittenTilted | CustomTerrain.h:139-150 | the normal as written, on a tilted plane, is not perpendicular to it: for h = x it is (2, 2, 0) |
| Terrain.NormalMirror | CustomTerrain.h:139-150 | the normal as written and the corrected normal share the y component 2 and have opposite x and z components |
| Terrain.FlatNormal | CustomTerrain.h:139-150 | a flat map gives the normal (0, 2, 0) before normalisation |
| Terrain.SetNormals | CustomTerrain.h:135-153 | each vertex of the first block gets its cell's normal as written, from clamped, border-doubled differences of the unscaled map; nothing else changes |
| Terrain.FirstRender | CustomTerrain.h:108-153 | after the first `generate`, the vertex of each cell stands on that cell at its scaled height with its normal as written |
| Terrain.Run | CustomTerrain.h:113-114 | calling a handler runs its algorithm with that algorithm's effect on the map: for diamond square, every torus slot is written, consistent with its draw and reads, the writes have the refinement's shape (seeds exactly on lattice G, every read hitting a coarser write), and the map is its seamless wrapped image; for midpoint displacement, every cell is written once from earlier cells; only these two draw from `rand` |
| Terrain.CustomTerrain.InitialiseAlgorithmDispatchMap | CustomTerrain.h:67-74 | all five enum values have entries, and each maps to its own algorithm |
| Terrain.CustomTerrain.constructor | CustomTerrain.h:76-101 | builds a zero map and the dispatch map, then generates: the vertices are the rendered plane with the normals as written, the indices are the plane's as-written quads, and the height range spans the scaled heights; the ghost field `source` keeps where the heights came from, and the map is what the algorithm leaves: midpoint displacement's consistent write record with one draw per cell (`MidpointFilled`), diamond square's structured torus (`DiamondFilled`), the Perlin square with the rows above it at 0, the fBm octave sums, or a level map for the multi-fractal; only the first two draw |
| Terrain.CustomTerrain.BuildPlane | CustomTerrain.h:166-216 | appends a flat plane to the vertices and its as-written quads to the indices, without clearing either |
| Terrain.CustomTerrain.RunAlgorithm | CustomTerrain.h:112-114 | runs the algorithm the dispatch map selects for `algorithmType`, with the same per-algorithm effect as `Terrain.Run` |
| Terrain.CustomTerrain.Render | CustomTerrain.h:116-157 | scales heights, sets the normals as written and publishes [min, max] as the height range |
| Terrain.CustomTerrain.Generate | CustomTerrain.h:108-163 | appends a plane, runs the selected algorithm with its effect on the map (the diamond-square torus and its refinement shape included), keeping where the heights came from in the ghost field `source`, and renders into the first block; multi-fractal leaves the previous map unchanged |
| Terrain2.SgridIsPow2 | CustomTerrain2.h:161-166 | `sgrid` = 32 is a power of two |
| Terrain2.FivePasses | CustomTerrain2.h:190-239 | `offset` runs 16, 8, 4, 2, 1: exactly five passes |
| Terrain2.SeededCorners | CustomTerrain2.h:170-175 | exactly (0,0), (32,0), (0,32) and (32,32) are seeded, each with a draw from [0, 2] |
| Terrain2.PassKeeps | CustomTerrain2.h:190-240 | a pass keeps the schedule and the min/max bounds |
| Terrain2.DisplacementPass | CustomTerrain2.h:192-239 | one pass writes the cells of lattice o off lattice 2o, tracks min and max, then scales the range by 0.7 and halves the offset |
| Terrain2.MidpointDisplacementAlgorithm2 | CustomTerrain2.h:159-241 | every cell of the 33 x 33 grid is written once, from earlier cells: the corners with 10 + r for r in [0, 2], the other cells with a draw from the range of their pass, which starts at 50; the corners are never overwritten; the five passes run in order; min ≤ every non-corner value ≤ max; cells outside the grid are untouched |
| Terrain2.CopyHeights | CustomTerrain2.h:124-131 | the copy-back sets only the height of vertex `x*(dz+1)+z` to `map[x][z]` |
| Terrain2.RaisedPlane | CustomTerrain2.h:80-131 | the copy-back on the flat plane gives the vertex array of the map |
| Terrain2.CustomTerrain2.constructor | CustomTerrain2.h:43-60 | a zero map, then `update`: the vertices are the map's mesh and the indices the plane's as-written quads; with diamond square the map stays 0 and no draw is made; with midpoint displacement 33·33 draws are made, the corner is `Subdivided` as `Update` leaves it (every cell written once, consistently with the subdivision, on the five-pass schedule, with the write record in the ghost `writes`) and cells outside the 33 x 33 corner stay 0 |
| Terrain2.CustomTerrain2.RunAlgorithm | CustomTerrain2.h:113-122 | the diamond-square case leaves the map unchanged; the midpoint case runs `MidpointDisplacementAlgorithm2` |
| Terrain2.CustomTerrain2.BuildIndices | CustomTerrain2.h:95-111 | the index loops give the plane's as-written quads |
| Terrain2.CustomTerrain2.Update | CustomTerrain2.h:66-136 | the vertices are the map's mesh and the indices are the plane's as-written quads; the map changes only as the selected algorithm changes it |

## Left out

- Floating point: heights, noise and ranges are exact `real`s. Rounding, `float`-to-`int` casts of the height map and overflow of the `int` loop counters are not modelled.
- Terrain.SetNormals: the source calls `normalize()` on each normal (CustomTerrain.h:151). The model stores the vector before normalisation, so it states the direction and not the unit length.
- Normals use the unscaled map in grid units, as in the source. The model does not relate them to the scaled heights in world units.
- The generator state of `octet::random`, its `time(NULL)` seed, and `std::mt19937`/`random_device` are not modelled. Draws come from an oracle, and the shuffle's `GetRandom(0, 255)` results are the `choices` parameter.
- The gradient table's `cos`/`sin` construction (PerlinNoiseGenerator.h:45-49) is not modelled. The eight gradient vectors are a parameter.
- The seeded constructor `PerlinNoiseGenerator(seed)` (PerlinNoiseGenerator.h:36-39) is not modelled. It only builds and discards a temporary.
- The Perlin and fBm fills are proved for any noise field. No bound on `GenerateNoise` itself is proved, so `NoiseFill.OctaveSumLimit` takes the noise bound B as a hypothesis.
- Terrain.CustomTerrain.Generate: for diamond square it states the written torus and the seam, but not the number of draws, which `DiamondSquare.DiamondSquareAlgorithm` states.
- The oracle's validity (`RandomSource.Random.Valid`) is required by no operation. Facts about the range of a draw hold only for a valid oracle (`RandomSource.Random.Sample`), while the write records, coverage and draw counts hold for any oracle.
- The source allocates the diamond-square buffer uninitialised. The model allocates it zeroed, but the coverage proof shows that every slot read is written first.
- The buffer's `delete` instead of `delete[]` (CustomTerrain.h:323) is memory management and is not modelled.
- Terrain2.MidpointDisplacementAlgorithm2: the running min and max are ghost. The source computes them but never reads them.
- GPU and mesh glue is not modelled: uv and aabb computation, materials and shaders, `set_uniform`/`set_vertices`/`set_indices`, and `set_mode`. A vertex keeps only its cell, height and normal.
- CustomTerrain2's `MidpointDisplacementAlgorithm` (CustomTerrain2.h:138-156) is not modelled. Nothing calls it.
- CustomTerrain2's `midpoint` and `DiamondSquareAlgorithm` (CustomTerrain2.h:248-321) are not modelled. Their bodies are commented out.
- TerrainGeneration.h (the app and its UI), TerrainGenerator.h (a factory) and PerlinNoise.h (an unfinished stub) are not part of this model.
- Terrain.CustomTerrain.constructor: `dimensions.y()`, `size` and the shader setup are not modelled. Neither algorithm nor mesh reads them.
- Terrain.Supports demands of the dimensions what each algorithm needs to behave as designed. The source checks none of these:
  - midpoint displacement: a power-of-two lattice dividing both sides, so that every pass reads only cells already written (with G = 6 the map stays in bounds, but the offset-1 pass reads (2, 0), which no pass writes);
  - diamond square: power-of-two sides, so that the `&` masks wrap the buffer as a torus (the masks keep every index in bounds for any sides, but for other sides they are not remainders);
  - Perlin: no fewer rows than columns, so that the fill stays in bounds.

## Findings

| source | as written | input that shows it | evidently intended | confidence | as-written member | corrected member |
|---|---|---|---|---|---|---|
| CustomTerrain.h:218-221 | `GetVertexIndex` returns `x*dz + z` (the same at CustomTerrain2.h:243-246) | dz ≥ 1: cells (0, dz) and (1, 0) both get index dz | `x*(dz+1) + z`, the layout `generate` and `update` use | high, not executed | Mesh.GetVertexIndexCollides | Mesh.VertexIndex |
| CustomTerrain.h:198-215 | the index loops (the same at CustomTerrain2.h:95-111) number cell (u, v) as `u + v*(dx+1)`, row by row, while the vertices are laid out column by column as `u*(dz+1) + v` | dx = 1, dz = 2: the first triangle pushed is [0, 2, 1], i.e. cells (0,0), (0,2) and (0,1) of one column, with no area | index the quad corners with the vertex layout `x*(dz+1) + z` | high, not executed | Mesh.QuadAsWrittenDegenerate | Mesh.QuadTriangles |
| CustomTerrain.h:139-150 | the normal is (h(x+1) − h(x−1), 2, h(z+1) − h(z−1)) | h = x (a plane rising along x): the normal is (2, 2, 0), which lies in the plane's tangent direction (1, 1, 0) and is not perpendicular to it | the height-map normal (h(x−1) − h(x+1), 2, h(z−1) − h(z+1)), perpendicular to the surface | medium, not executed | Terrain.NormalAsWrittenTilted | Terrain.NormalPerpendicular |
