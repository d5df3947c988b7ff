# Polycast raycaster core in Dafny

A model of the core of a small tile-map raycaster written in C, with proofs.

- **Light manager.** A fixed table of 32 point lights with a count, an ambient term and a cache of the indices of the active lights. It also provides the per-pixel composite that lights a colour at a world point.
- **Renderer.** It owns a `width * height` frame buffer of RGBA8888 pixels and draws a frame in two passes:
  - the floor and ceiling are sampled in 2 x 2 blocks, with a grey horizon row pair;
  - then one textured wall stripe per screen column, found by a DDA grid walk, is lit once per column and darkened on y sides.
- **Grid map.** Three tile layers over fixed 40 x 30 storage, with bounds-checked queries: everything outside the size in use is wall.
- **Player.** Position, direction and camera plane; a rotation and a per-axis collision-gated move.
- **Texture table.** Eight slots, each a handle and an optional 64 x 64 pixel buffer with a loaded flag.

Modules follow the source files:

| module | what it holds |
|---|---|
| `CArith` | The C arithmetic, written out: truncating `(int)` casts, `/ 2`, `% 64`, `& 63` and `(Uint8)` casts. |
| `Pixels` | The pixel as its four bytes, its 32-bit word, and channel scaling. |
| `Grid`, `Textures`, `Players`, `Lighting` | `map.c`, `textures.c`, `player.c` and the light manager. |
| `Shading` | The texel fetch and the darkening of `raycaster.c`. |
| `Dda` | The grid walk. |
| `WallColumn` | The integer arithmetic of one wall column. |
| `Raycaster` | The renderer class. |

Floating-point values are exact reals. The floating-point results that the integer logic consumes are parameters of a frame (`Raycaster.Oracles`):

- the floor point sampled at each sample row and column;
- each column's wall height and hit coordinate given the cell its ray hit;
- the attenuation curve.

Everything after them is modelled: the walk, the clipping, the texture coordinates, the lookups, the lighting branches and the byte arithmetic.

The renderer is specified against value snapshots of what a frame reads:

- `Grid.MapView`, the map's contents, via `Grid.Map.View`;
- the texture table's buffers, via `Textures.TextureManager.View`;
- `Lighting.LightView`, the light manager, via `Lighting.LightManager.View`.

`Raycaster.FramePixel` is the finished frame as a function of those snapshots. `Raycaster.Renderer.Render` proves that the buffer holds exactly that frame.

The 0.05 skip threshold is compared with the attenuation alone, before the intensity is applied (`editor/lighting.c:150`).

A wall column's light is sampled on the face of the hit cell opposite the one the ray enters through (`src/raycaster.c:256-263`), one cell beyond the grid line the wall distance is measured to (`src/raycaster.c:218-222`). The model samples it there too (`WallColumn.WallWorld`).

## Model

| member | source | states |
|---|---|---|
| CArith.Trunc | src/raycaster.c:246 | The `(int)` cast of a float truncates toward zero: within one below a non-negative value and within one above a negative one. |
| CArith.CHalf | src/raycaster.c:228-230 | C's `/ 2` on an int rounds toward zero, for negative heights too. |
| CArith.CRem64 | src/raycaster.c:56-57 | C's `% 64` takes the sign of the dividend and differs from it by a multiple of 64. |
| CArith.CRem64Fixup | src/raycaster.c:56-59 | Adding 64 to a negative C remainder gives the mathematical remainder modulo 64. |
| CArith.ToByte | src/raycaster.c:70-72 | A `(Uint8)` cast lands in [0, 256) and differs from its argument by a multiple of 256, so it keeps values already in range. |
| CArith.Low6 | src/raycaster.c:307 | `& 63` lands in [0, 64) and differs from its argument by a multiple of 64, negative arguments included, so it keeps values already in range. |
| Pixels.Word | src/raycaster.c:74 | The stored word has red in its top byte. |
| Pixels.FromWord | src/raycaster.c:65-68 | Reference definition: each channel is one byte of the word, red from the top byte and alpha from the bottom. |
| Pixels.FromWordOfWord | src/raycaster.c:65-74 | Unpacking a packed pixel with shifts and masks returns all four channels. |
| Pixels.WordOfFromWord | editor/lighting.c:107-122 | Packing the four unpacked channels of a word returns the word. |
| Pixels.GreyWord | src/raycaster.c:53 | The fallback grey is the word 0x808080FF. |
| Pixels.ScaleChannel | editor/lighting.c:113-122 | Reference definition: `(Uint8)` of the truncated `c * f + bias`, clamped to 255. The four lemmas below state its value. |
| Pixels.ScaleChannelFloor | editor/lighting.c:113-122 | With a non-negative factor and bias, a scaled channel is min(255, floor(c * f + bias)). |
| Pixels.ScaleChannelSaturates | editor/lighting.c:118-120 | A scaled value of 255 or more gives 255. |
| Pixels.ScaleChannelUnit | editor/lighting.c:113-115 | A factor of 1 with a bias below 1 leaves a channel unchanged. |
| Pixels.ScaleChannelMonotone | editor/lighting.c:113-115 | A larger non-negative factor never gives a darker channel. |
| Shading.GetPixelFromTexture | src/raycaster.c:52-62 | Grey for a missing buffer; otherwise the texel at row tex_y mod 64 and column tex_x mod 64. |
| Shading.TexelIndexInRange | src/raycaster.c:56-61 | The index read always lies in [0, 4096). |
| Shading.TextureWraps | src/raycaster.c:52-62 | The fetch repeats every 64 texels on both axes; inside one tile it reads row tex_y, column tex_x. |
| Shading.Darken | src/raycaster.c:64-75 | Alpha is copied; each of red, green and blue is `(Uint8)(c * factor)`. |
| Shading.DarkenChannel | src/raycaster.c:70-72 | Reference definition: `(Uint8)` of the truncated `c * factor`. `DarkenChannelBelow` states its value for factors in [0, 1]. |
| Shading.DarkenUnit | src/raycaster.c:64-75 | Darkening by 1 leaves a colour unchanged. |
| Shading.DarkenChannelBelow | src/raycaster.c:70-72 | For a factor in [0, 1] a channel becomes floor(c * factor), which is at most c. |
| Shading.DarkenNeverBrightens | src/raycaster.c:70-72 | A factor in [0, 1] never brightens any channel. |
| Shading.LitPixel | src/raycaster.c:314-329 | Alpha is copied; each channel is its light factor applied by truncation and saturated at 255. |
| Shading.LitPixelChannels | src/raycaster.c:320-326 | For non-negative factors each channel is min(255, floor(c * f)). |
| Shading.LitPixelUnit | src/raycaster.c:314-329 | Factors of 1 leave the texel unchanged. |
| Grid.CellOf | src/map.c:72-94 | Six parsed fields go into the three layers in order; a cell that fails to parse is empty with texture 0 in every layer. |
| Grid.SizeAccepted | src/map.c:37 | Reference definition: a SIZE header is taken when 0 < w <= 40 and 0 < h <= 30. |
| Grid.InBounds | src/map.c:105 | Reference definition: a position is inside when 0 <= x < width and 0 <= y < height. The map and its snapshot both use it. |
| Grid.Map.IsWall | src/map.c:104-109 | Wall everywhere outside [0, width) x [0, height); inside, wall exactly when the wall-layer tile is solid. |
| Grid.Map.WallTexture | src/map.c:111-116 | 0 outside the bounds; the wall layer's texture id inside. |
| Grid.Map.FloorTexture | src/map.c:118-123 | 0 outside the bounds; the floor layer's texture id inside. |
| Grid.Map.CeilingTexture | src/map.c:125-129 | 0 outside the bounds; the ceiling layer's texture id inside. |
| Grid.Map.View | src/map.c:104-129 | The snapshot the queries read: a valid map of the same width and height. |
| Grid.Map.ViewWall | src/map.c:104-109 | The wall query of the map equals the wall query of its snapshot. |
| Grid.Map.ViewTextures | src/map.c:111-129 | The three texture queries of the map equal those of its snapshot. |
| Grid.Map.EmptyMapQueries | src/map.c:12-19 | Once every tile is cleared, `map_is_wall` holds exactly outside the bounds and every texture query is 0. |
| Grid.Map.BadCellQueries | src/map.c:88-94 | A cell that failed to parse is open and has texture 0 in all three layers. |
| Grid.Map.constructor | src/map.c:5-20 | A fresh map is in the state `map_init` leaves. |
| Grid.Map.Init | src/map.c:5-20 | Size 20 x 15, player start (10, 7.5), and every tile of all three layers over the whole 40 x 30 storage empty with texture 0. |
| Grid.Map.ApplySize | src/map.c:37-43 | A SIZE header is taken exactly when 0 < w <= 40 and 0 < h <= 30; otherwise the size is kept. The map stays valid either way. |
| Grid.Map.StoreCell | src/map.c:72-94 | One cell takes its parsed tiles or the empty fallback; every other storage position is unchanged. |
| Grid.Map.LoadCells | src/map.c:67-96 | Every cell in use takes the parse outcome at position y * width + x in file order; storage outside the size in use is untouched. |
| Grid.Map.Load | src/map.c:22-102 | It returns whether the file opened, and a file that does not open changes nothing. Otherwise it resets, takes the accepted size or keeps 20 x 15, takes the player start or keeps (10, 7.5), and loads every cell in use; all other storage is empty. |
| Textures.LoadedUpTo | src/textures.c:20-68 | Loading stops at the first failed slot, or after all 8, and every slot before that one was created. |
| Textures.LoadedUpToExtremes | src/textures.c:20-68 | All 8 slots load when every outcome succeeds; none loads when the first fails. |
| Textures.TextureManager.constructor | src/textures.c:6-7 | A fresh table is empty, as the zero-initialised globals are. |
| Textures.TextureManager.Init | src/textures.c:9-72 | It clears all slots and loads slots in order until the first failure. Each created slot holds its handle and, when the copy succeeded, its buffer with the loaded flag set. The count of created slots is stored and returned. |
| Textures.TextureManager.LoadSlot | src/textures.c:39-64 | Slot i takes the handle, plus the buffer and loaded flag when the copy succeeded; other slots are unchanged. |
| Textures.TextureManager.ClearSlots | src/textures.c:13-17 | Slots below n lose their handle, buffer and loaded flag; the rest are kept. |
| Textures.TextureManager.Destroy | src/textures.c:74-87 | Every slot loses its handle, its buffer and its loaded flag, and the count becomes 0. |
| Textures.TextureManager.Get | src/textures.c:89-94 | Absent unless 0 <= id < count; the stored handle otherwise. |
| Textures.TextureManager.GetPixels | src/textures.c:96-101 | A buffer exactly when 0 <= id < 8 and the slot is flagged loaded, and then the slot's buffer. |
| Textures.TextureManager.View | src/textures.c:96-101 | The snapshot of the eight slots' buffers, one entry per slot. |
| Textures.TextureManager.GetPixelsOnlyBelowCount | src/textures.c:96-101 | Only created slots yield pixels, and every slot holding a buffer yields it. |
| Textures.TextureManager.GetPixelsView | src/textures.c:96-101 | The lookup equals the same lookup in the table's snapshot. |
| Players.RotatedDot | src/player.c:19-32 | Rotating both vectors by one pair of coefficients scales their dot product by c^2 + s^2. |
| Players.Rotated | src/player.c:24-31 | Reference definition: a vector turned by cosine c and sine s, as both rotations compute it. |
| Players.MovedPosition | src/player.c:34-45 | Reference definition: x moves when the cell at (trunc(x + dx), trunc(y)) is open; y then moves when the cell at the updated x and trunc(y + dy) is open. |
| Players.InitialPlanePerpendicular | src/player.c:12-13 | The plane `player_init` derives is perpendicular to the direction. |
| Players.MoveKeepsOpen | src/player.c:34-45 | A player whose cell is open ends in an open cell. |
| Players.MoveAxes | src/player.c:39-44 | Each axis moves fully or not at all. It moves exactly when the target cell is open: x is tested at the old y, and y at the already updated x. |
| Players.Player.constructor | src/player.c:4-17 | A fresh player is in the state `player_init` leaves. |
| Players.Player.Init | src/player.c:4-17 | Position and direction as given; plane (-dir_y * 0.66, dir_x * 0.66); default speeds; plane perpendicular to direction. |
| Players.Player.Rotate | src/player.c:19-32 | Direction and plane turn by the same coefficients; their dot product is scaled by cos^2 + sin^2, so perpendicularity is kept. |
| Players.Player.Move | src/player.c:34-45 | The new position is the collision-gated move, and an open start cell stays open. Only x and y change. |
| Lighting.ActiveIndices | editor/lighting.c:81-89 | The cache holds at most n indices, all below n. |
| Lighting.ActiveIndicesAscending | editor/lighting.c:81-89 | The cache is strictly ascending. |
| Lighting.ActiveIndicesMembers | editor/lighting.c:81-89 | An index is cached exactly when it is below count and its slot is active. |
| Lighting.ActiveIndicesAllActive | editor/lighting.c:83-88 | When every slot in use is active, the cache is 0, 1, ..., count - 1. |
| Lighting.Attenuation | editor/lighting.c:92-102 | Zero when the squared distance exceeds the squared radius. |
| Lighting.Falloff | editor/lighting.c:96-101 | Inside the radius the curve lies in [0, 1]. |
| Lighting.FalloffEnds | editor/lighting.c:96-101 | The curve is 1 at the centre and 0 at the radius. |
| Lighting.FalloffNonIncreasing | editor/lighting.c:96-101 | The curve never increases with distance. |
| Lighting.AttenuationIsFalloff | editor/lighting.c:92-102 | When the parameter is the curve over exact roots, the attenuation is that curve inside the radius and 0 beyond it, and always lies in [0, 1]. |
| Lighting.ApplyLightToColor | editor/lighting.c:105-123 | Alpha is copied; each channel is scaled by factor times intensity with a 0.5 rounding bias and saturated. |
| Lighting.DistanceSquared | editor/lighting.c:139-141 | Reference definition: `dx * dx + dy * dy` from the point to the light. |
| Lighting.AddContribution | editor/lighting.c:138-156 | Reference definition: a light past its squared radius, or with attenuation below 0.05, adds nothing; otherwise it adds colour times intensity times attenuation. |
| Lighting.TotalLight | editor/lighting.c:128-157 | Reference definition: the ambient start plus each cached light's contribution, in cache order. |
| Lighting.Composite | editor/lighting.c:126-161 | Reference definition: the base colour under the total light, scaled with the 0.5 bias. |
| Lighting.TotalLightReadsOnlyCache | editor/lighting.c:134-157 | The total light depends only on the slots the cache names. |
| Lighting.TotalLightAllSkipped | editor/lighting.c:143-150 | When every cached light is out of range or below 0.05, the total is the ambient term. |
| Lighting.CompositeAlphaAndAmbient | editor/lighting.c:126-161 | The composite keeps alpha; with every cached light skipped it is the base colour under ambient light alone. |
| Lighting.AmbientOnlyExample | editor/lighting.c:126-161 | With the default ambient and no lights, (200, 100, 50, 255) becomes (12, 6, 3, 255). |
| Lighting.SingleLightAtCentre | editor/lighting.c:126-161 | One light of intensity 2 sampled at its centre, with no ambient, doubles every channel up to 255. |
| Lighting.LightManager.constructor | editor/lighting.c:6-26 | A fresh manager is in the state `lighting_init` leaves. |
| Lighting.LightManager.Init | editor/lighting.c:6-26 | Count and active count 0, and every slot the default inactive light. Every cache entry is -1, the ambient is (0.3, 0.3, 0.3) at 0.2, and the manager invariant holds. |
| Lighting.LightManager.AddLight | editor/lighting.c:28-54 | When full it returns -1 and changes nothing. Otherwise it returns the old count and writes exactly that slot, active and with radius^2. The count goes up by one, the cache becomes 0..count-1 and the ambient is kept. Cache entries past the active count are kept. |
| Lighting.LightManager.RemoveLight | editor/lighting.c:56-70 | Out of range it changes nothing. Otherwise the new prefix is the old one without the removed light, in order. The count drops by one, the cache becomes 0..count-1 and the ambient is kept. Cache entries past the active count are kept. |
| Lighting.LightManager.ShiftDown | editor/lighting.c:63-65 | Each slot from index to count - 2 takes its successor; slots before it and from count on are kept. |
| Lighting.LightManager.ClearAll | editor/lighting.c:72-79 | Every slot is inactive, count and active count are 0, and the ambient is kept. |
| Lighting.LightManager.UpdateCache | editor/lighting.c:81-89 | The cache becomes exactly the ascending indices of the active slots in use. |
| Lighting.LightManager.SetAmbient | editor/lighting.c:163-168 | Only the four ambient fields change, to the given values. |
| Lighting.LightManager.GetLight | editor/lighting.c:170-173 | Absent exactly outside [0, count); the slot, which is active, otherwise. |
| Lighting.LightManager.View | editor/lighting.c:126-161 | The snapshot the composite reads: slots, the cache prefix in use and the ambient term; every cached index names a slot. |
| Lighting.LightManager.AccumulateLights | editor/lighting.c:129-157 | The ambient term plus each cached light's contribution, in cache order; the manager is only read. |
| Lighting.LightManager.CalculatePixelColor | editor/lighting.c:126-161 | The composite of the base colour under the light at the point; alpha is kept and the manager is only read. |
| Dda.DeltaDist | src/raycaster.c:173-174 | Always positive; 1e30 for an axis the ray does not move along, and otherwise the reciprocal of the component's magnitude. |
| Dda.Setup | src/raycaster.c:169-194 | The start cell is the truncated position; each step is -1 exactly when the ray component is negative, +1 otherwise. |
| Dda.Walk | src/raycaster.c:200-214 | The walk ends in a wall cell, with side 0 or 1. |
| Dda.CellsEndAtHit | src/raycaster.c:200-214 | The walk enters at least one cell, and the last cell it enters is the hit. |
| Dda.SideIsLastAxis | src/raycaster.c:200-209 | `side` is the axis of the last step: the hit is one x step or one y step from the cell before it. |
| Dda.CellsAreSteps | src/raycaster.c:200-213 | The first cell is one step from the start, so the start cell is never checked for a wall. Each later cell is one step from the one before along one axis, and every cell before the hit is open. |
| Dda.CellsBounded | src/raycaster.c:200-214 | From an in-bounds start the walk enters no more cells than remain along the two axes. |
| Dda.AdvanceX | src/raycaster.c:201-204 | A step along x either enters the hit as the last cell or reaches the next state of the same walk. |
| Dda.AdvanceY | src/raycaster.c:205-209 | The same for a step along y. |
| Dda.StepRay | src/raycaster.c:201-213 | One loop iteration, compared as the source compares (y on a tie), advances the walk by one cell. |
| Dda.CastRay | src/raycaster.c:196-214 | The loop returns the walk's hit, a wall cell, after one iteration per cell entered. From an in-bounds start that is at most width + height iterations. |
| WallColumn.Clip | src/raycaster.c:228-231 | draw_start >= 0 and draw_end <= h - 1, with C's truncating halving. |
| WallColumn.ClipRows | src/raycaster.c:228-231 | Every row a stripe draws lies in [0, h - 1). |
| WallColumn.ClipUnclipped | src/raycaster.c:228-231 | A wall no taller than the screen is centred and clipped only at the bottom. |
| WallColumn.TexX | src/raycaster.c:238-249 | tex_x is in [0, 64), and it is mirrored exactly when (side 0 and ray_dir_x > 0) or (side 1 and ray_dir_y < 0). |
| WallColumn.TexStep | src/raycaster.c:252 | Reference definition: 64 / line_height texture rows per screen row. |
| WallColumn.TexPosStart | src/raycaster.c:253 | Reference definition: `(draw_start - h / 2 + line_height / 2) * step` with C's truncating halving. |
| WallColumn.TexPosAt | src/raycaster.c:306-308 | Reference definition: the texture position after k rows, adding the step once per row. |
| WallColumn.TexPosAtClosed | src/raycaster.c:306-308 | Adding the step k times equals moving k steps at once. |
| WallColumn.TexY | src/raycaster.c:307 | tex_y is in [0, 64). |
| WallColumn.CrossedLine | src/raycaster.c:218-222 | Reference definition: the grid line `map + (1 - step) / 2` that the wall distance is measured to. |
| WallColumn.WallWorld | src/raycaster.c:256-263 | Along the stepped axis the light point is one step beyond the crossed line, on the far face of the hit cell; along the other axis it is the hit coordinate. |
| WallColumn.WallWorldBehindHit | src/raycaster.c:217-263 | A ray along +x that hits cell x = 5 crosses the line x = 5 but takes its light at x = 6. |
| WallColumn.ColumnFactors | src/raycaster.c:266-304 | Without a light manager the factors are 1, or 0.7 on a y side. |
| WallColumn.YSideShade | src/raycaster.c:266-304 | A y-side column's factors are the x-side factors times 0.7. With a light manager, the x-side factors are the ambient term plus the cached lights at the wall point. |
| WallColumn.WallPixel | src/raycaster.c:311-329 | Reference definition: the lit texel with a light manager, the texel itself without one. |
| WallColumn.UnlitWallIsTexel | src/raycaster.c:299-331 | Without a light manager the texel is written unchanged on both sides: the 0.7 factor has no visible effect. |
| WallColumn.LitWallChannels | src/raycaster.c:314-329 | With a light manager each channel is min(255, floor(c * factor)) and alpha is copied. |
| Raycaster.BlockShowsSample | src/raycaster.c:145-154 | Every pixel of a 2 x 2 block away from the horizon shows that block's one sample. |
| Raycaster.HorizonRows | src/raycaster.c:91-100 | Both rows of the pair starting at h / 2 are grey. |
| Raycaster.SampleTexel | src/raycaster.c:112-137 | Reference definition: the texel at the masked fractional parts of the sampled point. Its texture is the point's cell's ceiling texture above h / 2 and its floor texture from there on. |
| Raycaster.FloorSample | src/raycaster.c:111-143 | Reference definition: the sample texel, lit at the point with a light manager, and then darkened by 0.8 above h / 2. |
| Raycaster.FloorCeilingPixel | src/raycaster.c:84-159 | Reference definition: a pixel shows the sample at its even row and column, except the grey row pair at h / 2. |
| Raycaster.RayDir | src/raycaster.c:164-166 | Reference definition: direction plus plane times `2x / w - 1`. |
| Raycaster.UnlitSample | src/raycaster.c:120-143 | Without a light manager a floor sample is its texel and a ceiling sample its texel darkened by 0.8. |
| Raycaster.NoHorizonWhenOdd | src/raycaster.c:84-100 | When h / 2 is odd no row pair gets the grey horizon fill: every pixel shows its 2 x 2 block's sample. |
| Raycaster.PlanColumn | src/raycaster.c:162-304 | A column's walk ends in a wall; its stripe lies in [0, h - 1); its texture is the wall cell's; it is lit exactly when there is a light manager. |
| Raycaster.LastRowIsFloor | src/raycaster.c:228-231 | The last screen row always shows the floor pass. |
| Raycaster.StripeTexel | src/raycaster.c:306-311 | Row y of a stripe reads texture row TexY(tex_pos0 + (y - draw_start) * step) at the stripe's texture column. |
| Raycaster.IndexInRange | src/raycaster.c:331 | Every row-major index y * w + x of an on-screen pixel lies in [0, w * h). |
| Raycaster.IndexDistinct | src/raycaster.c:331 | Distinct pixels have distinct indices. |
| Raycaster.FramePixel | src/raycaster.c:77-334 | Reference definition of the finished frame: the column's wall stripe where it covers the row, the floor and ceiling pass elsewhere. |
| Raycaster.Renderer.constructor | src/raycaster.c:6-29 | A `width * height` buffer and no light manager. |
| Raycaster.Renderer.LightOf | src/raycaster.c:265-268 | The snapshot of the light manager when there is one, and no snapshot otherwise. |
| Raycaster.Renderer.SetLighting | src/raycaster.c:31-33 | The light manager becomes the one given. |
| Raycaster.Renderer.ClearScreen | src/raycaster.c:46-50 | Every one of the width * height entries becomes the colour. |
| Raycaster.Renderer.SetAt | src/raycaster.c:331 | One pixel is written and every other pixel is kept. |
| Raycaster.Renderer.FillRect | src/raycaster.c:145-154 | A clipped rectangle becomes one colour and every other pixel is kept. |
| Raycaster.Renderer.FetchTexel | src/raycaster.c:111-137 | Reads through the map queries and `textures_get_pixels` the texel that the snapshot specification gives. |
| Raycaster.Renderer.SampleColor | src/raycaster.c:111-143 | The sample colour is the specified one: the texel, lit when there is a manager, and darkened by 0.8 above h / 2. |
| Raycaster.Renderer.SampleBlock | src/raycaster.c:145-154 | The block, clipped to the screen, takes its sample; nothing else changes. |
| Raycaster.Renderer.SampleRow | src/raycaster.c:111-158 | The row pair shows the floor pass; other rows are kept. |
| Raycaster.Renderer.HorizonRow | src/raycaster.c:91-100 | The horizon pair is grey; other rows are kept. |
| Raycaster.Renderer.FloorCeilingPass | src/raycaster.c:84-159 | Every pixel of the screen is its floor, ceiling or horizon value. |
| Raycaster.Renderer.ColumnLight | src/raycaster.c:266-304 | The column factors: ambient plus cached lights at the wall point, or 1, times 0.7 on a y side. |
| Raycaster.Renderer.ComputePlan | src/raycaster.c:163-304 | The ray, walk, clip, texture, texture column and light computed for a column equal the column's specified plan. |
| Raycaster.Renderer.DrawStripe | src/raycaster.c:306-332 | Only rows [draw_start, draw_end) of column x change, each to the stripe pixel for that row. |
| Raycaster.Renderer.Render | src/raycaster.c:77-334 | Every pixel of the finished frame is its column's wall stripe where that covers the row, and the floor, ceiling or horizon value elsewhere. |

## Left out

- SDL plumbing is not modelled: `raycaster_present`, `raycaster_destroy`, `raycaster_resize`, the screen texture, and texture creation and BMP loading.
  - Each slot's load result is an input (`Textures.LoadOutcome`).
  - The scaling and partial copy of a texture that is not 64 x 64 is not modelled; a copied buffer is always a full 64 x 64.
- File reading in `map_load` is an input:
  - whether the file opened;
  - the parsed SIZE and PLAYER_START lines;
  - one parse outcome per cell in file order.
  How `fscanf` consumes the stream after a failed cell is therefore not modelled.
- Light-file save and load, the editor, `main`, `map_loader.c`, `raycaster_list_maps` and `player_update` are I/O or input dispatch and are not modelled.
- Floating point is exact real arithmetic, so float rounding, NaN and infinities are outside the model.
  - A zero-radius light, a zero wall height and a float-to-`Uint8` cast out of range (undefined behaviour in C) are modelled only by the total functions above.
- The floor point of each sample, each column's wall height and hit coordinate, and the attenuation curve are parameters of a frame.
  - Perspective correctness and fisheye-free distances are not proved.
  - `Lighting.Falloff` states the curve's shape over exact roots. `Lighting.CurveIs` says when the parameter is that curve, and `Lighting.AttenuationIsFalloff` connects the two.
- `cos` and `sin` in `player_rotate` are the caller's coefficients.
- Raycaster.Renderer.ColumnLight: the wall pass repeats the composite's accumulation loop inline. The model reuses `Lighting.LightManager.AccumulateLights` for it, which performs the same steps.
- Pixels are the four bytes of the RGBA8888 word, not the word itself. `Pixels.Word` and `Pixels.FromWord` are the packing and unpacking, and they are proved inverse.
- The renderer reads the light manager, map and texture table as snapshots taken at the start of the frame. Nothing in the frame writes them, so aliasing between them and the buffer does not arise.
- `texture_pixels` and `texture_loaded` are file-level globals in `textures.c`, shared by every texture manager. The model makes them fields of one `Textures.TextureManager`; only one manager is ever created, so sharing between managers is not modelled.
- The `printf` diagnostics of the light manager, the map loader and the texture loader are console output and are not modelled.
