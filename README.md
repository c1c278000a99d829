# pyxel-demo game logic in Dafny

This project models the grid-level rules of the small pyxel game `game.py`: a top-down
map where a player walks over empty cells, smashes pots and picks up gems, and a
camera follows them. The model keeps the game's own structure:

- `Tiles` — the tilemap as a class over a row-major `array<int>`, with `Get`, `Set` and
  `walkable`.
- `Entities` — pots and gems as values (`Sprite`) carrying an `id` for Python's object
  identity; the player as a class whose `Update` reads four direction flags, turns and
  steps; the sprite-sheet addressing of `Sprite.draw`.
- `Scan` — what `App.scan_map` does to a map, as functions on the map's cell sequence:
  the codes it accepts, the cells it clears, the sprites it spawns and the player cell.
- `Collision` — `App.colliders_at` and the list updates of `smash_pot`/`pickup_gem`,
  with closed forms for the whole collision loop and lemmas on what happens to each sprite.
- `Game` — class `World` (`App`): the scanning loops, `reset`, the collision loop over
  its snapshot, the catch-up camera and one frame of `App.update`.
- `Interpolation` — `lerp` over the reals.

A sprite's `id` is the row-major index of the cell it was spawned from, so ids are unique
and `list.remove` (which removes by identity) becomes removal by id. `World.Valid()`
keeps ids unique in both lists and every collider in the render list.
An unknown tile code makes `scan_map` raise; here the scan stops at that cell and
returns the code as `Some(code)`, and `Update` ends the frame there.

`App.update` does not return after a reset (game.py:170-173): the player's step, the
collisions and the camera run on the freshly scanned state in the same frame, and
`Game.World.Update` does the same.

## Model

| member | source | states |
|---|---|---|
| Interpolation.LerpIdentities | game.py:6-15 | lerp(a,b,0) = a, lerp(a,b,1) = b, lerp(10,20,0.5) = 15, as the doc comment promises |
| Interpolation.LerpBetween | game.py:6-15 | for t in [0,1] the result lies between a and b, in either order |
| Interpolation.LerpMonotone | game.py:6-15 | for a <= b the result grows with t, linearly, also outside [0,1] (no clamping) |
| Interpolation.LerpApproach | game.py:32-37 | one smoothing step leaves (1 - t) of the distance to the target and never overshoots |
| Tiles.Tilemap.Get | game.py:132 | `tilemap.get(x, y)` returns one of the codes the map holds |
| Tiles.Tilemap.GetCell | game.py:132 | the code `get` returns is the one stored at the only index whose column is x and whose row is y |
| Tiles.Tilemap.Set | game.py:144 | `tilemap.set(x, y, v)` changes cell (x, y) to v and no other cell |
| Entities.SheetSource | game.py:55-56 | u is a multiple of 8 in [0, 248], v a multiple of 8, and u/8 + 32*(v/8) gives back the tile; v >= 0 for tile >= 0 |
| Entities.Delta | game.py:82-98 | each axis step is in {-1, 0, 1}: +1 exactly when only the positive key is pressed, -1 exactly when only the negative one is, 0 when both or neither are |
| Entities.FacingPriority | game.py:84-97 | the facing a frame leaves is that of the last pressed direction in check order: right ("west") over left ("east") over down over up; none pressed means no change |
| Entities.Player.constructor | game.py:68-72 | a new player is on its cell with its tile, xflip 1, no gems, facing "east" |
| Entities.Player.Update | game.py:79-101 | the player moves to (x+cx, y+cy) exactly when that cell is walkable (code 0) and otherwise stays; facing from the last pressed direction (`Turned`, see `Entities.FacingPriority`); xflip 1 on right, -1 on left (right wins); gems and tile unchanged |
| Entities.Smashed | game.py:64-66 | `Pot.smash` advances the tile by one and keeps the pot's identity, name and cell |
| Scan.ClearCode | game.py:133-154 | after the scan a known cell holds 0 or 1; it holds 1 exactly when it held 1; 0 and 1 are kept, 2, 32 and 33 become 0 |
| Scan.CleanPrefix | game.py:130-156 | the scan gets through exactly the cells before the first unknown code (all cells when there is none) |
| Scan.LastSpawn | game.py:145-148 | the index of the last cell coded 32 among the first n cells, or none when no such cell exists (`Game.World.ScanMap` puts the player there) |
| Scan.SpawnedSound | game.py:139-154 | every spawned sprite is a pot for code 2 or a gem for code 33, with the cell's code as tile and the cell's x, y, in row-major order |
| Scan.SpawnedComplete | game.py:139-154 | every scanned cell holding 2 or 33 spawns its sprite |
| Collision.CollidersAt | game.py:119-126 | the result holds exactly the colliders whose x, y are the arguments |
| Collision.CollidersAtAppend | game.py:126 | the selection keeps list order: selecting from a + b is selecting from a, then from b |
| Collision.CollidersAtUnique | game.py:126 | the selection never holds one object twice |
| Collision.NotAt | game.py:178-182 | the colliders left after the loop are exactly those not on the player's cell |
| Collision.SmashIds | game.py:64-66 | smashing keeps length and order, gives each smashed pot its next tile and leaves every other sprite as it was |
| Collision.Remove | game.py:161-167 | `list.remove` shortens the list by one when the object is in it and leaves a list without it unchanged |
| Collision.RemoveFirst | game.py:161-167 | when the object is in the list, `list.remove` drops its first occurrence (`FirstWith`: no entry before it has that id) and keeps the entries before and after it in order |
| Collision.RemoveUnique | game.py:158-167 | with unique ids `list.remove` of an object drops exactly that object and keeps the rest in order |
| Collision.ConsumedColliders | game.py:178-182 | removing, one by one, every collider found on (x, y) leaves exactly the colliders elsewhere, in order |
| Collision.NothingLeftAt | game.py:178-182 | after the loop no collider is left on the player's cell |
| Collision.PotFate | game.py:158-161 | a pot that was hit is drawn smashed and no longer in its old form |
| Collision.GemFate | game.py:163-167 | a gem that was hit is no longer drawn |
| Collision.KeptFate | game.py:178-182 | a sprite that was not hit stays drawn, unchanged |
| Collision.SpriteFate | game.py:178-182 | the three fates for any drawn sprite, and no sprite appears that was not drawn before |
| Game.Follow | game.py:187-190 | after the camera step the player is strictly inside the 15-cell window; the camera moves exactly when the player was at or past its edge, and then to player - 8 |
| Game.WalkableAfterScan | game.py:128-156 | after the scan a cell is walkable exactly when it did not hold a wall: empty cells and the cleared pot, player and gem markers can be entered |
| Game.World.constructor | game.py:105-108 | the state before the first reset: empty lists, no player, camera at 0, a map of the given size |
| Game.World.ScanCell | game.py:132-154 | one cell of the scan: an unknown code faults, a pot or gem is appended to both lists, a player marker makes a new player, spawn cells are cleared |
| Game.World.ScanRow | game.py:131-156 | one row of the scan, left to right, stopping at the first unknown code |
| Game.World.ScanMap | game.py:128-156 | the whole scan: the fault is the first unknown code; cells before it are cleared as ClearCode says and the rest untouched; both lists grow by the spawned sprites in scan order; the player follows the last marker |
| Game.World.Reset | game.py:111-117 | the map is reloaded from the level and rescanned from empty lists; the camera is at 0; colliders equal sprites |
| Game.World.SmashPot | game.py:158-161 | the pot gets its next tile in the render list and leaves the collider list |
| Game.World.PickupGem | game.py:163-167 | one more gem; the gem leaves both lists |
| Game.World.Collide | game.py:179-182 | one turn of the collision loop: a pot is smashed, a gem picked up |
| Game.World.ResolveCollisions | game.py:178-182 | over the snapshot of colliders on the player's cell: the colliders there are gone, pots hit are smashed in place, gems hit are gone, gems grow by the number of gems hit, nothing else changes |
| Game.World.FollowPlayer | game.py:187-190 | each camera axis becomes Follow of its old value and the player's |
| Game.World.Tick | game.py:173-190 | one frame after the optional reset ends in `Played` from the old state: the player's step (`MovedFrom`), the colliders on the new cell gone (`NotAt`), the render list as `SpritesAfter` says, gems grown by the gems hit, and each camera axis `Follow` of its old value; no collider is left on the player's cell |
| Game.World.Update | game.py:169-190 | `App.update`: the reset fault is the first unknown code; the player afterwards is the old object or a new one; without a fault the player exists, stands inside the camera window and has no collider left on its cell; without a reset the map is unchanged and the frame is `Played` from the old state; after a reset the map is the level with its markers cleared and the frame is `Played` from the scanned state: both lists the spawned sprites, camera at 0, and a new player with no gems on the last marker facing east (or the old player where it stood when the level has no marker) |
| Game.NewApp | game.py:105-117 | `App.__init__`: a fresh world (new map storage, new player) of the given size reset from the level: the fault is the first unknown code, the cells before it are cleared as `ClearCode` says and the rest hold the level, both lists are the spawned sprites, the camera is at 0, and the player stands on the last marker scanned (none without one) |
| Game.GemRoomScan | game.py:128-156 | scanning a 4 x 3 walled room finds no unknown code, the player marker at cell 5 and exactly one gem, spawned from cell 6 at (2, 1) |
| Game.NewGemRoom | game.py:105-117 | `App.__init__` on that room: the player stands on (1, 1) with no gems, the gem is drawn and collides, its cell is empty and the camera is at 0 |
| Game.HitClosedForm | game.py:178-182 | one turn of the collision loop extends the closed forms: the hit is still a collider, the dropped ids, the smashed pots or the dropped gems grow by that hit, and a gem adds one to the count |
| Game.GemPickedUp | game.py:169-190 | in that room one frame with the right key held puts the player on (2, 1) facing "west" with one gem, the gem no longer drawn and the camera at 0 |
| Game.GemScenario | game.py:169-190 | one frame with the right key held moves the player from x 1 to x 2 facing "west", picks up the gem (one gem, no longer drawn) and leaves the camera at 0 |
| Game.NothingAtStart | game.py:178-182 | on (1, 1) of that room no collider is hit, so the lists and the gem count stay as the scan made them |
| Game.ResetScenario | game.py:169-190 | after the gem was picked up, a frame with the reset key held and no direction restores the scanned room exactly: player on (1, 1) with no gems, the gem drawn and colliding again, camera at 0 |

## Left out

- Drawing (`Sprite.draw`, `App.draw`, `pyxel.blt`, `bltm`, `cls`, `text`): foreign calls; only the sheet arithmetic of `Sprite.draw` is kept (`Entities.SheetSource`).
- `pyxel.init`, `pyxel.run`, `pyxel.load`: host loop and file I/O; the map the resource file holds is the `level` parameter of the world, and its size is a parameter rather than pyxel's fixed tilemap size.
- `pyxel.btnp` with its hold and repeat timing: the four direction flags and the reset key are boolean parameters of each frame.
- Pixel positions `px`, `py` and their floating-point smoothing in `Thing.update` (also the loop over `sprites` in `App.update` and the camera's 0.5 rate): floating point; only `lerp` over the reals is modelled.
- The global `DEBUG` string: diagnostic output only.
- Entities.Player.Update: requires the destination cell to be inside the map, because `tilemap.get` outside the map is defined by pyxel.
- Game.World.Update: requires a player, or a reset that creates one, because the source fails with an attribute error when no player marker was ever scanned.
- Collision.Remove: on a list without the object it returns the list unchanged, where `list.remove` raises; the callers' requires rule that case out.
- Game.World.SmashPot: requires the pot to be a collider, because `list.remove` of an absent object raises; `Game.World.ResolveCollisions` proves every call meets this.
- Game.World.PickupGem: requires the gem to be a collider, for the same reason; being drawn follows from `World.Valid`.
- Object identity and aliasing: a pot is one object in both lists in the source; here the render-list entry is updated and the collider entry removed in the same step, so the difference cannot be observed.
- Sprite names are the two-valued `Name` instead of strings, and the `xflip`/`yflip` of pots and gems (always 1) and the player's `yflip` are not modelled.
- The state after an unknown tile code is what the partial scan left; the source's exception also ends the host loop, which is not modelled.
- Facing: left sets "east" and right sets "west", as written; facing is never read by the game, so this is kept without a correction.
