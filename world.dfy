/** The game state and its per-frame step (game.py class App): the map scan, reset,
    collision resolution with pot smashing and gem pickup, and the catch-up camera. */
module Game {
  import opened Wrappers
  import opened Tiles
  import opened Entities
  import opened Scan
  import opened Collision

  /** The catch-up camera along one axis: the camera cell `cam` jumps to `p - 8` only
      when the player cell `p` has reached an edge of the 15-cell view. */
  function Follow(cam: int, p: int): (r: int)
    ensures r < p < r + 15
    ensures r == cam <==> cam < p < cam + 15
    ensures r != cam ==> r == p - 8
  {
    if p <= cam || p >= cam + 15 then p - 8 else cam
  }

  /** After the scan a cell k = y * width + x is walkable exactly when it did not hold a
      wall: empty cells and the cleared pot, player and gem markers can be entered. */
  lemma WalkableAfterScan(grid: Tilemap, c: seq<int>, x: int, y: int, k: nat)
    requires grid.Valid() && grid.InBounds(x, y) && |c| == grid.cells.Length
    requires k == y * grid.width + x && k < |c|
    requires KnownCode(c[k]) && grid.cells[k] == ClearCode(c[k])
    ensures Walkable(grid, x, y) <==> c[k] != 1
  {
  }

  /** The scan stops at cell m exactly when m is the first unknown code. */
  lemma CleanPrefixAt(c: seq<int>, m: nat)
    requires m <= |c| && forall k :: 0 <= k < m ==> KnownCode(c[k])
    requires m < |c| ==> !KnownCode(c[m])
    ensures CleanPrefix(c) == m
  {
  }

  /** The hit taken in turn i of the collision loop is a new object, and what the first
      i + 1 hits amount to. */
  lemma HitStep(hits: seq<Sprite>, i: nat)
    requires UniqueIds(hits) && i < |hits|
    ensures var h, before, after := hits[i], hits[..i], hits[..i + 1];
            && h.id !in IdsOf(before) && PotIds(before) <= IdsOf(before) && GemIds(before) <= IdsOf(before)
            && IdsOf(after) == IdsOf(before) + {h.id}
            && PotIds(after) == PotIds(before) + (if h.name == Pot then {h.id} else {})
            && GemIds(after) == GemIds(before) + (if h.name == Gem then {h.id} else {})
            && CountGems(after) == CountGems(before) + (if h.name == Gem then 1 else 0)
  {
    var h, before, after := hits[i], hits[..i], hits[..i + 1];
    assert after == before + [h];
    assert after[..|after| - 1] == before;
    forall e | e in before
      ensures e.id != h.id
    {
      var j :| 0 <= j < i && hits[j] == e;
    }
  }

  /** Before the collision loop's first turn the closed forms are the lists themselves. */
  lemma NoHitsYet(sprites0: seq<Sprite>, colliders0: seq<Sprite>, hits: seq<Sprite>)
    ensures IdsOf(hits[..0]) == {} && PotIds(hits[..0]) == {} && GemIds(hits[..0]) == {}
    ensures CountGems(hits[..0]) == 0
    ensures WithoutIds(colliders0, {}) == colliders0
    ensures WithoutIds(SmashIds(sprites0, {}), {}) == sprites0
  {
    assert hits[..0] == [];
    WithoutNone(colliders0, {});
    assert SmashIds(sprites0, {}) == sprites0;
    WithoutNone(sprites0, {});
  }

  /** Smashing one more pot, on the closed form of the render list. */
  lemma SmashStep(sprites0: seq<Sprite>, P: set<nat>, G: set<nat>, k: nat)
    requires k !in P
    ensures SmashIds(WithoutIds(SmashIds(sprites0, P), G), {k})
            == WithoutIds(SmashIds(sprites0, P + {k}), G)
  {
    SmashWithout(SmashIds(sprites0, P), {k}, G);
    SmashSmash(sprites0, P, {k});
  }

  /** What turn i of the collision loop does to the closed forms: the hit is still a
      collider, dropping it extends the dropped ids by one, smashing a pot or dropping a
      gem extends the pot or gem ids, and a gem adds one to the count. */
  lemma HitClosedForm(sprites0: seq<Sprite>, colliders0: seq<Sprite>, hits: seq<Sprite>, i: nat)
    requires UniqueIds(hits) && i < |hits|
    requires forall h :: h in hits ==> h in colliders0
    ensures var h, before, after := hits[i], hits[..i], hits[..i + 1];
            var P, G := PotIds(before), GemIds(before);
            && h in WithoutIds(colliders0, IdsOf(before))
            && WithoutIds(WithoutIds(colliders0, IdsOf(before)), {h.id}) == WithoutIds(colliders0, IdsOf(after))
            && (h.name == Pot ==>
                  SmashIds(WithoutIds(SmashIds(sprites0, P), G), {h.id})
                  == WithoutIds(SmashIds(sprites0, PotIds(after)), GemIds(after)))
            && (h.name == Gem ==>
                  WithoutIds(WithoutIds(SmashIds(sprites0, P), G), {h.id})
                  == WithoutIds(SmashIds(sprites0, PotIds(after)), GemIds(after)))
            && CountGems(after) == CountGems(before) + (if h.name == Gem then 1 else 0)
  {
    var h := hits[i];
    HitStep(hits, i);
    var I, P, G := IdsOf(hits[..i]), PotIds(hits[..i]), GemIds(hits[..i]);
    assert h in hits;
    WithoutMember(colliders0, I, h);
    WithoutWithout(colliders0, I, {h.id});
    assert IdsOf(hits[..i + 1]) == I + {h.id};
    if h.name == Pot {
      SmashStep(sprites0, P, G, h.id);
      assert PotIds(hits[..i + 1]) == P + {h.id} && GemIds(hits[..i + 1]) == G;
    } else {
      WithoutWithout(SmashIds(sprites0, P), G, {h.id});
      assert PotIds(hits[..i + 1]) == P && GemIds(hits[..i + 1]) == G + {h.id};
    }
  }

  class World {
    /** The map as the resource file holds it; every reset reloads it. */
    const level: seq<int>
    const tilemap: Tilemap
    /** The render list and the collider list. */
    var sprites: seq<Sprite>
    var colliders: seq<Sprite>
    /** `App.player`; null until a map with a player marker has been scanned. */
    var player: Player?
    /** The camera's grid cell. */
    var camX: int
    var camY: int

    /** Every collider is also drawn, and neither list holds an object twice. */
    ghost predicate Valid()
      reads this`sprites, this`colliders, tilemap
    {
      && tilemap.Valid()
      && |level| == tilemap.cells.Length
      && UniqueIds(sprites) && UniqueIds(colliders)
      && (forall c :: c in colliders ==> c in sprites)
    }

    /** The state `App.__init__` sets up before its first reset. */
    constructor (width: nat, height: nat, level: seq<int>)
      requires |level| == width * height
      ensures Valid() && this.level == level
      ensures tilemap.width == width && tilemap.height == height
      ensures fresh(tilemap) && fresh(tilemap.cells)
      ensures sprites == [] && colliders == [] && player == null && camX == 0 && camY == 0
    {
      this.level := level;
      tilemap := new Tilemap(width, height);
      sprites, colliders := [], [];
      player := null;
      camX, camY := 0, 0;
    }

    /** The state after the first m cells of the map c (w cells wide) have been scanned,
        starting from the given lists and player. */
    ghost predicate Scanned(c: seq<int>, w: nat, m: nat,
                            sprites0: seq<Sprite>, colliders0: seq<Sprite>, player0: Player?)
      reads this, tilemap, tilemap.cells, player
    {
      && m <= |c| == tilemap.cells.Length && (m > 0 ==> w > 0)
      && (forall k :: 0 <= k < m ==> KnownCode(c[k]))
      && (forall k :: 0 <= k < m ==> tilemap.cells[k] == ClearCode(c[k]))
      && (forall k :: m <= k < |c| ==> tilemap.cells[k] == c[k])
      && sprites == sprites0 + Spawned(c, w, m)
      && colliders == colliders0 + Spawned(c, w, m)
      && match LastSpawn(c, m)
         case None => player == player0
         case Some(k) =>
           && player != null
           && player.x == k % w && player.y == k / w && player.tile == 32
           && player.gems == 0 && player.xflip == 1 && player.facing == East
    }

    /** One step of the scan: cell (x, y), the cell after the first y * width + x. */
    method ScanCell(x: nat, y: nat, ghost m: nat, ghost c: seq<int>, ghost sprites0: seq<Sprite>,
                    ghost colliders0: seq<Sprite>, ghost player0: Player?)
      returns (fault: Option<int>)
      requires tilemap.Valid() && x < tilemap.width && y < tilemap.height
      requires m == y * tilemap.width + x && m < |c| && m % tilemap.width == x && m / tilemap.width == y
      requires Scanned(c, tilemap.width, m, sprites0, colliders0, player0)
      modifies this, tilemap.cells
      ensures && (fault.None? <==> KnownCode(c[m]))
              && (fault.Some? ==> fault.value == c[m])
              && Scanned(c, tilemap.width, if fault.None? then m + 1 else m,
                         sprites0, colliders0, player0)
              && (fault.None? && c[m] == 32 ==> fresh(player))
              && (c[m] != 32 ==> player == old(player))
      ensures camX == old(camX) && camY == old(camY)
    {
      var w := tilemap.width;
      var t := tilemap.Get(x, y);
      assert t == c[m];
      fault := None;
      if t == 0 {
        // empty
      } else if t == 1 {
        // solid
      } else if t == 2 {
        var sprite := Sprite(y * w + x, Pot, x, y, t);
        sprites := sprites + [sprite];
        colliders := colliders + [sprite];
        tilemap.Set(x, y, 0);
      } else if t == 32 {
        player := new Player(x, y, t);
        tilemap.Set(x, y, 0);
      } else if t == 33 {
        var sprite := Sprite(y * w + x, Gem, x, y, t);
        sprites := sprites + [sprite];
        colliders := colliders + [sprite];
        tilemap.Set(x, y, 0);
      } else {
        fault := Some(t);
      }
    }

    /** One row of the scan: cells (0, y) .. (width - 1, y); `end` is where it stopped. */
    method ScanRow(y: nat, ghost c: seq<int>, ghost sprites0: seq<Sprite>,
                   ghost colliders0: seq<Sprite>, ghost player0: Player?)
      returns (fault: Option<int>, ghost end: nat)
      requires tilemap.Valid() && y < tilemap.height
      requires Scanned(c, tilemap.width, y * tilemap.width, sprites0, colliders0, player0)
      modifies this, tilemap.cells
      ensures y * tilemap.width <= end <= |c|
      ensures fault.None? ==> end == y * tilemap.width + tilemap.width
      ensures fault.Some? ==> end < |c| && !KnownCode(c[end]) && fault.value == c[end]
      ensures Scanned(c, tilemap.width, end, sprites0, colliders0, player0)
      ensures player == old(player) || fresh(player)
      ensures LastSpawn(c, end) != LastSpawn(c, y * tilemap.width) ==> fresh(player)
      ensures camX == old(camX) && camY == old(camY)
    {
      var w, h := tilemap.width, tilemap.height;
      ghost var start := y * w;
      if w > 0 {
        IndexInRange(w - 1, y, w, h);
      }
      end := start;
      fault := None;
      var x := 0;
      while x < w
        invariant 0 <= x <= w && end == start + x
        invariant Scanned(c, w, end, sprites0, colliders0, player0)
        invariant player == old(player) || fresh(player)
        invariant LastSpawn(c, end) != LastSpawn(c, start) ==> fresh(player)
        invariant fault == None && camX == old(camX) && camY == old(camY)
      {
        RowMajor(x, y, w);
        fault := ScanCell(x, y, end, c, sprites0, colliders0, player0);
        if fault.Some? {
          return;
        }
        x := x + 1;
        end := end + 1;
      }
    }

    /** `App.scan_map`: one row-major pass that spawns a pot, gem or player for each marker,
        clears the marker, and raises (here: returns the code) at the first unknown code,
        with the cells before it already processed. */
    method ScanMap() returns (fault: Option<int>)
      requires tilemap.Valid()
      modifies this, tilemap.cells
      ensures var c, w := old(tilemap.cells[..]), tilemap.width;
              var n := CleanPrefix(c);
              && fault == (if n < |c| then Some(c[n]) else None)
              && (forall k :: 0 <= k < n ==> tilemap.cells[k] == ClearCode(c[k]))
              && (forall k :: n <= k < |c| ==> tilemap.cells[k] == c[k])
              && sprites == old(sprites) + Spawned(c, w, n)
              && colliders == old(colliders) + Spawned(c, w, n)
      ensures var c, w := old(tilemap.cells[..]), tilemap.width;
              match LastSpawn(c, CleanPrefix(c))
              case None => player == old(player)
              case Some(k) =>
                && player != null && fresh(player)
                && player.x == k % w && player.y == k / w && player.tile == 32
                && player.gems == 0 && player.xflip == 1 && player.facing == East
      ensures camX == old(camX) && camY == old(camY)
    {
      ghost var c := tilemap.cells[..];
      ghost var sprites0, colliders0, player0 := sprites, colliders, player;
      var w, h := tilemap.width, tilemap.height;
      ghost var m: nat := 0;
      fault := None;
      var y := 0;
      while y < h
        invariant 0 <= y <= h && m == y * w
        invariant Scanned(c, w, m, sprites0, colliders0, player0)
        invariant LastSpawn(c, m).Some? ==> fresh(player)
        invariant fault == None && camX == old(camX) && camY == old(camY)
      {
        fault, m := ScanRow(y, c, sprites0, colliders0, player0);
        if fault.Some? {
          CleanPrefixAt(c, m);
          return;
        }
        assert y * w + w == (y + 1) * w;
        y := y + 1;
      }
      assert m == |c|;
      CleanPrefixAt(c, m);
    }

    /** `App.reset`: reload the map from the resource, put the camera at (0, 0), empty
        both lists and scan the map again. */
    method Reset() returns (fault: Option<int>)
      requires tilemap.Valid() && |level| == tilemap.cells.Length
      modifies this, tilemap.cells
      ensures Valid()
      ensures camX == 0 && camY == 0
      ensures var n, w := CleanPrefix(level), tilemap.width;
              && fault == (if n < |level| then Some(level[n]) else None)
              && (forall k :: 0 <= k < n ==> tilemap.cells[k] == ClearCode(level[k]))
              && (forall k :: n <= k < |level| ==> tilemap.cells[k] == level[k])
              && sprites == Spawned(level, w, n) && colliders == sprites
      ensures var w := tilemap.width;
              match LastSpawn(level, CleanPrefix(level))
              case None => player == old(player)
              case Some(k) =>
                && player != null && fresh(player)
                && player.x == k % w && player.y == k / w && player.tile == 32
                && player.gems == 0 && player.xflip == 1 && player.facing == East
    {
      forall k | 0 <= k < tilemap.cells.Length {
        tilemap.cells[k] := level[k];
      }
      assert tilemap.cells[..] == level;
      camX, camY := 0, 0;
      sprites, colliders := [], [];
      fault := ScanMap();
      SpawnedSound(level, tilemap.width, CleanPrefix(level));
    }

    /** `App.smash_pot`: the pot shows its next tile and stops colliding, but is still drawn. */
    method SmashPot(pot: Sprite)
      requires Valid() && pot in colliders
      modifies this
      ensures Valid()
      ensures sprites == SmashIds(old(sprites), {pot.id})
      ensures colliders == Remove(old(colliders), pot.id)
      ensures player == old(player) && camX == old(camX) && camY == old(camY)
    {
      sprites := SmashIds(sprites, {pot.id});
      colliders := Remove(colliders, pot.id);
      RemoveUnique(old(colliders), pot.id);
      WithoutUnique(old(colliders), {pot.id});
      SmashUnique(old(sprites), {pot.id});
      WithoutMembers(old(colliders), {pot.id});
      forall c | c in colliders
        ensures c in sprites
      {
        SmashKeeps(old(sprites), {pot.id}, c);
      }
    }

    /** `App.pickup_gem`: one more gem, and the gem leaves both lists. */
    method PickupGem(gem: Sprite)
      requires Valid() && player != null && gem in colliders
      modifies this, player`gems
      ensures Valid() && player == old(player)
      ensures player.gems == old(player.gems) + 1
      ensures sprites == Remove(old(sprites), gem.id)
      ensures colliders == Remove(old(colliders), gem.id)
      ensures camX == old(camX) && camY == old(camY)
    {
      player.gems := player.gems + 1;
      sprites := Remove(sprites, gem.id);
      colliders := Remove(colliders, gem.id);
      RemoveUnique(old(sprites), gem.id);
      RemoveUnique(old(colliders), gem.id);
      WithoutUnique(old(sprites), {gem.id});
      WithoutUnique(old(colliders), {gem.id});
      WithoutMembers(old(sprites), {gem.id});
      WithoutMembers(old(colliders), {gem.id});
    }

    /** One turn of the collision loop in `App.update`: a pot is smashed, a gem picked up. */
    method Collide(thing: Sprite)
      requires Valid() && player != null && thing in colliders
      modifies this, player`gems
      ensures Valid() && player == old(player)
      ensures colliders == WithoutIds(old(colliders), {thing.id})
      ensures sprites == if thing.name == Pot then SmashIds(old(sprites), {thing.id})
                         else WithoutIds(old(sprites), {thing.id})
      ensures player.gems == old(player.gems) + (if thing.name == Gem then 1 else 0)
      ensures camX == old(camX) && camY == old(camY)
    {
      RemoveUnique(colliders, thing.id);
      RemoveUnique(sprites, thing.id);
      if thing.name == Pot {
        SmashPot(thing);
      }
      if thing.name == Gem {
        PickupGem(thing);
      }
    }

    /** The lists and the gem count once the first i of the hits have been dealt with. */
    ghost predicate ResolvedUpTo(sprites0: seq<Sprite>, colliders0: seq<Sprite>, hits: seq<Sprite>,
                                 i: nat, gems0: nat)
      requires i <= |hits|
      reads this, player
    {
      && player != null
      && colliders == WithoutIds(colliders0, IdsOf(hits[..i]))
      && sprites == WithoutIds(SmashIds(sprites0, PotIds(hits[..i])), GemIds(hits[..i]))
      && player.gems == gems0 + CountGems(hits[..i])
    }

    /** The collision loop's turn i, with the closed forms carried from i to i + 1. */
    method ResolveHit(ghost sprites0: seq<Sprite>, ghost colliders0: seq<Sprite>, hits: seq<Sprite>,
                      i: nat, ghost gems0: nat)
      requires Valid() && UniqueIds(hits) && i < |hits|
      requires forall h :: h in hits ==> h in colliders0
      requires ResolvedUpTo(sprites0, colliders0, hits, i, gems0)
      modifies this, player`gems
      ensures Valid() && player == old(player)
      ensures ResolvedUpTo(sprites0, colliders0, hits, i + 1, gems0)
      ensures camX == old(camX) && camY == old(camY)
    {
      var thing := hits[i];
      HitClosedForm(sprites0, colliders0, hits, i);
      Collide(thing);
    }

    /** The collision part of `App.update`: every collider on the player's cell, taken
        from a snapshot of the collider list, is smashed (a pot) or picked up (a gem). */
    method ResolveCollisions()
      requires Valid() && player != null
      modifies this, player`gems
      ensures Valid() && player == old(player)
      ensures var hits := CollidersAt(old(colliders), player.x, player.y);
              && colliders == NotAt(old(colliders), player.x, player.y)
              && sprites == SpritesAfter(old(sprites), hits)
              && player.gems == old(player.gems) + CountGems(hits)
      ensures camX == old(camX) && camY == old(camY)
    {
      ghost var sprites0, colliders0, gems0 := sprites, colliders, player.gems;
      var hits := CollidersAt(colliders, player.x, player.y);
      CollidersAtUnique(colliders, player.x, player.y);
      NoHitsYet(sprites0, colliders0, hits);
      var i := 0;
      while i < |hits|
        invariant 0 <= i <= |hits|
        invariant Valid() && player == old(player)
        invariant ResolvedUpTo(sprites0, colliders0, hits, i, gems0)
        invariant camX == old(camX) && camY == old(camY)
      {
        ResolveHit(sprites0, colliders0, hits, i, gems0);
        i := i + 1;
      }
      assert hits[..i] == hits;
      ConsumedColliders(colliders0, player.x, player.y);
    }

    /** The state one frame leaves when it starts from the lists `sprites0`/`colliders0`,
        `gems0` gems, the camera on (camX0, camY0) and the player on (x0, y0) facing `facing0`
        with flip `xflip0`: the player has stepped as `Player.update` says, every collider on
        its new cell has been dealt with, and the camera has caught up. */
    ghost predicate Played(keys: Keys, sprites0: seq<Sprite>, colliders0: seq<Sprite>, gems0: nat,
                           camX0: int, camY0: int, x0: int, y0: int, facing0: Facing, xflip0: int)
      reads this, player, tilemap, tilemap.cells
    {
      && tilemap.Valid() && tilemap.InBounds(x0 + DeltaX(keys), y0 + DeltaY(keys)) && player != null
      && player.MovedFrom(keys, tilemap, x0, y0, facing0, xflip0)
      && (var hits := CollidersAt(colliders0, player.x, player.y);
          && colliders == NotAt(colliders0, player.x, player.y)
          && sprites == SpritesAfter(sprites0, hits)
          && player.gems == gems0 + CountGems(hits))
      && camX == Follow(camX0, player.x) && camY == Follow(camY0, player.y)
    }

    /** `App.update` after the optional reset: the player moves, every collider on the
        player's new cell is dealt with, and the camera catches up with the player. */
    method Tick(keys: Keys)
      requires Valid() && player != null
      requires tilemap.InBounds(player.x + DeltaX(keys), player.y + DeltaY(keys))
      modifies this, player
      ensures Valid() && player == old(player) && player.tile == old(player.tile)
      ensures Played(keys, old(sprites), old(colliders), old(player.gems), old(camX), old(camY),
                     old(player.x), old(player.y), old(player.facing), old(player.xflip))
      ensures CollidersAt(colliders, player.x, player.y) == []
    {
      var p := player;
      p.Update(keys, tilemap);
      ResolveCollisions();
      NothingLeftAt(old(colliders), p.x, p.y);
      FollowPlayer();
    }

    /** The camera follows the player: on each axis it jumps to eight cells before the
        player once the player reaches its edge or leaves its view. */
    method FollowPlayer()
      requires player != null
      modifies this`camX, this`camY
      ensures camX == Follow(old(camX), player.x) && camY == Follow(old(camY), player.y)
    {
      if player.x <= camX || player.x >= camX + 15 {
        camX := player.x - 8;
      }
      if player.y <= camY || player.y >= camY + 15 {
        camY := player.y - 8;
      }
    }

    /** Where the player stands once the reset (if any) at the start of a frame is over,
        and whether the step the keys ask for stays on the map from there. */
    ghost predicate CanUpdate(keys: Keys, resetPressed: bool)
      reads this, tilemap, tilemap.cells, player
    {
      && Valid()
      && if resetPressed && CleanPrefix(level) < |level| then true
         else if resetPressed && LastSpawn(level, CleanPrefix(level)).Some? then
           var k, w := LastSpawn(level, CleanPrefix(level)).value, tilemap.width;
           w > 0 && tilemap.InBounds(k % w + DeltaX(keys), k / w + DeltaY(keys))
         else
           player != null && tilemap.InBounds(player.x + DeltaX(keys), player.y + DeltaY(keys))
    }

    /** `App.update`: reset the map when R was pressed, then play one frame. A map tile
        with an unknown code ends the frame with that code as the fault. */
    method Update(keys: Keys, resetPressed: bool) returns (fault: Option<int>)
      requires CanUpdate(keys, resetPressed)
      modifies this, tilemap.cells, player
      ensures fault == if resetPressed && CleanPrefix(level) < |level|
                       then Some(level[CleanPrefix(level)]) else None
      ensures Valid()
      ensures player == old(player) || fresh(player)
      ensures fault == None ==> player != null
      ensures fault == None ==> CollidersAt(colliders, player.x, player.y) == []
      ensures fault == None ==> camX < player.x < camX + 15 && camY < player.y < camY + 15
      ensures !resetPressed ==>
                && player == old(player) && player.tile == old(player.tile)
                && tilemap.cells[..] == old(tilemap.cells[..])
                && Played(keys, old(sprites), old(colliders), old(player.gems), old(camX), old(camY),
                          old(player.x), old(player.y), old(player.facing), old(player.xflip))
      ensures resetPressed && fault == None ==>
                forall k :: 0 <= k < |level| ==> tilemap.cells[k] == ClearCode(level[k])
      ensures resetPressed && fault == None ==>
                var w := tilemap.width;
                var spawned := Spawned(level, w, |level|);
                match LastSpawn(level, |level|)
                case Some(k) =>
                  && fresh(player) && player.tile == 32
                  && Played(keys, spawned, spawned, 0, 0, 0, k % w, k / w, East, 1)
                case None =>
                  && player == old(player) && player.tile == old(player.tile)
                  && Played(keys, spawned, spawned, old(player.gems), 0, 0,
                            old(player.x), old(player.y), old(player.facing), old(player.xflip))
    {
      if resetPressed {
        fault := Reset();
        if fault.Some? {
          return;
        }
        assert CleanPrefix(level) == |level|;
        assert sprites == Spawned(level, tilemap.width, |level|) && colliders == sprites;
      }
      fault := None;
      Tick(keys);
    }
  }

  /** `App.__init__` without the window: a fresh world whose map is then reset; the
      player exists exactly when the scanned part of the map holds a player marker. */
  method NewApp(width: nat, height: nat, level: seq<int>) returns (app: World, fault: Option<int>)
    requires |level| == width * height
    ensures fresh(app) && app.Valid() && app.level == level
    ensures fresh(app.tilemap) && fresh(app.tilemap.cells) && (app.player == null || fresh(app.player))
    ensures fault == if CleanPrefix(level) < |level| then Some(level[CleanPrefix(level)]) else None
    ensures app.player != null <==> LastSpawn(level, CleanPrefix(level)).Some?
    ensures app.tilemap.width == width && app.tilemap.height == height
    ensures app.colliders == app.sprites && app.camX == 0 && app.camY == 0
    ensures var n := CleanPrefix(level);
            && (forall k :: 0 <= k < n ==> app.tilemap.cells[k] == ClearCode(level[k]))
            && (forall k :: n <= k < |level| ==> app.tilemap.cells[k] == level[k])
            && app.sprites == Spawned(level, width, n)
    ensures match LastSpawn(level, CleanPrefix(level))
            case None => app.player == null
            case Some(k) =>
              && app.player != null
              && app.player.x == k % width && app.player.y == k / width && app.player.tile == 32
              && app.player.gems == 0 && app.player.xflip == 1 && app.player.facing == East
  {
    app := new World(width, height, level);
    fault := app.Reset();
  }

  /** A 4 x 3 room walled in by code 1 with the player at (1, 1) and a gem at (2, 1). */
  function GemRoom(): seq<int>
  {
    [1, 1, 1, 1, 1, 32, 33, 1, 1, 1, 1, 1]
  }

  /** What the scan of `GemRoom` finds: no unknown code, the player marker at cell 5
      and one gem, spawned from cell 6. */
  lemma GemRoomScan()
    ensures CleanPrefix(GemRoom()) == 12
    ensures LastSpawn(GemRoom(), 12) == Some(5)
    ensures Spawned(GemRoom(), 4, 12) == [Sprite(6, Gem, 2, 1, 33)]
  {
    GemRoomClean();
    GemRoomPlayer();
    GemRoomSprites();
  }

  lemma GemRoomClean()
    ensures CleanPrefix(GemRoom()) == 12
  {
    var level := GemRoom();
    assert forall k :: 0 <= k < 12 ==> level[k] == 1 || level[k] == 32 || level[k] == 33;
    CleanPrefixAt(level, 12);
  }

  lemma GemRoomPlayer()
    ensures LastSpawn(GemRoom(), 12) == Some(5)
  {
    var level := GemRoom();
    assert level[5] == 32;
    assert forall j :: 5 < j < 12 ==> level[j] != 32;
  }

  lemma GemRoomSprites()
    ensures Spawned(GemRoom(), 4, 12) == [Sprite(6, Gem, 2, 1, 33)]
  {
    var level := GemRoom();
    var gem := Sprite(6, Gem, 2, 1, 33);
    assert SpawnOf(level[6], 6, 4) == gem;
    assert Spawned(level, 4, 1) == [];
    assert Spawned(level, 4, 2) == [];
    assert Spawned(level, 4, 3) == [];
    assert Spawned(level, 4, 4) == [];
    assert Spawned(level, 4, 5) == [];
    assert Spawned(level, 4, 6) == [];
    assert Spawned(level, 4, 7) == [gem];
    assert Spawned(level, 4, 8) == [gem];
    assert Spawned(level, 4, 9) == [gem];
    assert Spawned(level, 4, 10) == [gem];
    assert Spawned(level, 4, 11) == [gem];
  }

  /** `App.__init__` on `GemRoom`: the player stands on (1, 1), the gem at (2, 1) is
      drawn and collides, and its cell is empty. */
  method NewGemRoom() returns (app: World)
    ensures fresh(app) && fresh(app.tilemap) && fresh(app.tilemap.cells) && fresh(app.player)
    ensures app.Valid() && app.level == GemRoom()
    ensures app.player != null && app.player.x == 1 && app.player.y == 1
    ensures app.player.gems == 0
    ensures app.tilemap.width == 4 && app.tilemap.height == 3
    ensures app.colliders == [Sprite(6, Gem, 2, 1, 33)] && app.sprites == app.colliders
    ensures app.tilemap.cells[6] == 0 && app.camX == 0 && app.camY == 0
  {
    GemRoomScan();
    var fault;
    app, fault := NewApp(4, 3, GemRoom());
  }

  /** In `GemRoom`, one frame with the right key held moves the player onto the gem,
      which is picked up and no longer drawn, while the camera stays where it was. */
  method GemPickedUp() returns (app: World)
    ensures fresh(app) && fresh(app.tilemap) && fresh(app.tilemap.cells) && fresh(app.player)
    ensures app.Valid() && app.level == GemRoom()
    ensures app.tilemap.width == 4 && app.tilemap.height == 3
    ensures app.player != null && app.player.x == 2 && app.player.y == 1
    ensures app.player.gems == 1 && app.player.facing == West
    ensures Sprite(6, Gem, 2, 1, 33) !in app.sprites
    ensures app.camX == 0 && app.camY == 0
  {
    var gem := Sprite(6, Gem, 2, 1, 33);
    app := NewGemRoom();
    var keys := Keys(false, false, false, true);
    assert DeltaX(keys) == 1 && DeltaY(keys) == 0;
    app.tilemap.GetCell(2, 1, 6);
    var fault := app.Update(keys, false);
    assert app.player.x == 2 && app.player.y == 1;
    var hits := CollidersAt([gem], 2, 1);
    assert hits == [gem];
    assert hits[..|hits| - 1] == [];
    assert CountGems(hits) == 1;
    assert app.player.gems == 0 + CountGems(hits);
    GemFate([gem], hits, gem);
  }

  /** The same frame seen from outside: the player's column, gems, whether the gem is
      still drawn, the facing and the camera's column. */
  method GemScenario() returns (x: int, gems: nat, gemDrawn: bool, facing: Facing, camX: int)
    ensures x == 2 && gems == 1 && !gemDrawn && facing == West && camX == 0
  {
    var app := GemPickedUp();
    x, gems, gemDrawn, facing, camX := app.player.x, app.player.gems,
      Sprite(6, Gem, 2, 1, 33) in app.sprites, app.player.facing, app.camX;
  }

  /** Standing on (1, 1) of `GemRoom` hits nothing, so a frame there leaves the lists
      and the gem count as the scan made them. */
  lemma NothingAtStart()
    ensures CollidersAt([Sprite(6, Gem, 2, 1, 33)], 1, 1) == []
    ensures SpritesAfter([Sprite(6, Gem, 2, 1, 33)], []) == [Sprite(6, Gem, 2, 1, 33)]
    ensures NotAt([Sprite(6, Gem, 2, 1, 33)], 1, 1) == [Sprite(6, Gem, 2, 1, 33)]
    ensures CountGems([]) == 0
  {
    var gem := Sprite(6, Gem, 2, 1, 33);
    assert PotIds([]) == {} && GemIds([]) == {};
    assert SmashIds([gem], {}) == [gem];
    WithoutNone([gem], {});
  }

  /** After the gem was picked up, a frame with the reset key held and no direction
      restores the scanned room exactly: the player is back on (1, 1) with no gems, the
      gem is drawn and collides again, and the camera is at 0. */
  method ResetScenario() returns (x: int, y: int, gems: nat, sprites: seq<Sprite>,
                                  colliders: seq<Sprite>, camX: int, camY: int)
    ensures x == 1 && y == 1 && gems == 0 && camX == 0 && camY == 0
    ensures sprites == [Sprite(6, Gem, 2, 1, 33)] && colliders == sprites
  {
    var gem := Sprite(6, Gem, 2, 1, 33);
    var app := GemPickedUp();
    GemRoomScan();
    NothingAtStart();
    var still := Keys(false, false, false, false);
    assert DeltaX(still) == 0 && DeltaY(still) == 0;
    var fault := app.Update(still, true);
    assert |GemRoom()| == 12 && 5 % 4 == 1 && 5 / 4 == 1;
    assert app.Played(still, [gem], [gem], 0, 0, 0, 1, 1, East, 1);
    x, y, gems, sprites, colliders := app.player.x, app.player.y, app.player.gems, app.sprites, app.colliders;
    camX, camY := app.camX, app.camY;
  }
}
