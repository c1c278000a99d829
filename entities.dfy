/** The game's entities (game.py classes Thing, Sprite, Pot and Player), on the grid.
    Pixel positions (px, py) are left out; see Interpolation for the smoothing step. */
module Entities {
  import opened Tiles

  /** The `name` a spawned sprite carries: the map scanner makes only pots and gems. */
  datatype Name = Pot | Gem

  /** A pot or a gem. `id` stands for the object's identity (the row-major index of the
      cell it was spawned from); x, y is its grid cell, `tile` its sprite-sheet index. */
  datatype Sprite = Sprite(id: nat, name: Name, x: int, y: int, tile: int)

  /** `Pot.smash`: the pot shows the next tile of the sheet. */
  function Smashed(s: Sprite): (r: Sprite)
    ensures r.tile == s.tile + 1 && r != s
    ensures r.id == s.id && r.name == s.name && r.x == s.x && r.y == s.y
  {
    s.(tile := s.tile + 1)
  }

  /** The image-bank pixel coordinates (u, v) `Sprite.draw` reads a tile from:
      the sheet is 32 tiles of 8 x 8 pixels per row. Python's `%` and `//` round
      towards minus infinity, which for the positive divisor 32 agrees with Dafny's. */
  function SheetSource(tile: int): (uv: (int, int))
    ensures 0 <= uv.0 <= 248 && uv.0 % 8 == 0 && uv.1 % 8 == 0
    ensures uv.0 / 8 + 32 * (uv.1 / 8) == tile
    ensures tile >= 0 ==> uv.1 >= 0
  {
    ((tile % 32) * 8, (tile / 32) * 8)
  }

  /** The four direction inputs of one frame, in the order `Player.update` checks them;
      each is already the "either binding pressed" of its arrow key and letter key. */
  datatype Keys = Keys(up: bool, down: bool, left: bool, right: bool)

  datatype Direction = Up | Down | Left | Right

  datatype Facing = North | South | East | West

  /** The pressed directions in check order. */
  function Pressed(keys: Keys): seq<Direction>
  {
    (if keys.up then [Up] else []) + (if keys.down then [Down] else [])
    + (if keys.left then [Left] else []) + (if keys.right then [Right] else [])
  }

  /** The facing each direction sets; the source maps left to "east" and right to "west". */
  function FacingOf(d: Direction): Facing
  {
    match d
    case Up => North
    case Down => South
    case Left => East
    case Right => West
  }

  /** The facing after the turns of one frame, starting from `facing0`: each pressed
      direction, checked in order, overwrites the one before. */
  function Turned(keys: Keys, facing0: Facing): Facing
  {
    if keys.right then West else if keys.left then East
    else if keys.down then South else if keys.up then North else facing0
  }

  /** The direction checked last wins: right over left over down over up, and without
      a pressed direction the facing stays. */
  lemma FacingPriority(keys: Keys, facing0: Facing)
    ensures Pressed(keys) == [] <==> !(keys.up || keys.down || keys.left || keys.right)
    ensures Pressed(keys) == [] ==> Turned(keys, facing0) == facing0
    ensures Pressed(keys) != [] ==>
              Turned(keys, facing0) == FacingOf(Pressed(keys)[|Pressed(keys)| - 1])
  {
  }

  /** The step along one axis from its negative and positive inputs. */
  function Delta(neg: bool, pos: bool): (d: int)
    ensures -1 <= d <= 1
    ensures d == 1 <==> pos && !neg
    ensures d == -1 <==> neg && !pos
    ensures d == 0 <==> neg == pos
  {
    (if pos then 1 else 0) - (if neg then 1 else 0)
  }

  function DeltaX(keys: Keys): int { Delta(keys.left, keys.right) }

  function DeltaY(keys: Keys): int { Delta(keys.up, keys.down) }

  /** The player: a sprite with a gem counter and a facing. */
  class Player {
    var x: int
    var y: int
    var tile: int
    var xflip: int
    var gems: nat
    var facing: Facing

    constructor (x: int, y: int, tile: int)
      ensures this.x == x && this.y == y && this.tile == tile
      ensures xflip == 1 && gems == 0 && facing == East
    {
      this.x := x;
      this.y := y;
      this.tile := tile;
      xflip := 1;
      gems := 0;
      facing := East;
    }

    /** Where `Player.update` leaves the player that stood on (x0, y0), facing facing0 with
        flip xflip0: one step to the destination when it is walkable, turned towards the last
        direction pressed, mirrored when left or right was pressed. */
    ghost predicate MovedFrom(keys: Keys, grid: Tilemap, x0: int, y0: int, facing0: Facing, xflip0: int)
      reads this`x, this`y, this`facing, this`xflip, grid, grid.cells
      requires grid.Valid() && grid.InBounds(x0 + DeltaX(keys), y0 + DeltaY(keys))
    {
      var tx, ty := x0 + DeltaX(keys), y0 + DeltaY(keys);
      && (if Walkable(grid, tx, ty) then x == tx && y == ty else x == x0 && y == y0)
      && facing == Turned(keys, facing0)
      && xflip == (if keys.right then 1 else if keys.left then -1 else xflip0)
    }

    /** `Player.update` on the grid: add up the pressed directions, turn, and step to
        the destination cell when it is walkable. */
    method Update(keys: Keys, grid: Tilemap)
      requires grid.Valid() && grid.InBounds(x + DeltaX(keys), y + DeltaY(keys))
      modifies this
      ensures MovedFrom(keys, grid, old(x), old(y), old(facing), old(xflip))
      ensures gems == old(gems) && tile == old(tile)
    {
      var cx, cy := 0, 0;
      if keys.up {
        cy := cy - 1;
        facing := North;
      }
      if keys.down {
        cy := cy + 1;
        facing := South;
      }
      assert cy == DeltaY(keys);
      assert facing == Turned(Keys(keys.up, keys.down, false, false), old(facing));
      if keys.left {
        cx := cx - 1;
        xflip := -1;
        facing := East;
      }
      if keys.right {
        cx := cx + 1;
        xflip := 1;
        facing := West;
      }
      assert cx == DeltaX(keys) && facing == Turned(keys, old(facing));
      if Walkable(grid, x + cx, y + cy) {
        x, y := x + cx, y + cy;
      }
    }
  }
}
