/** The tilemap the game reads and writes: pyxel's tilemap 0, a `width` x `height`
    grid of tile codes, stored row by row (cell (x, y) at index y * width + x). */
module Tiles {

  /** Cell (x, y) of a row-major grid lies inside the grid's storage. */
  lemma IndexInRange(x: int, y: int, w: int, h: int)
    requires 0 <= x < w && 0 <= y < h
    ensures 0 <= y * w + x < w * h
  {
    assert y * w <= (h - 1) * w;
  }

  /** The row-major index of (x, y) gives back x and y by remainder and division. */
  lemma RowMajor(x: int, y: int, w: int)
    requires 0 <= x < w && 0 <= y
    ensures (y * w + x) / w == y && (y * w + x) % w == x
  {
    var k := y * w + x;
    var q, r := k / w, k % w;
    assert k == w * q + r && 0 <= r < w;
    assert w * (y - q) == r - x;
    if y > q {
      MulAtLeast(w, y - q);
    } else if y < q {
      MulAtLeast(w, q - y);
    }
  }

  /** A positive multiple of a positive width is at least that width. */
  lemma MulAtLeast(w: int, d: int)
    requires w > 0 && d >= 1
    ensures w * d >= w
  {
  }

  class Tilemap {
    const width: nat
    const height: nat
    const cells: array<int>

    ghost predicate Valid()
      reads this
    {
      cells.Length == width * height
    }

    predicate InBounds(x: int, y: int)
      reads this
    {
      0 <= x < width && 0 <= y < height
    }

    /** An all-empty map of the given size. */
    constructor (width: nat, height: nat)
      ensures this.width == width && this.height == height
      ensures Valid() && fresh(cells)
      ensures forall k :: 0 <= k < cells.Length ==> cells[k] == 0
    {
      this.width := width;
      this.height := height;
      cells := new int[width * height](_ => 0);
    }

    /** `tilemap.get(x, y)` for a cell inside the map: one of the stored codes
        (`GetCell` says which). */
    function Get(x: int, y: int): (t: int)
      reads this, cells
      requires Valid() && InBounds(x, y)
      ensures t in cells[..]
    {
      IndexInRange(x, y, width, height);
      cells[y * width + x]
    }

    /** Get reads the stored code of the one index whose column (remainder by width)
        is x and whose row (quotient by width) is y. */
    lemma GetCell(x: int, y: int, k: int)
      requires Valid() && InBounds(x, y)
      requires 0 <= k < cells.Length && k % width == x && k / width == y
      ensures Get(x, y) == cells[k]
    {
    }

    /** `tilemap.set(x, y, v)`: only cell (x, y) changes. */
    method Set(x: int, y: int, v: int)
      requires Valid() && InBounds(x, y)
      modifies cells
      ensures forall k :: 0 <= k < cells.Length ==>
                cells[k] == if k == y * width + x then v else old(cells[k])
    {
      var k := y * width + x;
      IndexInRange(x, y, width, height);
      cells[k] := v;
    }
  }

  /** `walkable(x, y)`: only an empty cell (code 0) can be entered; a wall (code 1)
      and every marker code block the way. */
  predicate Walkable(grid: Tilemap, x: int, y: int)
    reads grid, grid.cells
    requires grid.Valid() && grid.InBounds(x, y)
  {
    grid.Get(x, y) == 0
  }
}
