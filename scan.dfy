/** What `App.scan_map` does to a map, stated on the map's row-major cell sequence:
    which codes it accepts, what each cell holds afterwards, which sprites it spawns
    and where the player ends up. The scanning loop itself is `Game.World.ScanMap`. */
module Scan {
  import opened Wrappers
  import opened Entities

  /** The codes the scanner knows: empty, solid, pot, player, gem. */
  predicate KnownCode(t: int)
  {
    t == 0 || t == 1 || t == 2 || t == 32 || t == 33
  }

  /** A code that spawns a sprite into the render and collider lists. */
  predicate SpriteCode(t: int)
  {
    t == 2 || t == 33
  }

  /** The code a known cell holds after the scan: spawn markers are cleared to empty. */
  function ClearCode(t: int): (r: int)
    requires KnownCode(t)
    ensures r == 0 || r == 1
    ensures r == 1 <==> t == 1
    ensures t == 0 || t == 1 ==> r == t
  {
    if t == 2 || t == 32 || t == 33 then 0 else t
  }

  /** How many cells, in scan order, the scanner gets through: all of them, or up to
      the first unknown code, where it raises. */
  function CleanPrefix(c: seq<int>): (n: nat)
    ensures n <= |c|
    ensures forall k :: 0 <= k < n ==> KnownCode(c[k])
    ensures n < |c| ==> !KnownCode(c[n])
  {
    if c == [] || !KnownCode(c[0]) then 0 else 1 + CleanPrefix(c[1..])
  }

  /** The sprite spawned from cell k (code t) of a map `w` cells wide. */
  function SpawnOf(t: int, k: nat, w: nat): Sprite
    requires SpriteCode(t) && w > 0
  {
    Sprite(k, if t == 2 then Pot else Gem, k % w, k / w, t)
  }

  /** The sprites spawned from the first n cells, in scan order. */
  function Spawned(c: seq<int>, w: nat, n: nat): seq<Sprite>
    requires n <= |c| && (n > 0 ==> w > 0)
  {
    if n == 0 then []
    else Spawned(c, w, n - 1) + (if SpriteCode(c[n - 1]) then [SpawnOf(c[n - 1], n - 1, w)] else [])
  }

  /** The cell of the last player marker among the first n cells. */
  function LastSpawn(c: seq<int>, n: nat): (r: Option<nat>)
    requires n <= |c|
    ensures r.Some? ==> r.value < n && c[r.value] == 32
    ensures r.Some? ==> forall j :: r.value < j < n ==> c[j] != 32
    ensures r.None? ==> forall j :: 0 <= j < n ==> c[j] != 32
  {
    if n == 0 then None
    else if c[n - 1] == 32 then Some(n - 1)
    else LastSpawn(c, n - 1)
  }

  /** Every spawned sprite is the one its cell's code calls for, and the sprites come
      in strictly increasing cell order (row-major: y outer, x inner). */
  lemma {:induction false} SpawnedSound(c: seq<int>, w: nat, n: nat)
    requires n <= |c| && (n > 0 ==> w > 0)
    ensures forall i :: 0 <= i < |Spawned(c, w, n)| ==>
              var s := Spawned(c, w, n)[i];
              s.id < n && SpriteCode(c[s.id]) && s == SpawnOf(c[s.id], s.id, w)
    ensures forall i, j :: 0 <= i < j < |Spawned(c, w, n)| ==>
              Spawned(c, w, n)[i].id < Spawned(c, w, n)[j].id
  {
    if n > 0 {
      SpawnedSound(c, w, n - 1);
    }
  }

  /** Every cell holding a pot or gem code spawns its sprite. */
  lemma {:induction false} SpawnedComplete(c: seq<int>, w: nat, n: nat, k: nat)
    requires n <= |c| && (n > 0 ==> w > 0)
    requires k < n && SpriteCode(c[k])
    ensures SpawnOf(c[k], k, w) in Spawned(c, w, n)
  {
    if k < n - 1 {
      SpawnedComplete(c, w, n - 1, k);
    }
  }
}
