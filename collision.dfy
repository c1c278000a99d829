/** The list bookkeeping behind collisions: `App.colliders_at`, `list.remove` on the
    render and collider lists, and what one frame's collisions leave in those lists. */
module Collision {
  import opened Entities

  /** The ids of the sprites in s. */
  function IdsOf(s: seq<Sprite>): set<nat>
  {
    set e | e in s :: e.id
  }

  /** No two entries of s stand for the same object. */
  predicate UniqueIds(s: seq<Sprite>)
  {
    forall i, j :: 0 <= i < j < |s| ==> s[i].id != s[j].id
  }

  lemma UniqueCons(h: Sprite, t: seq<Sprite>)
    ensures UniqueIds([h] + t) <==> h.id !in IdsOf(t) && UniqueIds(t)
  {
    var s := [h] + t;
    if UniqueIds(s) {
      forall e | e in t
        ensures e.id != h.id
      {
        var j :| 0 <= j < |t| && t[j] == e;
        assert s[0] == h && s[j + 1] == e;
        assert s[0].id != s[j + 1].id;
      }
      forall i, j | 0 <= i < j < |t|
        ensures t[i].id != t[j].id
      {
        assert s[i + 1] == t[i] && s[j + 1] == t[j];
      }
    }
    if h.id !in IdsOf(t) && UniqueIds(t) {
      forall i, j | 0 <= i < j < |s|
        ensures s[i].id != s[j].id
      {
        assert s[j] == t[j - 1] && s[j] in t;
        if i > 0 {
          assert s[i] == t[i - 1];
        }
      }
    }
  }

  /** With unique ids, an id names at most one entry. */
  lemma SameId(s: seq<Sprite>, a: Sprite, b: Sprite)
    requires UniqueIds(s) && a in s && b in s && a.id == b.id
    ensures a == b
  {
    var i :| 0 <= i < |s| && s[i] == a;
    var j :| 0 <= j < |s| && s[j] == b;
    assert i == j;
  }

  /** `App.colliders_at(x, y)`: the colliders standing on (x, y), in list order. */
  function CollidersAt(cs: seq<Sprite>, x: int, y: int): (r: seq<Sprite>)
    ensures |r| <= |cs|
    ensures forall e :: e in r <==> e in cs && e.x == x && e.y == y
  {
    if cs == [] then []
    else (if cs[0].x == x && cs[0].y == y then [cs[0]] else []) + CollidersAt(cs[1..], x, y)
  }

  /** The colliders standing anywhere but (x, y), in list order. */
  function NotAt(cs: seq<Sprite>, x: int, y: int): (r: seq<Sprite>)
    ensures |r| <= |cs|
    ensures forall e :: e in r <==> e in cs && !(e.x == x && e.y == y)
  {
    if cs == [] then []
    else (if cs[0].x == x && cs[0].y == y then [] else [cs[0]]) + NotAt(cs[1..], x, y)
  }

  /** Once the colliders on (x, y) are gone, none is found there. */
  lemma {:induction false} NothingLeftAt(cs: seq<Sprite>, x: int, y: int)
    ensures CollidersAt(NotAt(cs, x, y), x, y) == []
  {
    if cs != [] {
      NothingLeftAt(cs[1..], x, y);
      var rest := NotAt(cs[1..], x, y);
      if !(cs[0].x == x && cs[0].y == y) {
        assert NotAt(cs, x, y) == [cs[0]] + rest;
        assert ([cs[0]] + rest)[0] == cs[0] && ([cs[0]] + rest)[1..] == rest;
        assert CollidersAt([cs[0]] + rest, x, y) == CollidersAt(rest, x, y);
      } else {
        assert NotAt(cs, x, y) == [] + rest == rest;
      }
    }
  }

  /** `colliders_at` keeps list order: it distributes over concatenation. */
  lemma {:induction false} CollidersAtAppend(a: seq<Sprite>, b: seq<Sprite>, x: int, y: int)
    ensures CollidersAt(a + b, x, y) == CollidersAt(a, x, y) + CollidersAt(b, x, y)
  {
    if a != [] {
      assert (a + b)[0] == a[0] && (a + b)[1..] == a[1..] + b;
      CollidersAtAppend(a[1..], b, x, y);
    } else {
      assert a + b == b;
    }
  }

  /** Selecting colliders never selects one object twice. */
  lemma {:induction false} CollidersAtUnique(cs: seq<Sprite>, x: int, y: int)
    requires UniqueIds(cs)
    ensures UniqueIds(CollidersAt(cs, x, y))
  {
    if cs != [] {
      assert cs == [cs[0]] + cs[1..];
      UniqueCons(cs[0], cs[1..]);
      CollidersAtUnique(cs[1..], x, y);
      if cs[0].x == x && cs[0].y == y {
        UniqueCons(cs[0], CollidersAt(cs[1..], x, y));
      }
    }
  }

  /** The entries of s whose id is not in I, in order. */
  function WithoutIds(s: seq<Sprite>, I: set<nat>): seq<Sprite>
  {
    if s == [] then []
    else (if s[0].id in I then [] else [s[0]]) + WithoutIds(s[1..], I)
  }

  lemma {:induction false} WithoutMember(s: seq<Sprite>, I: set<nat>, e: Sprite)
    ensures e in WithoutIds(s, I) <==> e in s && e.id !in I
  {
    if s != [] {
      WithoutMember(s[1..], I, e);
      assert s == [s[0]] + s[1..];
    }
  }

  lemma WithoutIdsOf(s: seq<Sprite>, I: set<nat>)
    ensures IdsOf(WithoutIds(s, I)) <= IdsOf(s)
  {
    forall e | e in WithoutIds(s, I)
      ensures e.id in IdsOf(s)
    {
      WithoutMember(s, I, e);
    }
  }

  lemma WithoutMembers(s: seq<Sprite>, I: set<nat>)
    ensures forall e :: e in WithoutIds(s, I) <==> e in s && e.id !in I
  {
    forall e {
      WithoutMember(s, I, e);
    }
  }

  /** s with every entry whose id is in I smashed, in place. */
  function SmashIds(s: seq<Sprite>, I: set<nat>): (r: seq<Sprite>)
    ensures |r| == |s|
    ensures forall i :: 0 <= i < |s| ==> r[i] == if s[i].id in I then Smashed(s[i]) else s[i]
  {
    if s == [] then []
    else [if s[0].id in I then Smashed(s[0]) else s[0]] + SmashIds(s[1..], I)
  }

  /** `list.remove`: drop the first entry that is the object with id k. */
  function Remove(s: seq<Sprite>, k: nat): (r: seq<Sprite>)
    ensures k in IdsOf(s) ==> |r| == |s| - 1
    ensures k !in IdsOf(s) ==> r == s
  {
    if s == [] then []
    else
      assert s == [s[0]] + s[1..];
      assert k in IdsOf(s) <==> s[0].id == k || k in IdsOf(s[1..]);
      if s[0].id == k then s[1..]
      else [s[0]] + Remove(s[1..], k)
  }

  /** The position of the first entry of s that is the object with id k. */
  function FirstWith(s: seq<Sprite>, k: nat): nat
    requires k in IdsOf(s)
  {
    assert s[0] in s;
    if s[0].id == k then 0
    else
      assert s == [s[0]] + s[1..];
      assert k in IdsOf(s[1..]);
      1 + FirstWith(s[1..], k)
  }

  /** `list.remove` of a present object drops its first occurrence and keeps the
      entries before and after it, in order. */
  lemma {:induction false} RemoveFirst(s: seq<Sprite>, k: nat)
    requires k in IdsOf(s)
    ensures var i := FirstWith(s, k);
            && i < |s| && s[i].id == k && (forall j :: 0 <= j < i ==> s[j].id != k)
            && Remove(s, k) == s[..i] + s[i + 1..]
  {
    assert s[0] in s;
    if s[0].id != k {
      var t := s[1..];
      assert s == [s[0]] + t;
      assert k in IdsOf(t);
      RemoveFirst(t, k);
      var i := FirstWith(t, k);
      assert s[..i + 1] == [s[0]] + t[..i];
      assert s[i + 2..] == t[i + 1..];
    }
  }

  lemma {:induction false} WithoutNone(s: seq<Sprite>, I: set<nat>)
    requires forall e :: e in s ==> e.id !in I
    ensures WithoutIds(s, I) == s
  {
    if s != [] {
      assert s[0] in s;
      WithoutNone(s[1..], I);
    }
  }

  /** Only the ids that occur in s matter to WithoutIds. */
  lemma {:induction false} WithoutSameIds(s: seq<Sprite>, I: set<nat>, J: set<nat>)
    requires forall e :: e in s ==> (e.id in I <==> e.id in J)
    ensures WithoutIds(s, I) == WithoutIds(s, J)
  {
    if s != [] {
      assert s[0] in s;
      WithoutSameIds(s[1..], I, J);
    }
  }

  /** With unique ids, removing the object with id k drops every entry with that id. */
  lemma {:induction false} RemoveUnique(s: seq<Sprite>, k: nat)
    requires UniqueIds(s)
    ensures Remove(s, k) == WithoutIds(s, {k})
  {
    if s != [] {
      assert s == [s[0]] + s[1..];
      UniqueCons(s[0], s[1..]);
      if s[0].id == k {
        WithoutNone(s[1..], {k});
      } else {
        RemoveUnique(s[1..], k);
      }
    }
  }

  lemma {:induction false} WithoutWithout(s: seq<Sprite>, A: set<nat>, B: set<nat>)
    ensures WithoutIds(WithoutIds(s, A), B) == WithoutIds(s, A + B)
  {
    if s != [] {
      WithoutWithout(s[1..], A, B);
      var rest := WithoutIds(s[1..], A);
      if s[0].id in A {
        assert WithoutIds(s, A) == rest;
        assert WithoutIds(s, A + B) == WithoutIds(s[1..], A + B);
      } else {
        var once := [s[0]] + rest;
        assert WithoutIds(s, A) == once;
        assert once[0] == s[0] && once[1..] == rest;
        assert WithoutIds(once, B) == (if s[0].id in B then [] else [s[0]]) + WithoutIds(rest, B);
      }
    }
  }

  /** Smashing and dropping entries commute: smashing keeps ids. */
  lemma {:induction false} SmashWithout(s: seq<Sprite>, P: set<nat>, G: set<nat>)
    ensures SmashIds(WithoutIds(s, G), P) == WithoutIds(SmashIds(s, P), G)
  {
    if s != [] {
      SmashWithout(s[1..], P, G);
      var h := if s[0].id in P then Smashed(s[0]) else s[0];
      assert SmashIds(s, P) == [h] + SmashIds(s[1..], P);
      if s[0].id !in G {
        assert WithoutIds(s, G) == [s[0]] + WithoutIds(s[1..], G);
      }
    }
  }

  /** Smashing two disjoint id sets one after the other smashes each entry at most once. */
  lemma SmashSmash(s: seq<Sprite>, A: set<nat>, B: set<nat>)
    requires A !! B
    ensures SmashIds(SmashIds(s, A), B) == SmashIds(s, A + B)
  {
  }

  lemma {:induction false} WithoutUnique(s: seq<Sprite>, I: set<nat>)
    requires UniqueIds(s)
    ensures UniqueIds(WithoutIds(s, I))
  {
    if s != [] {
      assert s == [s[0]] + s[1..];
      UniqueCons(s[0], s[1..]);
      WithoutUnique(s[1..], I);
      if s[0].id !in I {
        WithoutMembers(s[1..], I);
        UniqueCons(s[0], WithoutIds(s[1..], I));
      }
    }
  }

  lemma SmashUnique(s: seq<Sprite>, I: set<nat>)
    requires UniqueIds(s)
    ensures UniqueIds(SmashIds(s, I))
  {
    var r := SmashIds(s, I);
    forall i, j | 0 <= i < j < |r|
      ensures r[i].id != r[j].id
    {
      assert r[i].id == s[i].id && r[j].id == s[j].id;
    }
  }

  /** An entry whose id is not smashed is still there, unchanged. */
  lemma SmashKeeps(s: seq<Sprite>, I: set<nat>, e: Sprite)
    requires e in s && e.id !in I
    ensures e in SmashIds(s, I)
  {
    var i :| 0 <= i < |s| && s[i] == e;
    assert SmashIds(s, I)[i] == e;
  }

  /** Every sprite a collision pass can leave behind is an old object. */
  lemma SmashIdsOf(s: seq<Sprite>, I: set<nat>)
    ensures IdsOf(SmashIds(s, I)) == IdsOf(s)
  {
    var r := SmashIds(s, I);
    forall e | e in r
      ensures e.id in IdsOf(s)
    {
      var i :| 0 <= i < |r| && r[i] == e;
      assert s[i] in s;
    }
    forall e | e in s
      ensures e.id in IdsOf(r)
    {
      var i :| 0 <= i < |s| && s[i] == e;
      assert r[i] in r;
    }
  }

  /** Removing, one by one, every collider found on (x, y) leaves exactly the colliders
      standing elsewhere, in their old order. */
  lemma {:induction false} ConsumedColliders(cs: seq<Sprite>, x: int, y: int)
    requires UniqueIds(cs)
    ensures WithoutIds(cs, IdsOf(CollidersAt(cs, x, y))) == NotAt(cs, x, y)
  {
    if cs != [] {
      var c, t := cs[0], cs[1..];
      assert cs == [c] + t;
      UniqueCons(c, t);
      var I, It := IdsOf(CollidersAt(cs, x, y)), IdsOf(CollidersAt(t, x, y));
      var at := c.x == x && c.y == y;
      assert CollidersAt(cs, x, y) == (if at then [c] else []) + CollidersAt(t, x, y);
      assert I == (if at then {c.id} else {}) + It;
      forall e | e in t
        ensures e.id in I <==> e.id in It
      {
      }
      WithoutSameIds(t, I, It);
      ConsumedColliders(t, x, y);
    }
  }

  /** The ids of the pots, and of the gems, among the sprites s. */
  function PotIds(s: seq<Sprite>): set<nat>
  {
    set e | e in s && e.name == Pot :: e.id
  }

  function GemIds(s: seq<Sprite>): set<nat>
  {
    set e | e in s && e.name == Gem :: e.id
  }

  /** How many of the sprites s are gems. */
  function CountGems(s: seq<Sprite>): nat
  {
    if s == [] then 0
    else CountGems(s[..|s| - 1]) + (if s[|s| - 1].name == Gem then 1 else 0)
  }

  /** The render list after the collisions with `hits`: each pot hit is smashed in place,
      each gem hit is gone, every other sprite stays as and where it was. */
  function SpritesAfter(sprites: seq<Sprite>, hits: seq<Sprite>): seq<Sprite>
  {
    WithoutIds(SmashIds(sprites, PotIds(hits)), GemIds(hits))
  }

  /** A hit sharing an id with a sprite is that sprite. */
  lemma HitIsSprite(sprites: seq<Sprite>, hits: seq<Sprite>, s: Sprite)
    requires UniqueIds(sprites) && (forall h :: h in hits ==> h in sprites) && s in sprites
    ensures s.id in PotIds(hits) ==> s in hits && s.name == Pot
    ensures s.id in GemIds(hits) ==> s in hits && s.name == Gem
  {
    forall h | h in hits && h.id == s.id
      ensures h == s
    {
      SameId(sprites, h, s);
    }
  }

  /** A pot that was hit is drawn smashed, and no longer as it was. */
  lemma PotFate(sprites: seq<Sprite>, hits: seq<Sprite>, s: Sprite)
    requires UniqueIds(sprites) && (forall h :: h in hits ==> h in sprites)
    requires s in hits && s.name == Pot
    ensures Smashed(s) in SpritesAfter(sprites, hits) && s !in SpritesAfter(sprites, hits)
  {
    var P, G := PotIds(hits), GemIds(hits);
    var smashed := SmashIds(sprites, P);
    var after := WithoutIds(smashed, G);
    var i :| 0 <= i < |sprites| && sprites[i] == s;
    HitIsSprite(sprites, hits, s);
    assert s.id in P && s.id !in G;
    assert smashed[i] == Smashed(s);
    WithoutMember(smashed, G, Smashed(s));
    WithoutMember(smashed, G, s);
  }

  /** A gem that was hit is gone. */
  lemma GemFate(sprites: seq<Sprite>, hits: seq<Sprite>, s: Sprite)
    requires s in hits && s.name == Gem
    ensures s.id !in IdsOf(SpritesAfter(sprites, hits))
  {
    var P, G := PotIds(hits), GemIds(hits);
    var smashed := SmashIds(sprites, P);
    assert s.id in G;
    forall e | e in WithoutIds(smashed, G)
      ensures e.id != s.id
    {
      WithoutMember(smashed, G, e);
    }
  }

  /** A sprite that was not hit stays as and where it was. */
  lemma KeptFate(sprites: seq<Sprite>, hits: seq<Sprite>, s: Sprite)
    requires UniqueIds(sprites) && (forall h :: h in hits ==> h in sprites)
    requires s in sprites && s !in hits
    ensures s in SpritesAfter(sprites, hits)
  {
    var P, G := PotIds(hits), GemIds(hits);
    HitIsSprite(sprites, hits, s);
    assert s.id !in P && s.id !in G;
    SmashKeeps(sprites, P, s);
    WithoutMember(SmashIds(sprites, P), G, s);
  }

  /** What happens to one sprite when the player lands on (x, y). */
  lemma SpriteFate(sprites: seq<Sprite>, colliders: seq<Sprite>, x: int, y: int, s: Sprite)
    requires UniqueIds(sprites) && (forall c :: c in colliders ==> c in sprites)
    requires s in sprites
    ensures var hits := CollidersAt(colliders, x, y);
            var after := SpritesAfter(sprites, hits);
            && (s in hits && s.name == Pot ==> Smashed(s) in after && s !in after)
            && (s in hits && s.name == Gem ==> s.id !in IdsOf(after))
            && (s !in hits ==> s in after)
    ensures IdsOf(SpritesAfter(sprites, CollidersAt(colliders, x, y))) <= IdsOf(sprites)
  {
    var hits := CollidersAt(colliders, x, y);
    var P := PotIds(hits);
    SmashIdsOf(sprites, P);
    WithoutIdsOf(SmashIds(sprites, P), GemIds(hits));
    if s in hits {
      if s.name == Pot {
        PotFate(sprites, hits, s);
      } else {
        GemFate(sprites, hits, s);
      }
    } else {
      KeptFate(sprites, hits, s);
    }
  }
}
