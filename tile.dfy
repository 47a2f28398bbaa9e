/** Terrain cell kinds and the properties each kind has. Every property is a
    fixed function of the variant, so tile semantics live in one place. */
module Tiles {

  datatype Tile = Empty | Brick | Concrete | Ladder | Rope | Gold | HiddenLadder | TrapBrick

  /** Can an actor stand on top of this tile (is it a floor)? */
  predicate IsSolid(t: Tile)
  {
    t == Brick || t == Concrete || t == TrapBrick
  }

  /** Can this tile be dug? */
  predicate IsDiggable(t: Tile)
  {
    t == Brick
  }

  /** Can an actor move up and down on this tile? */
  predicate IsClimbable(t: Tile)
  {
    t == Ladder || t == HiddenLadder
  }

  /** Can an actor hang on this tile and move sideways (a rope)? */
  predicate IsHangable(t: Tile)
  {
    t == Rope
  }

  /** Can an actor occupy this cell? */
  predicate IsPassable(t: Tile)
  {
    !IsSolid(t)
  }

  predicate IsGold(t: Tile)
  {
    t == Gold
  }

  predicate IsTrap(t: Tile)
  {
    t == TrapBrick
  }

  /** `Tile::default()`. */
  function DefaultTile(): (t: Tile)
    ensures t == Empty && IsPassable(t) && !IsClimbable(t) && !IsHangable(t)
  {
    Empty
  }

  /** The solid tiles are exactly Brick, Concrete and TrapBrick, and passability
      is their complement. */
  lemma PassableIsNotSolid()
    ensures forall t: Tile :: IsPassable(t) <==> !IsSolid(t)
    ensures forall t: Tile :: IsSolid(t) <==> t in {Brick, Concrete, TrapBrick}
  {
  }

  /** Only Brick is diggable; so every diggable tile is solid, and Concrete and
      TrapBrick are solid without being diggable. */
  lemma DiggableIsBrickOnly()
    ensures forall t: Tile :: IsDiggable(t) <==> t == Brick
    ensures forall t: Tile :: IsDiggable(t) ==> IsSolid(t)
    ensures IsSolid(Concrete) && !IsDiggable(Concrete) && IsSolid(TrapBrick) && !IsDiggable(TrapBrick)
  {
  }

  /** Ladders (visible or revealed) are the climbable tiles, both passable;
      the rope is the only hangable tile, passable and not climbable. */
  lemma ClimbAndHang()
    ensures forall t: Tile :: IsClimbable(t) <==> t == Ladder || t == HiddenLadder
    ensures forall t: Tile :: IsClimbable(t) ==> IsPassable(t)
    ensures forall t: Tile :: IsHangable(t) <==> t == Rope
    ensures IsPassable(Rope) && !IsClimbable(Rope)
  {
  }

  /** No tile is both climbable and hangable, and no solid tile is either. */
  lemma SpecialTilesAreDisjoint()
    ensures forall t: Tile :: !(IsClimbable(t) && IsHangable(t))
    ensures forall t: Tile :: IsSolid(t) ==> !IsClimbable(t) && !IsHangable(t)
  {
  }
}
