/** The player record: position, movement intent, inventory and weapon. */
module Players {
  import opened Grid
  import opened Items

  /** The state of the Java `Player` class that its logic reads and writes. The
      name, race and combat state are not part of this model; the current map
      is passed to each operation as its collision predicate and enemy list. */
  datatype Player = Player(
    x: int,
    y: int,
    moving: bool,
    direction: int,
    inventory: seq<Item>,
    weapon: Weapon)

  /** The exceptions the inventory operations can throw: an index outside the
      inventory, a non-potion cast to a potion, and a potion effect that
      throws `SlickException`. */
  datatype Error = IndexOutOfBounds | ClassCast | EffectFailed

  /** The bare-handed default weapon is never stored in the inventory. */
  predicate Valid(p: Player) {
    forall k :: 0 <= k < |p.inventory| ==> !IsBareHanded(p.inventory[k])
  }

  /** The inventory a new player starts with. */
  const StartingInventory: seq<Item> := [PotionItem(TransformPotion), PotionItem(ManaPotion)]

  /** The constructor. `spawn` is what the map's `getRandomPos()` returned;
      `bareId` is the identity of the fresh `BareHanded` object and
      `bareRange` is what its `getRange()` reports. */
  function Init(spawn: Pos, bareId: nat, bareRange: int): (r: Player)
    ensures Valid(r) && !r.moving && r.direction == 0
    ensures r.x == spawn.x && r.y == spawn.y
    ensures |r.inventory| == 2
    ensures r.inventory[0] == PotionItem(TransformPotion) && r.inventory[1] == PotionItem(ManaPotion)
    ensures r.weapon == BareHanded(bareId, bareRange)
  {
    Player(spawn.x, spawn.y, false, 0, StartingInventory, BareHanded(bareId, bareRange))
  }

  /** `setMap`: the player is re-spawned at the new map's random position;
      the movement intent, inventory and weapon are kept as they are. */
  function SetMap(p: Player, spawn: Pos): (r: Player)
    ensures r.x == spawn.x && r.y == spawn.y
    ensures r.moving == p.moving && r.direction == p.direction
    ensures r.inventory == p.inventory && r.weapon == p.weapon
  {
    p.(x := spawn.x, y := spawn.y)
  }
}
