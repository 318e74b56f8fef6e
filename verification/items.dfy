/** The items a player can hold. Only two distinctions matter to the player:
    whether an item is a weapon (equip) and whether it is a potion (drink). */
module Items {

  /** A weapon and the range its `getRange()` reports. `BareHanded` is the
      default weapon. Every weapon carries an `id` that stands for its object
      identity, so that two distinct weapon objects are distinct values. */
  datatype Weapon = BareHanded(id: nat, range: int) | Armed(id: nat, range: int)

  /** The potion kinds the player starts with, and any other potion. */
  datatype Potion = TransformPotion | ManaPotion | OtherPotion(id: nat)

  /** An inventory entry. */
  datatype Item = WeaponItem(weapon: Weapon) | PotionItem(potion: Potion) | OtherItem(id: nat)

  /** The item is an instance of `BareHanded`. */
  predicate IsBareHanded(it: Item) {
    it.WeaponItem? && it.weapon.BareHanded?
  }
}
