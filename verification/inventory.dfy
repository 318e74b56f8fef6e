/** Inventory manipulation: `giveItem`, `deleteItem`, `drink` and `equip`.
    The operations that index the inventory fail with `IndexOutOfBounds` where
    `LinkedList.get`/`remove` would throw, and `drink` fails with `ClassCast`
    where the cast to `Potion` would throw. */
module Inventory {
  import opened Wrappers
  import opened Items
  import opened LinkedLists
  import opened Players

  /** What a successful `drink` leaves behind: the player without the potion,
      and the potion whose effect was applied once (the effect acts on the
      combat state, which is not part of this model). */
  datatype Drunk = Drunk(player: Player, potion: Potion)

  /** Everything the player owns: the inventory plus the equipped weapon,
      unless that is the bare-handed default. */
  function Owned(p: Player): multiset<Item> {
    multiset(p.inventory) + if p.weapon.BareHanded? then multiset{} else multiset{WeaponItem(p.weapon)}
  }

  /** `giveItem`: append at the end of the inventory. */
  function GiveItem(p: Player, it: Item): (r: Player)
    ensures |r.inventory| == |p.inventory| + 1 && r.inventory[|p.inventory|] == it
    ensures r.inventory[..|p.inventory|] == p.inventory
    ensures Owned(r) == Owned(p) + multiset{it}
    ensures r == p.(inventory := r.inventory)
  {
    p.(inventory := p.inventory + [it])
  }

  /** `deleteItem(i)`: remove exactly the element at index `i`, keeping the
      order of the others. */
  function DeleteItem(p: Player, i: int): (r: Result<Player, Error>)
    ensures !(0 <= i < |p.inventory|) <==> r == Failure(IndexOutOfBounds)
    ensures r.Success? ==> |r.value.inventory| == |p.inventory| - 1
    ensures r.Success? ==> forall k :: 0 <= k < |r.value.inventory| ==>
              r.value.inventory[k] == p.inventory[if k < i then k else k + 1]
    ensures r.Success? ==> multiset(r.value.inventory) + multiset{p.inventory[i]} == multiset(p.inventory)
    ensures r.Success? ==> r.value == p.(inventory := r.value.inventory)
  {
    if 0 <= i < |p.inventory| then Success(p.(inventory := RemoveAt(p.inventory, i)))
    else Failure(IndexOutOfBounds)
  }

  /** `drink(i)`: the element at `i` must be a potion; it is drunk and then
      removed from the inventory. `effectFails` says whether the potion's
      effect throws, in which case the potion is not removed. */
  function Drink(p: Player, i: int, effectFails: bool): (r: Result<Drunk, Error>)
    ensures !(0 <= i < |p.inventory|) ==> r == Failure(IndexOutOfBounds)
    ensures 0 <= i < |p.inventory| && !p.inventory[i].PotionItem? ==> r == Failure(ClassCast)
    ensures 0 <= i < |p.inventory| && p.inventory[i].PotionItem? && effectFails ==> r == Failure(EffectFailed)
    ensures r.Success? <==> 0 <= i < |p.inventory| && p.inventory[i].PotionItem? && !effectFails
    ensures r.Success? ==> PotionItem(r.value.potion) == p.inventory[i]
    ensures r.Success? ==> |r.value.player.inventory| == |p.inventory| - 1
    ensures r.Success? ==> Owned(r.value.player) + multiset{p.inventory[i]} == Owned(p)
  {
    if !(0 <= i < |p.inventory|) then Failure(IndexOutOfBounds)
    else match p.inventory[i]
      case PotionItem(potion) =>
        if effectFails then Failure(EffectFailed)
        else Success(Drunk(p.(inventory := RemoveAt(p.inventory, i)), potion))
      case _ => Failure(ClassCast)
  }

  /** `equip(i)`: a weapon at `i` becomes the equipped weapon and its first
      equal occurrence leaves the inventory; the previous weapon goes to the
      end of the inventory unless it is bare-handed. A non-weapon at `i`
      changes nothing. */
  function Equip(p: Player, i: int): (r: Result<Player, Error>)
    ensures !(0 <= i < |p.inventory|) <==> r == Failure(IndexOutOfBounds)
    ensures 0 <= i < |p.inventory| && !p.inventory[i].WeaponItem? ==> r == Success(p)
    ensures 0 <= i < |p.inventory| && p.inventory[i].WeaponItem? ==> r == Success(SwapWeapon(p, i))
  {
    if !(0 <= i < |p.inventory|) then Failure(IndexOutOfBounds)
    else match p.inventory[i]
      case WeaponItem(_) => Success(SwapWeapon(p, i))
      case _ => Success(p)
  }

  /** The weapon branch of `equip`. */
  function SwapWeapon(p: Player, i: int): (r: Player)
    requires 0 <= i < |p.inventory| && p.inventory[i].WeaponItem?
    ensures r.weapon == p.inventory[i].weapon
    ensures |r.inventory| == |p.inventory| - (if p.weapon.BareHanded? then 1 else 0)
    ensures multiset(r.inventory)
              == multiset(p.inventory) - multiset{p.inventory[i]}
                 + (if p.weapon.BareHanded? then multiset{} else multiset{WeaponItem(p.weapon)})
    ensures !p.weapon.BareHanded? ==> r.inventory[|r.inventory| - 1] == WeaponItem(p.weapon)
    // the first element equal to the new weapon is the one removed; the others keep their order
    ensures var k := FirstIndex(p.inventory, p.inventory[i]).value;
      k <= i
      && r.inventory[..k] == p.inventory[..k]
      && r.inventory[k .. |p.inventory| - 1] == p.inventory[k + 1..]
    ensures r.x == p.x && r.y == p.y && r.moving == p.moving && r.direction == p.direction
  {
    var w := p.inventory[i];
    var rest := RemoveFirst(p.inventory, w);
    if p.weapon.BareHanded? then
      RemoveFirstThenAppend(p.inventory, w, []);
      assert rest + [] == rest;
      p.(weapon := w.weapon, inventory := rest)
    else
      RemoveFirstThenAppend(p.inventory, w, [WeaponItem(p.weapon)]);
      p.(weapon := w.weapon, inventory := rest + [WeaponItem(p.weapon)])
  }

  /** Giving an item and deleting the last slot gives back the same player. */
  lemma GiveThenDelete(p: Player, it: Item)
    ensures DeleteItem(GiveItem(p, it), |p.inventory|) == Success(p)
  {
    RemoveAtAppended(p.inventory, it);
  }

  /** `drink` on a potion is `deleteItem` at the same index. */
  lemma DrinkIsDeleteOfPotion(p: Player, i: int, effectFails: bool)
    requires Drink(p, i, effectFails).Success?
    ensures DeleteItem(p, i) == Success(Drink(p, i, effectFails).value.player)
  {
  }

  /** Equipping a weapon that is not bare-handed neither creates nor loses an
      item: the player owns the same multiset of items afterwards. */
  lemma EquipConservesOwned(p: Player, i: int)
    requires 0 <= i < |p.inventory| && !IsBareHanded(p.inventory[i])
    ensures Owned(Equip(p, i).value) == Owned(p)
  {
  }

  /** Giving any item but the bare-handed weapon keeps it out of the inventory. */
  lemma GiveItemPreservesValid(p: Player, it: Item)
    requires Valid(p) && !IsBareHanded(it)
    ensures Valid(GiveItem(p, it))
  {
  }

  /** Deleting an item keeps the bare-handed weapon out of the inventory. */
  lemma DeleteItemPreservesValid(p: Player, i: int)
    requires Valid(p) && 0 <= i < |p.inventory|
    ensures Valid(DeleteItem(p, i).value)
  {
  }

  /** Drinking a potion keeps the bare-handed weapon out of the inventory. */
  lemma DrinkPreservesValid(p: Player, i: int, effectFails: bool)
    requires Valid(p) && Drink(p, i, effectFails).Success?
    ensures Valid(Drink(p, i, effectFails).value.player)
  {
  }

  /** Equipping keeps the bare-handed weapon out of the inventory: the
      inventory afterwards holds only items it held before and, at the end,
      the previously equipped real weapon. */
  lemma EquipPreservesValid(p: Player, i: int)
    requires Valid(p) && 0 <= i < |p.inventory|
    ensures Valid(Equip(p, i).value)
  {
    if p.inventory[i].WeaponItem? {
      var q := Equip(p, i).value;
      var rest := RemoveFirst(p.inventory, p.inventory[i]);
      RemoveFirstKeepsOthers(p.inventory, p.inventory[i]);
      assert q.inventory == if p.weapon.BareHanded? then rest else rest + [WeaponItem(p.weapon)];
      forall k | 0 <= k < |q.inventory|
        ensures !IsBareHanded(q.inventory[k])
      {
        if k < |rest| {
          assert q.inventory[k] == rest[k] && rest[k] in p.inventory;
        }
      }
    }
  }

  /** Equipping the weapon just put away restores the previous weapon and the
      previous contents of the inventory (in a possibly different order). */
  lemma EquipBack(p: Player, i: int)
    requires !p.weapon.BareHanded?
    requires 0 <= i < |p.inventory| && p.inventory[i].WeaponItem? && !p.inventory[i].weapon.BareHanded?
    ensures var q := Equip(p, i).value;
      var back := Equip(q, |q.inventory| - 1);
      back.Success? && back.value.weapon == p.weapon
      && multiset(back.value.inventory) == multiset(p.inventory)
  {
    var w := p.inventory[i];
    var put := WeaponItem(p.weapon);
    var q := Equip(p, i).value;
    var last := |q.inventory| - 1;
    assert q.inventory[last] == put;
    var back := Equip(q, last).value;
    SwapBack(multiset(p.inventory), multiset(q.inventory), multiset(back.inventory), w, put);
  }

  /** Taking `w` out and putting `put` in, then the reverse, restores a
      multiset that held `w`. */
  lemma SwapBack<T>(a: multiset<T>, b: multiset<T>, c: multiset<T>, w: T, put: T)
    requires w in a
    requires b == a - multiset{w} + multiset{put}
    requires c == b - multiset{put} + multiset{w}
    ensures c == a
  {
  }
}
