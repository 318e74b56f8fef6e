# BridgeHack player controller, in Dafny

This project models the `Player` controller of BridgeHack, a tile-based dungeon
crawler: the per-tick movement of the player on a grid of 16x16-pixel tiles,
the directional attack scan, and the inventory operations (give, delete,
drink, equip). The player is an immutable record (`Players.Player`) and every
operation is a pure function of the record and of what the map tells it.

The collaborators the controller calls but whose code is not part of this
model are parameters:

- the map's collision query `isCollision(x, y)` is a predicate
  `blocked: (int, int) -> bool`;
- the map's enemy list `getEnemies()` is the sequence of the enemies'
  positions, in list order; an attack reports the index of the enemy that
  receives the one `receiveDamage` call;
- the map's `getRandomPos()` is the `spawn` position given to `Init` and
  `SetMap`;
- a weapon's `getRange()` is the `range` field of the `Weapon` value
  (`BareHanded` carries its own range, since `BareHanded.java` is not part of
  this model);
- a potion's effect is not modelled: `Drink` returns the potion that was drunk,
  and the effect is assumed to leave every modelled field of the player
  (position, movement intent, inventory, weapon) unchanged, although it
  receives the player object and could call its public operations; whether
  the effect throws `SlickException` is the boolean `effectFails`.

Modules: `Wrappers` (Option, Result), `Grid` (positions, Java's `%`, the
tile-centre test), `Items`, `LinkedLists` (the `java.util.LinkedList`
operations used), `Players` (the record, the constructor, `setMap`),
`Movement`, `Combat`, `Inventory`.

The invariant `Players.Valid` says the bare-handed default weapon is never
stored in the inventory. The constructor establishes it, and every operation
keeps it, except giving the player a bare-handed weapon directly.

Behaviours of the Java code that are easy to misread, and how the model treats them:

- Java's `%` truncates toward zero, so the tile-centre test `x % 16 == 8` is
  false for every negative coordinate (`Grid.JavaRem`, `Grid.TileCentreIff`).
  A walk ending on a negative coordinate therefore does not stop there.
- `update` with a direction outside 0..3 does not move, but it leaves
  `moving` true unless the player already stands on a tile centre; it is not
  a plain no-op.
- `attack` probes pixel offsets `1..range`, not tiles, and its vertical
  convention is the opposite of `update`'s: direction 0 probes `y + i` and
  direction 2 probes `y - i`. The model keeps both as written.
- `setMap` keeps the movement intent: a player moving when the map changes
  keeps moving from the new spawn position.
- Out-of-range indices and a non-potion passed to `drink` make the Java code
  throw (`IndexOutOfBoundsException`, `ClassCastException`), and so can the
  potion's effect (`SlickException`, before the potion is removed); the model
  returns `Failure(IndexOutOfBounds)`, `Failure(ClassCast)` or
  `Failure(EffectFailed)` and no new state.
  `equip` on a non-weapon is a no-op, as written.
- `LinkedList.remove(Object)` removes the first element equal to the new
  weapon, which can be at an index below `i` when the same weapon is stored
  twice. `remove(Object)` compares with `equals`; the model assumes the weapon
  classes do not override `equals`, so that it means object identity, and
  models it by value equality: every weapon, bare-handed ones included,
  carries an `id`, and distinct weapon objects carry distinct `id`s (were
  `equals` overridden, weapons that are `equals` would carry the same `id`).

## Model

| member | source | states |
|---|---|---|
| Grid.JavaRem | src/main/java/ch/heigvd/mcr/bridgehack/player/Player.java:121 | Java's `% 16` is the remainder congruent to the dividend modulo 16 that has the dividend's sign: in `0..15` for non-negative, in `-15..0` for negative dividends |
| Grid.TileCentreIff | src/main/java/ch/heigvd/mcr/bridgehack/player/Player.java:121-123 | the stop test holds exactly for non-negative coordinates that are 8 modulo 16 |
| Movement.CentreAfter | src/main/java/ch/heigvd/mcr/bridgehack/player/Player.java:118-123 | from a tile centre, of the first sixteen one-pixel steps in a direction none of the first fifteen lands on a tile centre, whatever the sign, and the sixteenth does when it stays non-negative |
| LinkedLists.FirstIndex | src/main/java/ch/heigvd/mcr/bridgehack/player/Player.java:187-192 | the result is the smallest index holding the searched value, and absent exactly when the value does not occur |
| LinkedLists.RemoveAt | src/main/java/ch/heigvd/mcr/bridgehack/player/Player.java:261 | one element fewer, elements before `i` in place, elements after `i` shifted down by one, the multiset loses exactly `s[i]` |
| LinkedLists.RemoveFirst | src/main/java/ch/heigvd/mcr/bridgehack/player/Player.java:248 | when the value occurs, exactly its first occurrence is dropped and the rest keeps its order; otherwise the sequence is unchanged |
| Players.Init | src/main/java/ch/heigvd/mcr/bridgehack/player/Player.java:44-63 | a new player stands at the spawn position, is not moving, faces direction 0, holds a transform potion then a mana potion, wields the bare-handed weapon, and satisfies the invariant that the bare-handed weapon is not in the inventory |
| Players.SetMap | src/main/java/ch/heigvd/mcr/bridgehack/player/Player.java:209-212 | changing map moves the player to the new spawn position and changes nothing else (movement intent included) |
| Movement.Move | src/main/java/ch/heigvd/mcr/bridgehack/player/Player.java:70-73 | the player is moving in the requested direction from where it stands |
| Movement.Stop | src/main/java/ch/heigvd/mcr/bridgehack/player/Player.java:78-80 | the player is not moving and nothing else changes |
| Movement.Update | src/main/java/ch/heigvd/mcr/bridgehack/player/Player.java:89-125 | a still player is unchanged; a blocked leading edge (`(x,y-1)`, `(x-1,y)`, `(x,y+16)`, `(x+16,y)`) halts it in place; a free one moves it exactly one pixel along one axis and leaves it moving exactly when off a tile centre; an unknown direction never moves and stops only on a centre; direction, inventory and weapon never change |
| Movement.Run | src/main/java/ch/heigvd/mcr/bridgehack/player/Player.java:89-125 | any number of ticks keeps direction, inventory and weapon, and a still player stays as it is |
| Movement.WalkPrefix | src/main/java/ch/heigvd/mcr/bridgehack/player/Player.java:94-123 | along a clear path from a tile centre, after `n` ticks (n at most 16) the player is `n` pixels further and still moving until the sixteenth tick, which stops it (that last tick when the neighbouring centre has non-negative coordinates) |
| Movement.MoveWalksOneTile | src/main/java/ch/heigvd/mcr/bridgehack/player/Player.java:70-123 | one move request from a tile centre along a clear path keeps the player moving for fifteen ticks and leaves it stopped on the neighbouring tile centre after sixteen (when the neighbouring centre has non-negative coordinates) |
| Movement.WalkBlockedStops | src/main/java/ch/heigvd/mcr/bridgehack/player/Player.java:113-116 | when the leading edge after `n` free steps is blocked, the player stops on that pixel and every later tick leaves it there |
| Movement.StopHaltsMovement | src/main/java/ch/heigvd/mcr/bridgehack/player/Player.java:78-90 | after a stop, no number of ticks changes the player |
| Movement.UnknownDirectionStays | src/main/java/ch/heigvd/mcr/bridgehack/player/Player.java:94-123 | with a direction outside 0..3 the position never changes, and the player keeps moving for ever unless it started on a tile centre |
| Combat.CheckForEnemy | src/main/java/ch/heigvd/mcr/bridgehack/player/Player.java:186-193 | the result is the first enemy of the list standing exactly on the position, and none exactly when no enemy stands there |
| Combat.ScanFrom | src/main/java/ch/heigvd/mcr/bridgehack/player/Player.java:147-178 | the scan from offset `i` returns a hit satisfying the declarative description, and none exactly when no hit satisfies it |
| Combat.Attack | src/main/java/ch/heigvd/mcr/bridgehack/player/Player.java:144-179 | the damaged enemy sits at the smallest offset within range holding an enemy, no probe up to that offset is blocked, it is the first such enemy in list order; a range below 1 or an unknown direction damages nobody |
| Combat.HitUnique | src/main/java/ch/heigvd/mcr/bridgehack/player/Player.java:174-177 | at most one enemy can be hit by an attack: the description fixes both offset and enemy |
| Combat.AttackIsTheHit | src/main/java/ch/heigvd/mcr/bridgehack/player/Player.java:147-178 | `attack` hits enemy `j` at offset `i` if and only if the declarative description holds of `i` and `j` |
| Combat.WallShieldsEnemies | src/main/java/ch/heigvd/mcr/bridgehack/player/Player.java:150-172 | a blocked probe at offset `w` keeps every enemy at offset `w` or beyond from being hit |
| Inventory.GiveItem | src/main/java/ch/heigvd/mcr/bridgehack/player/Player.java:275-277 | the item is appended after the unchanged old inventory and the player owns exactly one more item |
| Inventory.DeleteItem | src/main/java/ch/heigvd/mcr/bridgehack/player/Player.java:260-262 | an index outside the inventory fails; otherwise exactly element `i` is removed and the others keep their order |
| Inventory.Drink | src/main/java/ch/heigvd/mcr/bridgehack/player/Player.java:234-238 | succeeds exactly on a potion slot whose effect does not throw, returning that potion and one item fewer; a bad index fails with IndexOutOfBounds, a non-potion with ClassCast, and a throwing effect with EffectFailed, leaving the potion in place |
| Inventory.Equip | src/main/java/ch/heigvd/mcr/bridgehack/player/Player.java:244-253 | a bad index fails with IndexOutOfBounds; a non-weapon changes nothing; a weapon slot gives the swap of `SwapWeapon` |
| Inventory.SwapWeapon | src/main/java/ch/heigvd/mcr/bridgehack/player/Player.java:245-251 | the weapon at `i` becomes the equipped weapon; the first inventory element equal to it (at an index no greater than `i`) is removed with the others kept in order; the old weapon is appended unless bare-handed, so the length shrinks by one only in that case; position and movement are untouched |
| Inventory.GiveThenDelete | src/main/java/ch/heigvd/mcr/bridgehack/player/Player.java:260-277 | deleting the slot just given restores the player exactly |
| Inventory.DrinkIsDeleteOfPotion | src/main/java/ch/heigvd/mcr/bridgehack/player/Player.java:234-262 | a successful drink leaves the same player as deleting that slot |
| Inventory.EquipConservesOwned | src/main/java/ch/heigvd/mcr/bridgehack/player/Player.java:244-253 | equipping a real weapon keeps the multiset of owned items (inventory plus equipped weapon) |
| Inventory.GiveItemPreservesValid | src/main/java/ch/heigvd/mcr/bridgehack/player/Player.java:275-277 | giving any item other than the bare-handed weapon keeps that weapon out of the inventory |
| Inventory.DeleteItemPreservesValid | src/main/java/ch/heigvd/mcr/bridgehack/player/Player.java:260-262 | deleting an item keeps the bare-handed weapon out of the inventory |
| Inventory.DrinkPreservesValid | src/main/java/ch/heigvd/mcr/bridgehack/player/Player.java:234-238 | drinking keeps the bare-handed weapon out of the inventory |
| Inventory.EquipPreservesValid | src/main/java/ch/heigvd/mcr/bridgehack/player/Player.java:244-253 | equipping never puts the bare-handed weapon into the inventory: the old weapon is appended only when it is a real one |
| Inventory.EquipBack | src/main/java/ch/heigvd/mcr/bridgehack/player/Player.java:244-253 | equipping the weapon that was just put away restores the previous weapon and the previous inventory contents |

## Left out

- `render`, `renderText`: drawing through the graphics library, read-only.
- `getStatus`: string formatting over the role and combat state, whose code is not part of this model.
- `restoreMana`, `restoreHealth`, `changeRole`: one-line delegations into the combat state and the race, whose code is not part of this model.
- The player's name and race, and the combat state (`playerState`): `attack` reads the combat state only through `weapon.attack(playerState)` and `drink` changes it only through the potion's effect, both of which are outside this model.
- `LoreState.java`: a screen that draws fixed text and switches state on a key release.
- The `delta` parameter of `update`: it is never read.
- The randomness of `getRandomPos()`: the spawn position is a parameter.
- The effects of `Potion.drink`, `Weapon.attack` and `Enemy.receiveDamage`: their code is not part of this model.
- Combat.Attack: reports which enemy receives the damage, not the amount `weapon.attack(playerState)` computes nor the enemy's resulting health.
- Combat.Attack: the loop counter and the probe points `y + i`, `x - i`, `y - i`, `x + i` are unbounded integers; Java's 32-bit wrap-around is not modelled, so with a range of `Integer.MAX_VALUE` the model ends the scan where Java's `++i` wraps and the loop never ends (when no wall or enemy stops it), and probes near the 32-bit limits do not wrap.
- Movement.Update: coordinates are unbounded integers; Java's 32-bit wrap-around of `x`, `y` and of the probe points `x + 16`, `y + 16` is not modelled, since map coordinates stay far below 2^31.
- Inventory.GiveItem: a `null` item cannot be represented.
