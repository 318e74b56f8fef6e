/** The directional attack scan: `attack` and `checkForEnemy`. */
module Combat {
  import opened Wrappers
  import opened Grid
  import opened LinkedLists
  import opened Players
  import opened Movement

  /** The outcome of an attack that lands: the enemy at index `enemy` of the
      map's enemy list receives the weapon's damage, found `offset` pixels away. */
  datatype Hit = Hit(offset: nat, enemy: nat)

  /** The point the attack probes at offset `i`. As written, direction 0 probes
      `y + i` and direction 2 probes `y - i`, the opposite vertical convention
      to `update`; an unknown direction probes nothing (the player's own
      position is returned but never used). */
  function AttackProbe(p: Player, d: int, i: int): Pos {
    match d
    case 0 => Pos(p.x, p.y + i)
    case 1 => Pos(p.x - i, p.y)
    case 2 => Pos(p.x, p.y - i)
    case 3 => Pos(p.x + i, p.y)
    case _ => Pos(p.x, p.y)
  }

  /** `checkForEnemy`: the index of the first enemy standing exactly at `pos`. */
  function CheckForEnemy(enemies: seq<Pos>, pos: Pos): (r: Option<nat>)
    ensures r.Some? ==> r.value < |enemies| && enemies[r.value] == pos
    ensures r.Some? ==> forall m :: 0 <= m < r.value ==> enemies[m] != pos
    ensures r.None? <==> pos !in enemies
  {
    FirstIndex(enemies, pos)
  }

  /** The declarative meaning of a hit, for a scan starting at offset `from`:
      offset `i` is within the weapon's range, no probe at offsets `from..i` is
      blocked, no enemy stands at offsets `from..i-1`, and `j` is the first
      enemy in the list standing at offset `i`. */
  ghost predicate HitAt(p: Player, d: int, blocked: (int, int) -> bool, enemies: seq<Pos>,
                        from: int, i: int, j: int)
  {
    && IsDirection(d)
    && from <= i <= p.weapon.range
    && (forall k :: from <= k <= i ==> !blocked(AttackProbe(p, d, k).x, AttackProbe(p, d, k).y))
    && (forall k :: from <= k < i ==> AttackProbe(p, d, k) !in enemies)
    && 0 <= j < |enemies| && enemies[j] == AttackProbe(p, d, i)
    && (forall m :: 0 <= m < j ==> enemies[m] != AttackProbe(p, d, i))
  }

  /** The loop of `attack` from offset `i` on. */
  function ScanFrom(p: Player, d: int, blocked: (int, int) -> bool, enemies: seq<Pos>, i: int): (r: Option<Hit>)
    ensures r.Some? ==> HitAt(p, d, blocked, enemies, i, r.value.offset, r.value.enemy)
    ensures r.None? ==> forall k, j :: !HitAt(p, d, blocked, enemies, i, k, j)
    requires i >= 1
    decreases p.weapon.range - i + 1
  {
    if i > p.weapon.range then None
    else if !IsDirection(d) then ScanFrom(p, d, blocked, enemies, i + 1)
    else
      var probe := AttackProbe(p, d, i);
      if blocked(probe.x, probe.y) then None
      else match CheckForEnemy(enemies, probe)
        case Some(j) => Some(Hit(i, j))
        case None =>
          var r := ScanFrom(p, d, blocked, enemies, i + 1);
          ShiftHit(p, d, blocked, enemies, i);
          r
  }

  /** A scan that finds offset `i` free and empty hits exactly what the scan
      from `i + 1` hits. */
  lemma ShiftHit(p: Player, d: int, blocked: (int, int) -> bool, enemies: seq<Pos>, i: int)
    requires IsDirection(d) && i <= p.weapon.range
    requires !blocked(AttackProbe(p, d, i).x, AttackProbe(p, d, i).y)
    requires AttackProbe(p, d, i) !in enemies
    ensures forall k, j :: HitAt(p, d, blocked, enemies, i, k, j) <==> HitAt(p, d, blocked, enemies, i + 1, k, j)
  {
  }

  /** `attack(d)`: the enemy, if any, that receives the one `receiveDamage`
      call. The player record itself is not changed by an attack. */
  function Attack(p: Player, d: int, blocked: (int, int) -> bool, enemies: seq<Pos>): (r: Option<Hit>)
    ensures r.Some? ==> HitAt(p, d, blocked, enemies, 1, r.value.offset, r.value.enemy)
    ensures r.None? ==> forall k, j :: !HitAt(p, d, blocked, enemies, 1, k, j)
    ensures r.Some? ==> 1 <= r.value.offset <= p.weapon.range && r.value.enemy < |enemies|
    ensures !IsDirection(d) || p.weapon.range < 1 ==> r.None?
  {
    ScanFrom(p, d, blocked, enemies, 1)
  }

  /** At most one enemy is ever hit: the hit description determines both the
      offset and the enemy. */
  lemma HitUnique(p: Player, d: int, blocked: (int, int) -> bool, enemies: seq<Pos>,
                  i1: int, j1: int, i2: int, j2: int)
    requires HitAt(p, d, blocked, enemies, 1, i1, j1)
    requires HitAt(p, d, blocked, enemies, 1, i2, j2)
    ensures i1 == i2 && j1 == j2
  {
  }

  /** `attack` damages exactly the enemy the declarative description names,
      at the smallest offset holding one, and nobody when there is none. */
  lemma AttackIsTheHit(p: Player, d: int, blocked: (int, int) -> bool, enemies: seq<Pos>, i: nat, j: nat)
    ensures Attack(p, d, blocked, enemies) == Some(Hit(i, j)) <==> HitAt(p, d, blocked, enemies, 1, i, j)
  {
  }

  /** A wall stops the swing: an enemy at or beyond a blocked probe is never hit. */
  lemma WallShieldsEnemies(p: Player, d: int, blocked: (int, int) -> bool, enemies: seq<Pos>, w: int)
    requires 1 <= w && blocked(AttackProbe(p, d, w).x, AttackProbe(p, d, w).y)
    ensures Attack(p, d, blocked, enemies).Some? ==> Attack(p, d, blocked, enemies).value.offset < w
  {
  }
}
