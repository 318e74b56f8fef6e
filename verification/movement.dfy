/** Per-tick movement: `move`, `stop` and `update`. */
module Movement {
  import opened Grid
  import opened Players

  /** The four directions the movement switch handles: 0 up, 1 left, 2 down, 3 right. */
  predicate IsDirection(d: int) {
    0 <= d < 4
  }

  /** The position `k` one-pixel steps from `(x, y)` along direction `d`;
      an unknown direction does not move. */
  function Advance(x: int, y: int, d: int, k: int): Pos {
    match d
    case 0 => Pos(x, y - k)
    case 1 => Pos(x - k, y)
    case 2 => Pos(x, y + k)
    case 3 => Pos(x + k, y)
    case _ => Pos(x, y)
  }

  /** The point whose collision decides a step from `pos` along `d`: one pixel
      ahead going up or left, sixteen pixels ahead going down or right (the
      leading edge of the 16-pixel sprite). */
  function LeadingEdge(pos: Pos, d: int): Pos {
    match d
    case 0 => Pos(pos.x, pos.y - 1)
    case 1 => Pos(pos.x - 1, pos.y)
    case 2 => Pos(pos.x, pos.y + TileSize)
    case 3 => Pos(pos.x + TileSize, pos.y)
    case _ => pos
  }

  /** `move`: record the direction and start moving. */
  function Move(p: Player, d: int): (r: Player)
    ensures r.moving && r.direction == d
    ensures r.x == p.x && r.y == p.y && r.inventory == p.inventory && r.weapon == p.weapon
  {
    p.(direction := d, moving := true)
  }

  /** `stop`: stop moving where the player stands. */
  function Stop(p: Player): (r: Player)
    ensures !r.moving
    ensures r.x == p.x && r.y == p.y && r.direction == p.direction
    ensures r.inventory == p.inventory && r.weapon == p.weapon
  {
    p.(moving := false)
  }

  /** `update`: one tick of movement against the map's collision predicate. */
  function Update(p: Player, blocked: (int, int) -> bool): (r: Player)
    ensures !p.moving ==> r == p
    ensures r.direction == p.direction && r.inventory == p.inventory && r.weapon == p.weapon
    // a blocked leading edge halts the player in place
    ensures p.moving && IsDirection(p.direction)
              && blocked(LeadingEdge(Pos(p.x, p.y), p.direction).x, LeadingEdge(Pos(p.x, p.y), p.direction).y)
            ==> r == p.(moving := false)
    // a free leading edge moves the player exactly one pixel, stopping on a tile centre
    ensures p.moving && IsDirection(p.direction)
              && !blocked(LeadingEdge(Pos(p.x, p.y), p.direction).x, LeadingEdge(Pos(p.x, p.y), p.direction).y)
            ==> Pos(r.x, r.y) == Advance(p.x, p.y, p.direction, 1)
                && (r.x == p.x || r.y == p.y)
                && (r.x - p.x) + (r.y - p.y) in {-1, 1}
                && (r.moving <==> !TileCentre(r.x, r.y))
    // an unknown direction never moves, and stops only on a tile centre
    ensures p.moving && !IsDirection(p.direction)
            ==> r.x == p.x && r.y == p.y && (r.moving <==> !TileCentre(p.x, p.y))
  {
    if !p.moving then p
    else
      var (futureX, futureY, collision) :=
        match p.direction
        case 0 => (p.x, p.y - 1, blocked(p.x, p.y - 1))
        case 1 => (p.x - 1, p.y, blocked(p.x - 1, p.y))
        case 2 => (p.x, p.y + 1, blocked(p.x, p.y + TileSize))
        case 3 => (p.x + 1, p.y, blocked(p.x + TileSize, p.y))
        case _ => (p.x, p.y, false);
      if collision then p.(moving := false)
      else p.(x := futureX, y := futureY, moving := !TileCentre(futureX, futureY))
  }

  /** `n` consecutive ticks. */
  function Run(p: Player, blocked: (int, int) -> bool, n: nat): (r: Player)
    ensures r.direction == p.direction && r.inventory == p.inventory && r.weapon == p.weapon
    ensures !p.moving ==> r == p
  {
    if n == 0 then p else Update(Run(p, blocked, n - 1), blocked)
  }

  /** The leading edges of the first `n` steps along the player's direction are free. */
  ghost predicate ClearPath(p: Player, blocked: (int, int) -> bool, n: nat) {
    forall k :: 0 <= k < n ==>
      var e := LeadingEdge(Advance(p.x, p.y, p.direction, k), p.direction);
      !blocked(e.x, e.y)
  }

  /** Which of the first sixteen steps from a tile centre land on a tile centre:
      only the sixteenth, when it stays on non-negative coordinates. */
  lemma CentreAfter(x: int, y: int, d: int, n: int)
    requires TileCentre(x, y) && IsDirection(d)
    requires 1 <= n <= TileSize
    requires n == TileSize ==> Advance(x, y, d, TileSize).x >= 0 && Advance(x, y, d, TileSize).y >= 0
    ensures TileCentre(Advance(x, y, d, n).x, Advance(x, y, d, n).y) <==> n == TileSize
  {
    if n < TileSize {
      OffCentre(x, n);
      OffCentre(y, n);
    } else {
      NextCentre(x);
      NextCentre(y);
    }
  }

  /** Walking from a tile centre along a clear path: after `n <= 16` ticks the
      player is `n` pixels further and still moving, until the sixteenth tick,
      which lands on the next tile centre and stops. */
  lemma {:induction false} WalkPrefix(p: Player, blocked: (int, int) -> bool, n: nat)
    requires p.moving && IsDirection(p.direction) && TileCentre(p.x, p.y)
    requires n <= TileSize && ClearPath(p, blocked, n)
    requires n == TileSize ==> Advance(p.x, p.y, p.direction, TileSize).x >= 0
    requires n == TileSize ==> Advance(p.x, p.y, p.direction, TileSize).y >= 0
    ensures var a := Advance(p.x, p.y, p.direction, n);
      Run(p, blocked, n) == p.(x := a.x, y := a.y, moving := n < TileSize)
  {
    if n > 0 {
      WalkPrefix(p, blocked, n - 1);
      var a := Advance(p.x, p.y, p.direction, n - 1);
      var q := Run(p, blocked, n - 1);
      assert q == p.(x := a.x, y := a.y, moving := true);
      var e := LeadingEdge(a, p.direction);
      assert !blocked(e.x, e.y);
      var b := Advance(p.x, p.y, p.direction, n);
      assert Advance(a.x, a.y, p.direction, 1) == b;
      CentreAfter(p.x, p.y, p.direction, n);
      assert Run(p, blocked, n) == Update(q, blocked);
    }
  }

  /** A requested move from a tile centre along a clear path takes exactly
      sixteen ticks: the player keeps moving for the first fifteen, then
      stands on the neighbouring tile centre with `moving` false. */
  lemma MoveWalksOneTile(p: Player, d: int, blocked: (int, int) -> bool)
    requires TileCentre(p.x, p.y) && IsDirection(d)
    requires ClearPath(Move(p, d), blocked, TileSize)
    requires Advance(p.x, p.y, d, TileSize).x >= 0 && Advance(p.x, p.y, d, TileSize).y >= 0
    ensures forall k :: 1 <= k < TileSize ==> Run(Move(p, d), blocked, k).moving
    ensures var a := Advance(p.x, p.y, d, TileSize);
      Run(Move(p, d), blocked, TileSize) == p.(x := a.x, y := a.y, direction := d, moving := false)
  {
    var q := Move(p, d);
    forall k | 1 <= k < TileSize
      ensures Run(q, blocked, k).moving
    {
      WalkPrefix(q, blocked, k);
    }
    WalkPrefix(q, blocked, TileSize);
  }

  /** A walk whose leading edge is blocked after `n` free steps halts on the
      `n`-th pixel and stays there on every later tick. */
  lemma WalkBlockedStops(p: Player, blocked: (int, int) -> bool, n: nat, m: nat)
    requires p.moving && IsDirection(p.direction) && TileCentre(p.x, p.y)
    requires n < TileSize && ClearPath(p, blocked, n)
    requires var e := LeadingEdge(Advance(p.x, p.y, p.direction, n), p.direction); blocked(e.x, e.y)
    requires m > n
    ensures var a := Advance(p.x, p.y, p.direction, n);
      Run(p, blocked, m) == p.(x := a.x, y := a.y, moving := false)
  {
    WalkPrefix(p, blocked, n);
    RunAfter(p, blocked, n + 1, m - n - 1);
  }

  /** Running `n + m` ticks is running `n` ticks, then `m` more. */
  lemma {:induction false} RunAfter(p: Player, blocked: (int, int) -> bool, n: nat, m: nat)
    ensures Run(p, blocked, n + m) == Run(Run(p, blocked, n), blocked, m)
  {
    if m > 0 {
      RunAfter(p, blocked, n, m - 1);
      assert Run(p, blocked, n + m) == Update(Run(p, blocked, n + (m - 1)), blocked);
    }
  }

  /** After `stop`, no number of ticks moves the player. */
  lemma StopHaltsMovement(p: Player, blocked: (int, int) -> bool, n: nat)
    ensures Run(Stop(p), blocked, n) == Stop(p)
  {
  }

  /** A player moving in an unknown direction never changes position, however
      many ticks pass (it may stay `moving` for ever). */
  lemma {:induction false} UnknownDirectionStays(p: Player, blocked: (int, int) -> bool, n: nat)
    requires !IsDirection(p.direction)
    ensures Run(p, blocked, n).x == p.x && Run(p, blocked, n).y == p.y
    ensures Run(p, blocked, n).moving == (p.moving && (n == 0 || !TileCentre(p.x, p.y)))
  {
    if n > 0 {
      UnknownDirectionStays(p, blocked, n - 1);
    }
  }
}
