/** The player: health gated by an invincibility timer, a dodge-roll state
    machine, jumping, per-tick timer decay, and axis-separated collision
    against the platform rectangles.

    `PlayerState` is the value of all the fields `Player` updates in place;
    each method of `Player` is specified by a function on `PlayerState`
    (`Damaged`, `Rolled`, `Collided`, `Updated`), and the lemmas below state
    what the game promises about those functions. */
module PlayerEntity {
  import opened Geometry

  const MaxHealth := 100
  const Accel: real := 0.8
  const Friction: real := 0.85
  const Gravity: real := 0.8
  const JumpPower := -12
  const RollSpeed := 12
  const RollTicks := 12
  const RollCooldownTicks := 40
  const RollInvincibility := 15
  const HitInvincibility := 60

  /** The axis of one collision pass (`"x"` or `"y"`). */
  datatype Axis = X | Y

  datatype PlayerState = PlayerState(
    rect: Rect,
    velX: real,
    velY: real,
    onGround: bool,
    health: int,
    invincibleTimer: int,
    rolling: bool,
    rollTime: int,
    rollCooldown: int,
    facing: int)

  /** What holds of every player the game creates and updates. */
  predicate ValidState(s: PlayerState) {
    0 <= s.health <= MaxHealth &&
    0 <= s.invincibleTimer <= HitInvincibility &&
    0 <= s.rollTime <= RollTicks &&
    0 <= s.rollCooldown <= RollCooldownTicks &&
    (s.facing == 1 || s.facing == -1) &&
    (s.rolling ==> s.rollTime > 0)
  }

  function Min(a: int, b: int): int { if a <= b then a else b }

  // ---------------------------------------------------------------- damage

  /** `take_damage(amount)`. */
  function Damaged(s: PlayerState, amount: int): (t: PlayerState)
    ensures t.(health := s.health, invincibleTimer := s.invincibleTimer) == s
    ensures 0 <= s.health && 0 <= amount ==> 0 <= t.health <= s.health
  {
    if s.invincibleTimer == 0 && s.health > 0 then
      var h := s.health - amount;
      s.(health := if h < 0 then 0 else h, invincibleTimer := HitInvincibility)
    else
      s
  }

  /** Damage lands only on a living player whose invincibility timer is 0; it
      then takes exactly min(amount, health) and opens a 60-tick window.
      Otherwise nothing changes. */
  lemma DamageGate(s: PlayerState, amount: nat)
    requires s.health >= 0
    ensures var t := Damaged(s, amount);
      if s.invincibleTimer == 0 && s.health > 0 then
        s.health - t.health == Min(amount, s.health) && t.invincibleTimer == HitInvincibility &&
        t.(health := s.health, invincibleTimer := s.invincibleTimer) == s
      else
        t == s
  {
  }

  /** Right after a hit lands, or fails to land, a second hit does nothing. */
  lemma DamageOncePerWindow(s: PlayerState, a: int, b: int)
    ensures Damaged(Damaged(s, a), b) == Damaged(s, a)
  {
  }

  /** Non-negative damage keeps the player's invariant: health stays in [0, 100]. */
  lemma DamagePreservesValid(s: PlayerState, amount: nat)
    requires ValidState(s)
    ensures ValidState(Damaged(s, amount))
  {
  }

  // ------------------------------------------------------------------ roll

  /** `start_roll()`. */
  function Rolled(s: PlayerState): (t: PlayerState)
    ensures t.(rolling := s.rolling, rollTime := s.rollTime, rollCooldown := s.rollCooldown,
               invincibleTimer := s.invincibleTimer) == s
  {
    if s.rollCooldown == 0 && !s.rolling then
      s.(rolling := true, rollTime := RollTicks, rollCooldown := RollCooldownTicks,
         invincibleTimer := RollInvincibility)
    else
      s
  }

  /** A roll starts exactly when the cooldown is 0 and no roll is under way,
      and then changes only the roll state and the invincibility timer; a
      second request right after is a no-op. */
  lemma RollGate(s: PlayerState)
    ensures var t := Rolled(s);
      (t != s ==> s.rollCooldown == 0 && !s.rolling) &&
      (s.rollCooldown == 0 && !s.rolling ==>
        t.rolling && t.rollTime == 12 && t.rollCooldown == 40 && t.invincibleTimer == 15 &&
        t.(rolling := s.rolling, rollTime := s.rollTime, rollCooldown := s.rollCooldown,
           invincibleTimer := s.invincibleTimer) == s) &&
      Rolled(t) == t
  {
  }

  lemma RollPreservesValid(s: PlayerState)
    requires ValidState(s)
    ensures ValidState(Rolled(s))
  {
  }

  // ------------------------------------------------------------- collision

  /** The velocity component a collision pass along `dir` resolves. */
  function AxisVel(s: PlayerState, dir: Axis): real {
    match dir
    case X => s.velX
    case Y => s.velY
  }

  /** One iteration of the loop of `collide(platforms, dir)`: the effect of platform p. */
  function Bump(s: PlayerState, p: Rect, dir: Axis): (t: PlayerState)
    ensures t.rect.w == s.rect.w && t.rect.h == s.rect.h
    ensures t.(rect := s.rect, velX := s.velX, velY := s.velY, onGround := s.onGround) == s
  {
    if !s.rect.CollideRect(p) then s
    else match dir
      case X =>
        var r := if s.velX > 0.0 then s.rect.SetRight(p.x)
                 else if s.velX < 0.0 then s.rect.SetLeft(p.Right())
                 else s.rect;
        s.(rect := r, velX := 0.0)
      case Y =>
        var r := if s.velY > 0.0 then s.rect.SetBottom(p.y)
                 else if s.velY < 0.0 then s.rect.SetTop(p.Bottom())
                 else s.rect;
        s.(rect := r, velY := 0.0, onGround := s.onGround || s.velY > 0.0)
  }

  /** `collide(platforms, dir)`: the platforms in list order, each seeing the
      rectangle as the earlier ones left it. */
  function Collided(s: PlayerState, ps: seq<Rect>, dir: Axis): (t: PlayerState)
    ensures t.rect.w == s.rect.w && t.rect.h == s.rect.h
    ensures t.(rect := s.rect, velX := s.velX, velY := s.velY, onGround := s.onGround) == s
    decreases |ps|
  {
    if ps == [] then s else Bump(Collided(s, ps[..|ps| - 1], dir), ps[|ps| - 1], dir)
  }

  /** The index of the first platform the rectangle collides with, or |ps|. */
  function FirstHit(r: Rect, ps: seq<Rect>): (k: nat)
    ensures k <= |ps|
    ensures k < |ps| ==> r.CollideRect(ps[k])
    ensures forall j :: 0 <= j < k ==> !r.CollideRect(ps[j])
    decreases |ps|
  {
    if ps == [] then 0
    else if r.CollideRect(ps[0]) then 0
    else 1 + FirstHit(r, ps[1..])
  }

  /** A platform met while the axis velocity is already 0 changes nothing. */
  lemma BumpAtRest(s: PlayerState, p: Rect, dir: Axis)
    requires AxisVel(s, dir) == 0.0
    ensures Bump(s, p, dir) == s
  {
  }

  /** Only the first platform the player overlaps acts: it clamps the
      rectangle and zeroes the velocity, after which every later platform
      finds the velocity 0 and changes nothing. */
  lemma {:induction false} CollidedIsFirstHit(s: PlayerState, ps: seq<Rect>, dir: Axis)
    ensures var k := FirstHit(s.rect, ps);
      Collided(s, ps, dir) == if k == |ps| then s else Bump(s, ps[k], dir)
    decreases |ps|
  {
    if ps != [] {
      var n := |ps|;
      var pre := ps[..n - 1];
      CollidedIsFirstHit(s, pre, dir);
      var k', k := FirstHit(s.rect, pre), FirstHit(s.rect, ps);
      if k' < n - 1 {
        assert forall j :: 0 <= j < n - 1 ==> ps[j] == pre[j];
        assert k == k';
        BumpAtRest(Bump(s, ps[k], dir), ps[n - 1], dir);
      } else {
        assert forall j :: 0 <= j < n - 1 ==> ps[j] == pre[j];
        assert k >= n - 1;
      }
    }
  }

  /** What a collision pass guarantees: if no platform was hit nothing
      changes; if some platform was hit the resolved velocity component is 0
      afterwards; the rectangle keeps its size and
      moves only along the pass's axis; moving right (down) puts its right
      (bottom) edge on the platform's left (top) edge and moving left (up)
      its left (top) edge on the platform's right (bottom) edge, so that it
      no longer overlaps the platform that stopped it; `on_ground` becomes
      true only by landing on a platform while moving down; and no other
      field changes. */
  lemma CollidedResolves(s: PlayerState, ps: seq<Rect>, dir: Axis)
    ensures var t, k := Collided(s, ps, dir), FirstHit(s.rect, ps);
      t.rect.w == s.rect.w && t.rect.h == s.rect.h &&
      (k == |ps| ==> t == s) &&
      (k < |ps| ==>
        var p, v := ps[k], AxisVel(s, dir);
        AxisVel(t, dir) == 0.0 &&
        (v != 0.0 ==> !t.rect.CollideRect(p)) &&
        match dir
        case X =>
          t.rect.y == s.rect.y && t.velY == s.velY && t.onGround == s.onGround &&
          (v > 0.0 ==> t.rect.Right() == p.x) &&
          (v < 0.0 ==> t.rect.x == p.Right()) &&
          (v == 0.0 ==> t.rect == s.rect)
        case Y =>
          t.rect.x == s.rect.x && t.velX == s.velX &&
          t.onGround == (s.onGround || v > 0.0) &&
          (v > 0.0 ==> t.rect.Bottom() == p.y) &&
          (v < 0.0 ==> t.rect.y == p.Bottom()) &&
          (v == 0.0 ==> t.rect == s.rect)) &&
      t.(rect := s.rect, velX := s.velX, velY := s.velY, onGround := s.onGround) == s
  {
    CollidedIsFirstHit(s, ps, dir);
  }

  // ---------------------------------------------------------------- update

  /** Held left/right keys on a player who is not rolling (the later key wins
      the facing direction). */
  function Accelerated(vx: real, facing: int, left: bool, right: bool): (real, int) {
    var (vx1, f1) := if left then (vx - Accel, -1) else (vx, facing);
    if right then (vx1 + Accel, 1) else (vx1, f1)
  }

  /** The part of `update` before any movement: keys, friction, gravity,
      the jump and the roll override. */
  function Steered(s: PlayerState, left: bool, right: bool, jump: bool): (t: PlayerState)
    ensures t.rect == s.rect && t.onGround == s.onGround && t.health == s.health
    ensures t.invincibleTimer == s.invincibleTimer && t.rollCooldown == s.rollCooldown
    ensures s.rolling ==> t.facing == s.facing
  {
    var (vx, f) := if s.rolling then (s.velX, s.facing) else Accelerated(s.velX, s.facing, left, right);
    var vy := if jump && s.onGround && !s.rolling then JumpPower as real else s.velY + Gravity;
    if s.rolling then
      s.(velX := (f * RollSpeed) as real, velY := vy, facing := f,
         rollTime := s.rollTime - 1, rolling := s.rollTime - 1 > 0)
    else
      s.(velX := vx * Friction, velY := vy, facing := f)
  }

  /** `rect.x += int(vel_x)`. */
  function ShiftedX(s: PlayerState): (t: PlayerState)
    ensures t.rect.y == s.rect.y && t.rect.w == s.rect.w && t.rect.h == s.rect.h
    ensures t.(rect := s.rect) == s
  {
    s.(rect := s.rect.(x := s.rect.x + Trunc(s.velX)))
  }

  /** `rect.y += int(vel_y)` and `on_ground = False`. */
  function ShiftedY(s: PlayerState): (t: PlayerState)
    ensures t.rect.x == s.rect.x && t.rect.w == s.rect.w && t.rect.h == s.rect.h && !t.onGround
    ensures t.(rect := s.rect, onGround := s.onGround) == s
  {
    s.(rect := s.rect.(y := s.rect.y + Trunc(s.velY)), onGround := false)
  }

  /** The horizontal move and pass, then the vertical move and pass. */
  function Moved(s: PlayerState, ps: seq<Rect>): PlayerState {
    Collided(ShiftedY(Collided(ShiftedX(s), ps, X)), ps, Y)
  }

  /** The state of an update just before its vertical collision pass. */
  function BeforeLanding(s: PlayerState, ps: seq<Rect>, left: bool, right: bool, jump: bool): PlayerState {
    ShiftedY(Collided(ShiftedX(Steered(s, left, right, jump)), ps, X))
  }

  /** Timer decay at the end of `update`. */
  function Decayed(s: PlayerState): (t: PlayerState)
    ensures t.(invincibleTimer := s.invincibleTimer, rollCooldown := s.rollCooldown) == s
    ensures 0 <= s.invincibleTimer ==> 0 <= t.invincibleTimer <= s.invincibleTimer
    ensures 0 <= s.rollCooldown ==> 0 <= t.rollCooldown <= s.rollCooldown
  {
    s.(invincibleTimer := if s.invincibleTimer > 0 then s.invincibleTimer - 1 else s.invincibleTimer,
       rollCooldown := if s.rollCooldown > 0 then s.rollCooldown - 1 else s.rollCooldown)
  }

  /** `update(platforms)` with the held keys as parameters. */
  function Updated(s: PlayerState, ps: seq<Rect>, left: bool, right: bool, jump: bool): (t: PlayerState)
    ensures t.health == s.health && t.rect.w == s.rect.w && t.rect.h == s.rect.h
  {
    if s.health <= 0 then s else Decayed(Moved(Steered(s, left, right, jump), ps))
  }

  /** A dead player is frozen: update changes nothing at all. */
  lemma UpdateDeadInert(s: PlayerState, ps: seq<Rect>, left: bool, right: bool, jump: bool)
    requires s.health <= 0
    ensures Updated(s, ps, left, right, jump) == s
  {
  }

  /** While rolling the held keys are ignored: the facing is kept and the
      horizontal velocity before the move is facing * 12. */
  lemma RollOverridesKeys(s: PlayerState, left: bool, right: bool, jump: bool)
    requires s.rolling
    ensures var t := Steered(s, left, right, jump);
      t.facing == s.facing && t.velX == (s.facing * RollSpeed) as real &&
      t == Steered(s, false, false, false)
  {
  }

  /** So a whole update of a rolling player does not depend on the keys. */
  lemma UpdateRollingIgnoresKeys(s: PlayerState, ps: seq<Rect>, l1: bool, r1: bool, j1: bool, l2: bool, r2: bool, j2: bool)
    requires s.rolling
    ensures Updated(s, ps, l1, r1, j1) == Updated(s, ps, l2, r2, j2)
  {
    RollOverridesKeys(s, l1, r1, j1);
    RollOverridesKeys(s, l2, r2, j2);
  }

  /** The jump impulse replaces gravity exactly when jump is held, the player
      is on the ground and not rolling. */
  lemma JumpGate(s: PlayerState, left: bool, right: bool, jump: bool)
    ensures Steered(s, left, right, jump).velY ==
      if jump && s.onGround && !s.rolling then -12.0 else s.velY + 0.8
  {
  }

  /** The key step of a player who is not rolling: each held key adds its
      0.8 before friction scales the sum by 0.85, and the facing follows the
      right key when both are held, the left key alone otherwise. */
  lemma KeysAccelerate(s: PlayerState, left: bool, right: bool, jump: bool)
    requires !s.rolling
    ensures var t := Steered(s, left, right, jump);
      t.velX == (s.velX - (if left then Accel else 0.0) + (if right then Accel else 0.0)) * Friction &&
      t.facing == (if right then 1 else if left then -1 else s.facing) &&
      t.rollTime == s.rollTime && !t.rolling
  {
  }

  /** Position integration: when the horizontal (vertical) pass hits
      nothing, the update moves x (y) by exactly the truncated velocity the
      player had after steering. */
  lemma MoveWithoutHit(s: PlayerState, ps: seq<Rect>, left: bool, right: bool, jump: bool)
    requires s.health > 0
    ensures var m := Steered(s, left, right, jump);
      var t := Updated(s, ps, left, right, jump);
      (FirstHit(ShiftedX(m).rect, ps) == |ps| ==> t.rect.x == s.rect.x + Trunc(m.velX)) &&
      (FirstHit(BeforeLanding(s, ps, left, right, jump).rect, ps) == |ps| ==>
         t.rect.y == Collided(ShiftedX(m), ps, X).rect.y + Trunc(m.velY))
  {
    var m := Steered(s, left, right, jump);
    CollidedResolves(ShiftedX(m), ps, X);
    CollidedResolves(BeforeLanding(s, ps, left, right, jump), ps, Y);
  }

  /** Both collision passes of one update, as `CollidedResolves` describes them. */
  lemma PassesResolve(s: PlayerState, ps: seq<Rect>, left: bool, right: bool, jump: bool)
    ensures var m := ShiftedX(Steered(s, left, right, jump));
      var c := BeforeLanding(s, ps, left, right, jump);
      Moved(Steered(s, left, right, jump), ps) == Collided(c, ps, Y) &&
      c == ShiftedY(Collided(m, ps, X)) &&
      Collided(m, ps, X).(rect := m.rect, velX := m.velX, velY := m.velY, onGround := m.onGround) == m &&
      Collided(c, ps, Y).(rect := c.rect, velX := c.velX, velY := c.velY, onGround := c.onGround) == c &&
      Collided(m, ps, X).rect.w == m.rect.w && Collided(m, ps, X).rect.h == m.rect.h &&
      Collided(c, ps, Y).rect.w == c.rect.w && Collided(c, ps, Y).rect.h == c.rect.h &&
      Collided(c, ps, Y).onGround == (FirstHit(c.rect, ps) < |ps| && c.velY > 0.0)
  {
    var m := ShiftedX(Steered(s, left, right, jump));
    CollidedResolves(m, ps, X);
    var c := BeforeLanding(s, ps, left, right, jump);
    CollidedResolves(c, ps, Y);
  }

  /** The roll state machine: each update of a rolling player spends one tick
      of roll time and ends the roll when none is left; a player who is not
      rolling keeps its roll time and does not start rolling. */
  lemma RollProgress(s: PlayerState, ps: seq<Rect>, left: bool, right: bool, jump: bool)
    requires s.health > 0
    ensures var t := Updated(s, ps, left, right, jump);
      (s.rolling ==> t.rollTime == s.rollTime - 1 && (t.rolling <==> t.rollTime > 0)) &&
      (!s.rolling ==> t.rollTime == s.rollTime && !t.rolling)
  {
    PassesResolve(s, ps, left, right, jump);
  }

  /** Invincibility and roll cooldown each drop by one per update while
      positive; health is never changed by an update. */
  lemma TimersDecay(s: PlayerState, ps: seq<Rect>, left: bool, right: bool, jump: bool)
    requires s.health > 0
    ensures var t := Updated(s, ps, left, right, jump);
      t.health == s.health &&
      t.invincibleTimer == (if s.invincibleTimer > 0 then s.invincibleTimer - 1 else s.invincibleTimer) &&
      t.rollCooldown == (if s.rollCooldown > 0 then s.rollCooldown - 1 else s.rollCooldown)
  {
    PassesResolve(s, ps, left, right, jump);
  }

  /** After an update the player is on the ground exactly when, after the
      vertical move, the first platform it overlaps was reached while moving
      down; the size of its rectangle never changes. */
  lemma OnGroundAfterUpdate(s: PlayerState, ps: seq<Rect>, left: bool, right: bool, jump: bool)
    requires s.health > 0
    ensures var c, t := BeforeLanding(s, ps, left, right, jump), Updated(s, ps, left, right, jump);
      t.rect.w == s.rect.w && t.rect.h == s.rect.h &&
      (t.onGround <==> FirstHit(c.rect, ps) < |ps| && c.velY > 0.0)
  {
    PassesResolve(s, ps, left, right, jump);
  }

  /** Every update keeps the player's invariant. */
  lemma UpdatePreservesValid(s: PlayerState, ps: seq<Rect>, left: bool, right: bool, jump: bool)
    requires ValidState(s)
    ensures ValidState(Updated(s, ps, left, right, jump))
  {
    if s.health > 0 {
      RollProgress(s, ps, left, right, jump);
      TimersDecay(s, ps, left, right, jump);
      PassesResolve(s, ps, left, right, jump);
    }
  }

  /** The one platform of the level. */
  const Ground := Rect(0, 640, 1280, 80)

  /** A player standing still on the ground who jumps leaves it: vertical
      velocity -12, no longer on the ground, and 12 pixels higher. */
  lemma JumpFromGround(s: PlayerState, left: bool, right: bool)
    requires s.health > 0 && !s.rolling && s.onGround && s.velX == 0.0
    requires !left && !right
    requires s.rect.Bottom() == Ground.y
    ensures var t := Updated(s, [Ground], left, right, true);
      t.velY == -12.0 && !t.onGround && t.rect.y == s.rect.y - 12 && t.rect.x == s.rect.x
  {
    var m := Steered(s, left, right, true);
    assert m.velX == 0.0 && m.velY == -12.0;
    var a := ShiftedX(m);
    assert a.rect == s.rect && !a.rect.CollideRect(Ground);
    CollidedResolves(a, [Ground], X);
    var c := ShiftedY(Collided(a, [Ground], X));
    assert Trunc(-12.0) == -12;
    assert !c.rect.CollideRect(Ground);
    CollidedResolves(c, [Ground], Y);
  }

  /** A player standing still on the level's platform does not stay on the
      ground: gravity gives 0.8, `int(0.8)` is 0, so the player does not
      move, and a rectangle that only shares an edge with the platform does
      not collide, so the tick ends off the ground. The next tick moves the
      player 1 pixel down and lands it again, whether jump is held or not:
      `on_ground` alternates, and a jump pressed only on an off tick is lost. */
  lemma StandingFlickers(s: PlayerState, jump: bool)
    requires s.health > 0 && !s.rolling && s.onGround && s.velX == 0.0 && s.velY == 0.0
    requires s.rect.Bottom() == Ground.y && s.rect.w > 0 && s.rect.h > 0
    requires s.rect.x < Ground.Right() && Ground.x < s.rect.Right()
    ensures var t := Updated(s, [Ground], false, false, false);
      !t.onGround && t.rect == s.rect && t.velY == 0.8 &&
      var u := Updated(t, [Ground], false, false, jump);
      u.onGround && u.rect == s.rect && u.velY == 0.0
  {
    var m := Steered(s, false, false, false);
    assert m.velX == 0.0 && m.velY == 0.8;
    var a := ShiftedX(m);
    assert a.rect == s.rect && !a.rect.CollideRect(Ground);
    CollidedResolves(a, [Ground], X);
    var c := ShiftedY(Collided(a, [Ground], X));
    assert Trunc(0.8) == 0;
    assert c.rect == s.rect && !c.rect.CollideRect(Ground);
    CollidedResolves(c, [Ground], Y);
    var t := Updated(s, [Ground], false, false, false);
    assert t == Decayed(c);

    var m' := Steered(t, false, false, jump);
    assert m'.velX == 0.0 && m'.velY == 1.6;
    var a' := ShiftedX(m');
    assert a'.rect == s.rect && !a'.rect.CollideRect(Ground);
    CollidedResolves(a', [Ground], X);
    var c' := ShiftedY(Collided(a', [Ground], X));
    assert Trunc(1.6) == 1;
    assert c'.rect == s.rect.(y := s.rect.y + 1) && c'.rect.CollideRect(Ground) && c'.velY > 0.0;
    CollidedResolves(c', [Ground], Y);
  }

  // ----------------------------------------------------------------- class

  /** The initial player for an image of size w by h, with centerx 200 and bottom 640. */
  function Spawned(w: nat, h: nat): (s: PlayerState)
    ensures ValidState(s) && s.rect.CenterX() == 200 && s.rect.Bottom() == 640
    ensures s.health == MaxHealth && s.invincibleTimer == 0 && !s.rolling && s.rollCooldown == 0 && s.facing == 1
  {
    PlayerState(Rect(200 - w / 2, 640 - h, w, h), 0.0, 0.0, false,
                MaxHealth, 0, false, 0, 0, 1)
  }

  class Player {
    var rect: Rect
    var velX: real
    var velY: real
    var onGround: bool
    var health: int
    var invincibleTimer: int
    var rolling: bool
    var rollTime: int
    var rollCooldown: int
    var facing: int

    function State(): PlayerState
      reads this
    {
      PlayerState(rect, velX, velY, onGround, health, invincibleTimer,
                  rolling, rollTime, rollCooldown, facing)
    }

    ghost predicate Valid()
      reads this
    {
      ValidState(State())
    }

    /** The player for a sprite of size w by h (80 by 80, or the 50 by 50 fallback). */
    constructor (w: nat, h: nat)
      ensures State() == Spawned(w, h) && Valid()
    {
      rect := Rect(200 - w / 2, 640 - h, w, h);
      velX, velY, onGround := 0.0, 0.0, false;
      health, invincibleTimer := MaxHealth, 0;
      rolling, rollTime, rollCooldown, facing := false, 0, 0, 1;
    }

    method TakeDamage(amount: int)
      modifies this
      ensures State() == Damaged(old(State()), amount)
      ensures old(invincibleTimer) != 0 || old(health) <= 0 ==> unchanged(this)
      ensures old(Valid()) && amount >= 0 ==> Valid()
    {
      ghost var s0 := State();
      if invincibleTimer == 0 && health > 0 {
        health := health - amount;
        if health < 0 {
          health := 0;
        }
        invincibleTimer := HitInvincibility;
      }
      if ValidState(s0) && amount >= 0 {
        DamagePreservesValid(s0, amount);
      }
    }

    method StartRoll()
      modifies this
      ensures State() == Rolled(old(State()))
      ensures old(rollCooldown) != 0 || old(rolling) ==> unchanged(this)
      ensures old(Valid()) ==> Valid()
    {
      if Valid() {
        RollPreservesValid(State());
      }
      if rollCooldown == 0 && !rolling {
        rolling := true;
        rollTime := RollTicks;
        rollCooldown := RollCooldownTicks;
        invincibleTimer := RollInvincibility;
      }
    }

    method Collide(platforms: seq<Rect>, dir: Axis)
      modifies this
      ensures State() == Collided(old(State()), platforms, dir)
    {
      for i := 0 to |platforms|
        invariant State() == Collided(old(State()), platforms[..i], dir)
      {
        var p := platforms[i];
        if rect.CollideRect(p) {
          if dir == X {
            if velX > 0.0 {
              rect := rect.SetRight(p.x);
            }
            if velX < 0.0 {
              rect := rect.SetLeft(p.Right());
            }
            velX := 0.0;
          }
          if dir == Y {
            if velY > 0.0 {
              rect := rect.SetBottom(p.y);
              onGround := true;
            }
            if velY < 0.0 {
              rect := rect.SetTop(p.Bottom());
            }
            velY := 0.0;
          }
        }
        assert platforms[..i + 1][..i] == platforms[..i];
      }
      assert platforms[..|platforms|] == platforms;
    }

    /** Keys, friction, gravity, jump and the roll override, before the player moves. */
    method Steer(left: bool, right: bool, jump: bool)
      modifies this
      ensures State() == Steered(old(State()), left, right, jump)
    {
      ghost var s0 := State();
      if !rolling {
        if left {
          velX := velX - Accel;
          facing := -1;
        }
        if right {
          velX := velX + Accel;
          facing := 1;
        }
      }
      assert (velX, facing) == if s0.rolling then (s0.velX, s0.facing)
                               else Accelerated(s0.velX, s0.facing, left, right);

      velX := velX * Friction;
      velY := velY + Gravity;

      if jump && onGround && !rolling {
        velY := JumpPower as real;
      }
      assert velY == if jump && s0.onGround && !s0.rolling then JumpPower as real else s0.velY + Gravity;

      if rolling {
        velX := (facing * RollSpeed) as real;
        rollTime := rollTime - 1;
        if rollTime <= 0 {
          rolling := false;
        }
      }
    }

    /** One tick of the player with the held keys left, right and jump. */
    method Update(platforms: seq<Rect>, left: bool, right: bool, jump: bool)
      modifies this
      ensures State() == Updated(old(State()), platforms, left, right, jump)
      ensures old(health) <= 0 ==> unchanged(this)
      ensures old(Valid()) ==> Valid()
    {
      if Valid() {
        UpdatePreservesValid(State(), platforms, left, right, jump);
      }
      if health <= 0 {
        return;
      }
      Steer(left, right, jump);
      ghost var s1 := State();

      rect := rect.(x := rect.x + Trunc(velX));
      ghost var a := State();
      assert a == ShiftedX(s1);
      Collide(platforms, X);
      ghost var b := State();
      assert b == Collided(a, platforms, X);

      rect := rect.(y := rect.y + Trunc(velY));
      onGround := false;
      ghost var c := State();
      assert c == ShiftedY(b);
      Collide(platforms, Y);
      assert State() == Collided(c, platforms, Y);
      assert State() == Moved(s1, platforms);

      if invincibleTimer > 0 {
        invincibleTimer := invincibleTimer - 1;
      }

      if rollCooldown > 0 {
        rollCooldown := rollCooldown - 1;
      }
      assert State() == Decayed(Moved(s1, platforms));
    }
  }
}
