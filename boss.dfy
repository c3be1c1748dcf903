/** The boss: a dead-zone approach toward the player, a spin attack driven
    by a cooldown and a duration timer, a bottom edge pinned to the ground
    line, and contact damage dealt through the player's `take_damage`.

    `BossState` is the value of the fields `Boss` updates in place;
    `BossUpdated` specifies one `Boss.Update` as a function of the boss and
    the player before it, and returns both afterwards. */
module BossEntity {
  import opened Geometry
  import opened PlayerEntity

  const BossMaxHealth := 400
  const BossSpeed := 2
  const DeadZone := 5
  const GroundLine := 640
  const SpinTicks := 60
  const SpinCooldownTicks := 180
  const FirstSpinCooldown := 120
  const SpinStep := 25
  const SpinDamage := 30
  const ContactDamage := 5

  datatype BossState = BossState(
    rect: Rect,
    health: int,
    angle: int,
    spinDuration: int,
    spinCooldown: int)

  /** What holds of every boss the game creates and updates: the timers are
      in range, and during a spin the cooldown is 120 ticks ahead of the
      duration, so that a spin can never restart while one is under way. */
  predicate BossValid(b: BossState) {
    0 <= b.spinDuration <= SpinTicks &&
    0 <= b.spinCooldown <= SpinCooldownTicks &&
    (b.spinDuration > 0 ==> b.spinCooldown == b.spinDuration + (SpinCooldownTicks - SpinTicks))
  }

  function Dist(a: int, b: int): nat { if a <= b then b - a else a - b }

  /** The approach step: `speed` pixels toward the target's centre unless
      the gap is within the dead zone. */
  function Approached(r: Rect, target: int): (q: Rect)
    ensures q.y == r.y && q.w == r.w && q.h == r.h && Dist(q.x, r.x) <= BossSpeed
  {
    if target < r.CenterX() - DeadZone then r.(x := r.x - BossSpeed)
    else if target > r.CenterX() + DeadZone then r.(x := r.x + BossSpeed)
    else r
  }

  /** The approach keeps the boss's size and height, closes a gap wider than
      the dead zone by exactly 2 and leaves a smaller one as it is. */
  lemma ApproachClosesGap(r: Rect, target: int)
    ensures var q := Approached(r, target);
      q.y == r.y && q.w == r.w && q.h == r.h &&
      Dist(q.x, r.x) == (if Dist(target, r.CenterX()) > DeadZone then BossSpeed else 0) &&
      Dist(target, q.CenterX()) ==
        (if Dist(target, r.CenterX()) > DeadZone then Dist(target, r.CenterX()) - BossSpeed
         else Dist(target, r.CenterX()))
  {
  }

  /** The spin trigger, with `spinRoll` standing for the random draw hitting. */
  function Triggered(b: BossState, spinRoll: bool): (t: BossState)
    ensures t.rect == b.rect && t.health == b.health && t.angle == b.angle
    ensures t != b ==> b.spinCooldown <= 0 && spinRoll
  {
    if b.spinCooldown <= 0 && spinRoll then
      b.(spinDuration := SpinTicks, spinCooldown := SpinCooldownTicks)
    else
      b
  }

  /** One spinning tick: the angle advances, the rectangle becomes that of
      the rotated image (of size rotW by rotH) around the same centre, and
      the duration drops by one. */
  function Spun(b: BossState, rotW: nat, rotH: nat): (t: BossState)
    ensures t.health == b.health && t.spinCooldown == b.spinCooldown
    ensures t.rect.CenterX() == b.rect.CenterX() && t.rect.CenterY() == b.rect.CenterY()
  {
    if b.spinDuration > 0 then
      b.(angle := b.angle + SpinStep,
         rect := Centered(b.rect.CenterX(), b.rect.CenterY(), rotW, rotH),
         spinDuration := b.spinDuration - 1)
    else
      b
  }

  /** The cooldown decay and the pinning of the bottom edge to the ground line. */
  function Settled(b: BossState): (t: BossState)
    ensures t.rect.Bottom() == GroundLine && t.rect.x == b.rect.x && t.rect.w == b.rect.w && t.rect.h == b.rect.h
    ensures t.health == b.health && t.angle == b.angle && t.spinDuration == b.spinDuration
  {
    b.(spinCooldown := if b.spinCooldown > 0 then b.spinCooldown - 1 else b.spinCooldown,
       rect := b.rect.SetBottom(GroundLine))
  }

  /** `Boss.update(player)`; `rotW` by `rotH` is the size of the rotated image. */
  function BossUpdated(b: BossState, p: PlayerState, spinRoll: bool, rotW: nat, rotH: nat): (r: (BossState, PlayerState))
    ensures r.0.health == b.health && r.1.health <= p.health
    ensures r.1.(health := p.health, invincibleTimer := p.invincibleTimer) == p
  {
    if b.health <= 0 then (b, p)
    else
      var b1 := if b.spinDuration == 0 then b.(rect := Approached(b.rect, p.rect.CenterX())) else b;
      var b2 := Triggered(b1, spinRoll);
      var b3 := Spun(b2, rotW, rotH);
      var p1 := if b2.spinDuration > 0 && b3.rect.CollideRect(p.rect) then Damaged(p, SpinDamage) else p;
      var b4 := Settled(b3);
      var p2 := if b4.rect.CollideRect(p1.rect) then Damaged(p1, ContactDamage) else p1;
      (b4, p2)
  }

  /** A dead boss is inert: neither it nor the player changes. */
  lemma BossDeadInert(b: BossState, p: PlayerState, spinRoll: bool, rotW: nat, rotH: nat)
    requires b.health <= 0
    ensures BossUpdated(b, p, spinRoll, rotW, rotH) == (b, p)
  {
  }

  /** A living boss ends every update with its bottom edge on the ground line
      and its health unchanged; the player is not moved. */
  lemma BossPinned(b: BossState, p: PlayerState, spinRoll: bool, rotW: nat, rotH: nat)
    requires b.health > 0
    ensures var (t, q) := BossUpdated(b, p, spinRoll, rotW, rotH);
      t.rect.Bottom() == GroundLine && t.health == b.health && q.rect == p.rect
  {
  }

  /** Without a spin under way or starting, the boss takes the approach step
      toward the player and nothing about its shape changes. */
  lemma BossWalks(b: BossState, p: PlayerState, spinRoll: bool, rotW: nat, rotH: nat)
    requires b.health > 0 && b.spinDuration == 0 && !(b.spinCooldown <= 0 && spinRoll)
    ensures var t := BossUpdated(b, p, spinRoll, rotW, rotH).0;
      t.rect == Approached(b.rect, p.rect.CenterX()).SetBottom(GroundLine) &&
      t.angle == b.angle && t.spinDuration == 0
  {
  }

  /** On a tick that starts with no spin under way the boss takes the
      approach step first, so its horizontal centre ends where the approach
      put it, also when a spin starts on that tick. */
  lemma SpinStartsWhereWalked(b: BossState, p: PlayerState, spinRoll: bool, rotW: nat, rotH: nat)
    requires b.health > 0 && b.spinDuration == 0
    ensures BossUpdated(b, p, spinRoll, rotW, rotH).0.rect.CenterX() ==
      Approached(b.rect, p.rect.CenterX()).CenterX()
  {
  }

  /** The spin timers: a spin starts only when the cooldown has run out and
      the draw hits, and then lasts 60 ticks (59 remain after the tick that
      starts it) with the cooldown reset to 180 (179 after this tick); while
      spinning, the angle advances by 25 and the duration drops by one per
      tick; the cooldown drops by one per tick while positive. */
  lemma SpinTimers(b: BossState, p: PlayerState, spinRoll: bool, rotW: nat, rotH: nat)
    requires b.health > 0
    ensures var t := BossUpdated(b, p, spinRoll, rotW, rotH).0;
      var started := b.spinCooldown <= 0 && spinRoll;
      (started ==> t.spinDuration == SpinTicks - 1 && t.spinCooldown == SpinCooldownTicks - 1 &&
                   t.angle == b.angle + SpinStep) &&
      (!started && b.spinDuration > 0 ==> t.spinDuration == b.spinDuration - 1 && t.angle == b.angle + SpinStep) &&
      (!started && b.spinDuration <= 0 ==> t.spinDuration == b.spinDuration && t.angle == b.angle) &&
      (!started ==> t.spinCooldown == if b.spinCooldown > 0 then b.spinCooldown - 1 else b.spinCooldown)
  {
  }

  /** While a spin is under way the boss does not walk: its rectangle is the
      rotated image's, centred where the boss was. */
  lemma SpinStaysCentred(b: BossState, p: PlayerState, spinRoll: bool, rotW: nat, rotH: nat)
    requires b.health > 0 && b.spinDuration > 0
    ensures var t := BossUpdated(b, p, spinRoll, rotW, rotH).0;
      t.rect.CenterX() == b.rect.CenterX() && t.rect.w == rotW && t.rect.h == rotH
  {
  }

  /** In one update the player loses health from at most one landed hit:
      nothing, min(30, health) from the spin, or min(5, health) from contact.
      Only health and the invincibility timer can change. */
  lemma AtMostOneHit(b: BossState, p: PlayerState, spinRoll: bool, rotW: nat, rotH: nat)
    requires p.health >= 0
    ensures var q := BossUpdated(b, p, spinRoll, rotW, rotH).1;
      var loss := p.health - q.health;
      (loss == 0 || loss == Min(SpinDamage, p.health) || loss == Min(ContactDamage, p.health)) &&
      q.(health := p.health, invincibleTimer := p.invincibleTimer) == p
  {
    if b.health > 0 {
      var b1 := if b.spinDuration == 0 then b.(rect := Approached(b.rect, p.rect.CenterX())) else b;
      var b2 := Triggered(b1, spinRoll);
      var b3 := Spun(b2, rotW, rotH);
      var p1 := if b2.spinDuration > 0 && b3.rect.CollideRect(p.rect) then Damaged(p, SpinDamage) else p;
      DamageGate(p, SpinDamage);
      DamageGate(p, ContactDamage);
      DamageOncePerWindow(p, SpinDamage, ContactDamage);
      assert p1 == p || p1 == Damaged(p, SpinDamage);
    }
  }

  /** The hits do land: a living boss hits a vulnerable player with the spin
      when the rotated rectangle touches it, and otherwise with contact when
      the settled rectangle touches it; the spin is checked first and wins.
      A landed hit takes min(damage, health) and opens the 60-tick window. */
  lemma BossHitsVulnerable(b: BossState, p: PlayerState, spinRoll: bool, rotW: nat, rotH: nat)
    requires b.health > 0 && p.invincibleTimer == 0 && p.health > 0
    ensures var b2 := Triggered(if b.spinDuration == 0 then b.(rect := Approached(b.rect, p.rect.CenterX())) else b, spinRoll);
      var spinHit := b2.spinDuration > 0 && Spun(b2, rotW, rotH).rect.CollideRect(p.rect);
      var (t, q) := BossUpdated(b, p, spinRoll, rotW, rotH);
      (spinHit ==> p.health - q.health == Min(SpinDamage, p.health) && q.invincibleTimer == HitInvincibility) &&
      (!spinHit && t.rect.CollideRect(p.rect) ==>
        p.health - q.health == Min(ContactDamage, p.health) && q.invincibleTimer == HitInvincibility) &&
      (!spinHit && !t.rect.CollideRect(p.rect) ==> q == p)
  {
    DamageGate(p, SpinDamage);
    DamageGate(p, ContactDamage);
    DamageOncePerWindow(p, SpinDamage, ContactDamage);
  }

  /** A player inside an invincibility window, or already dead, is untouched. */
  lemma ProtectedPlayerUntouched(b: BossState, p: PlayerState, spinRoll: bool, rotW: nat, rotH: nat)
    requires p.invincibleTimer != 0 || p.health <= 0
    ensures BossUpdated(b, p, spinRoll, rotW, rotH).1 == p
  {
  }

  /** Every update keeps the boss's and the player's invariants. */
  lemma BossPreservesValid(b: BossState, p: PlayerState, spinRoll: bool, rotW: nat, rotH: nat)
    requires BossValid(b) && ValidState(p)
    ensures var (t, q) := BossUpdated(b, p, spinRoll, rotW, rotH);
      BossValid(t) && ValidState(q)
  {
    if b.health > 0 {
      var b1 := if b.spinDuration == 0 then b.(rect := Approached(b.rect, p.rect.CenterX())) else b;
      var b3 := Spun(Triggered(b1, spinRoll), rotW, rotH);
      var p1 := if Triggered(b1, spinRoll).spinDuration > 0 && b3.rect.CollideRect(p.rect) then Damaged(p, SpinDamage) else p;
      DamagePreservesValid(p, SpinDamage);
      DamagePreservesValid(p1, ContactDamage);
    }
  }

  /** The initial boss for an image of size w by h, standing on the ground
      line centred at x = 1000. */
  function BossSpawned(w: nat, h: nat): (b: BossState)
    ensures BossValid(b) && b.rect.CenterX() == 1000 && b.rect.Bottom() == GroundLine
    ensures b.health == BossMaxHealth && b.spinCooldown == 120 && b.angle == 0 && b.spinDuration == 0
  {
    BossState(Rect(1000 - w / 2, GroundLine - h, w, h), BossMaxHealth, 0, 0, FirstSpinCooldown)
  }

  class Boss {
    var rect: Rect
    var health: int
    var angle: int
    var spinDuration: int
    var spinCooldown: int

    function State(): BossState
      reads this
    {
      BossState(rect, health, angle, spinDuration, spinCooldown)
    }

    /** The boss for a sprite of size w by h (220 by 220, or the 200 by 200 fallback). */
    constructor (w: nat, h: nat)
      ensures State() == BossSpawned(w, h)
    {
      rect := Rect(1000 - w / 2, GroundLine - h, w, h);
      health := BossMaxHealth;
      angle, spinDuration, spinCooldown := 0, 0, FirstSpinCooldown;
    }

    /** A walking step towards the player's centre `target`, unless within 5 of it. */
    method Approach(target: int)
      modifies this
      ensures State() == old(State()).(rect := Approached(old(rect), target))
    {
      if target < rect.CenterX() - DeadZone {
        rect := rect.(x := rect.x - BossSpeed);
      } else if target > rect.CenterX() + DeadZone {
        rect := rect.(x := rect.x + BossSpeed);
      }
    }

    /** The spinning part of a tick: rotate, recentre, count down, and hit
        the player with the spin if the rotated rectangle touches it. */
    method Spin(player: Player, rotW: nat, rotH: nat)
      modifies this, player
      ensures State() == Spun(old(State()), rotW, rotH)
      ensures player.State() ==
        if old(spinDuration) > 0 && rect.CollideRect(old(player.rect)) then Damaged(old(player.State()), SpinDamage)
        else old(player.State())
    {
      if spinDuration > 0 {
        angle := angle + SpinStep;
        rect := Centered(rect.CenterX(), rect.CenterY(), rotW, rotH);
        spinDuration := spinDuration - 1;

        if rect.CollideRect(player.rect) {
          player.TakeDamage(SpinDamage);
        }
      }
    }

    /** The end of a tick: count the spin cooldown down, put the bottom edge
        back on the ground line, and hit the player on contact. */
    method Settle(player: Player)
      modifies this, player
      ensures State() == Settled(old(State()))
      ensures player.State() ==
        if rect.CollideRect(old(player.rect)) then Damaged(old(player.State()), ContactDamage)
        else old(player.State())
    {
      if spinCooldown > 0 {
        spinCooldown := spinCooldown - 1;
      }

      rect := rect.SetBottom(GroundLine);

      if rect.CollideRect(player.rect) {
        player.TakeDamage(ContactDamage);
      }
    }

    /** One tick of the boss against the player. */
    method Update(player: Player, spinRoll: bool, rotW: nat, rotH: nat)
      modifies this, player
      ensures (State(), player.State()) == BossUpdated(old(State()), old(player.State()), spinRoll, rotW, rotH)
      ensures old(health) <= 0 ==> unchanged(this) && unchanged(player)
      ensures BossValid(old(State())) && old(player.Valid()) ==> BossValid(State()) && player.Valid()
    {
      ghost var b0, p0 := State(), player.State();
      if health <= 0 {
        return;
      }

      if spinDuration == 0 {
        Approach(player.rect.CenterX());
      }
      ghost var b1 := State();

      if spinCooldown <= 0 && spinRoll {
        spinDuration := SpinTicks;
        spinCooldown := SpinCooldownTicks;
      }
      ghost var b2 := State();
      assert b2 == Triggered(b1, spinRoll);

      Spin(player, rotW, rotH);
      ghost var b3, p1 := State(), player.State();
      assert p1 == if b2.spinDuration > 0 && b3.rect.CollideRect(p0.rect) then Damaged(p0, SpinDamage) else p0;

      Settle(player);
      assert (State(), player.State()) == BossUpdated(b0, p0, spinRoll, rotW, rotH);
      if BossValid(b0) && ValidState(p0) {
        BossPreservesValid(b0, p0, spinRoll, rotW, rotH);
      }
    }
  }
}
