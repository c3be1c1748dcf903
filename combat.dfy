/** The game loop's own state and combat: the module-level `attack_cooldown`
    gating the 25-damage melee hit, and one tick that updates the player,
    then the boss, then counts the cooldown down.

    `World` is the value of everything one tick changes; `Clicked` and
    `Ticked` specify `Game.Click` and `Game.Tick`. */
module Combat {
  import opened Geometry
  import opened PlayerEntity
  import opened BossEntity

  const AttackCooldownTicks := 15
  const AttackDamage := 25
  const ReachX := 90
  const ReachY := 60

  datatype World = World(player: PlayerState, boss: BossState, attackCooldown: int)

  predicate WorldValid(w: World) {
    ValidState(w.player) && BossValid(w.boss) && w.boss.health <= BossMaxHealth &&
    0 <= w.attackCooldown <= AttackCooldownTicks
  }

  /** The area a melee swing reaches: the player's rectangle inflated by 90 by 60. */
  function Swing(p: PlayerState): Rect {
    p.rect.Inflate(ReachX, ReachY)
  }

  /** A mouse button press (`button`), as the event loop handles it. */
  function Clicked(w: World, button: int): (t: World)
    ensures t.player == w.player && t.boss.(health := w.boss.health) == w.boss
    ensures t.boss.health <= w.boss.health
  {
    if button == 1 && w.attackCooldown == 0 && w.player.health > 0 then
      w.(attackCooldown := AttackCooldownTicks,
         boss := if Swing(w.player).CollideRect(w.boss.rect)
                 then w.boss.(health := w.boss.health - AttackDamage) else w.boss)
    else
      w
  }

  /** One tick after the events: player, boss, then the attack cooldown. */
  function Ticked(w: World, ps: seq<Rect>, left: bool, right: bool, jump: bool,
                  spinRoll: bool, rotW: nat, rotH: nat): (t: World)
    ensures t.boss.health == w.boss.health && t.player.health <= w.player.health
  {
    var p := Updated(w.player, ps, left, right, jump);
    var (b, q) := BossUpdated(w.boss, p, spinRoll, rotW, rotH);
    World(q, b, if w.attackCooldown > 0 then w.attackCooldown - 1 else w.attackCooldown)
  }

  /** An attack acts only on a left click with the cooldown at 0 and the
      player alive; it then restarts the cooldown at 15 and takes exactly 25
      from the boss if the swing touches it, and nothing otherwise. Nothing
      else changes; a click that does not act changes nothing at all. */
  lemma ClickGate(w: World, button: int)
    ensures var t := Clicked(w, button);
      if button == 1 && w.attackCooldown == 0 && w.player.health > 0 then
        t.attackCooldown == AttackCooldownTicks && t.player == w.player &&
        t.boss.(health := w.boss.health) == w.boss &&
        w.boss.health - t.boss.health == (if Swing(w.player).CollideRect(w.boss.rect) then AttackDamage else 0)
      else
        t == w
  {
  }

  /** Clicking the same button again straight after a click does nothing:
      the first click either acted and started the cooldown or could not act. */
  lemma ClickOnce(w: World, button: int)
    ensures Clicked(Clicked(w, button), button) == Clicked(w, button)
  {
  }

  /** While the attack cooldown is positive, a click of any button does nothing. */
  lemma ClickDuringCooldown(w: World, button: int)
    requires w.attackCooldown > 0
    ensures Clicked(w, button) == w
  {
  }

  /** A player the boss touches (the contact test of the boss's update)
      always reaches the boss with a swing. */
  lemma TouchingIsInReach(w: World)
    requires w.boss.rect.CollideRect(w.player.rect)
    requires w.attackCooldown == 0 && w.player.health > 0
    ensures Clicked(w, 1).boss.health == w.boss.health - AttackDamage
  {
    CollideSymmetric(w.boss.rect, w.player.rect);
    InflateKeepsCollision(w.player.rect, w.boss.rect, ReachX, ReachY);
  }

  /** The attack cooldown drops by one per tick while positive and is never
      negative after a tick that starts non-negative. */
  lemma TickCooldown(w: World, ps: seq<Rect>, left: bool, right: bool, jump: bool,
                     spinRoll: bool, rotW: nat, rotH: nat)
    requires w.attackCooldown >= 0
    ensures var t := Ticked(w, ps, left, right, jump, spinRoll, rotW, rotH);
      t.attackCooldown >= 0 &&
      t.attackCooldown == if w.attackCooldown > 0 then w.attackCooldown - 1 else 0
  {
  }

  /** A dead player stays frozen through a whole tick, and a dead boss is
      not changed by one. */
  lemma TickDeadInert(w: World, ps: seq<Rect>, left: bool, right: bool, jump: bool,
                      spinRoll: bool, rotW: nat, rotH: nat)
    ensures var t := Ticked(w, ps, left, right, jump, spinRoll, rotW, rotH);
      (w.player.health <= 0 ==> t.player == w.player) &&
      (w.boss.health <= 0 ==> t.boss == w.boss)
  {
    if w.player.health <= 0 {
      var p := Updated(w.player, ps, left, right, jump);
      ProtectedPlayerUntouched(w.boss, p, spinRoll, rotW, rotH);
    }
  }

  /** Ticks and clicks keep every invariant (player health in [0, 100], boss
      health at most 400, every timer in range). */
  lemma WorldStaysValid(w: World, ps: seq<Rect>, left: bool, right: bool, jump: bool,
                        spinRoll: bool, rotW: nat, rotH: nat, button: int)
    requires WorldValid(w)
    ensures WorldValid(Ticked(w, ps, left, right, jump, spinRoll, rotW, rotH))
    ensures WorldValid(Clicked(w, button))
  {
    UpdatePreservesValid(w.player, ps, left, right, jump);
    BossPreservesValid(w.boss, Updated(w.player, ps, left, right, jump), spinRoll, rotW, rotH);
    if w.boss.health > 0 {
      BossPinned(w.boss, Updated(w.player, ps, left, right, jump), spinRoll, rotW, rotH);
    }
  }

  /** Boss health only ever falls: a tick leaves it as it is and a click
      lowers it or leaves it. */
  lemma BossHealthNeverRises(w: World, ps: seq<Rect>, left: bool, right: bool, jump: bool,
                             spinRoll: bool, rotW: nat, rotH: nat, button: int)
    ensures Ticked(w, ps, left, right, jump, spinRoll, rotW, rotH).boss.health == w.boss.health
    ensures Clicked(w, button).boss.health <= w.boss.health
  {
    if w.boss.health > 0 {
      BossPinned(w.boss, Updated(w.player, ps, left, right, jump), spinRoll, rotW, rotH);
    }
  }

  /** The session's objects: the one player, the one boss, the one platform
      and the attack cooldown. */
  class Game {
    const player: Player
    const boss: Boss
    const platforms: seq<Rect>
    var attackCooldown: int

    function State(): World
      reads this, player, boss
    {
      World(player.State(), boss.State(), attackCooldown)
    }

    ghost predicate Valid()
      reads this, player, boss
    {
      WorldValid(State())
    }

    /** A new session, given the sizes of the two sprites. */
    constructor (playerW: nat, playerH: nat, bossW: nat, bossH: nat)
      ensures fresh(player) && fresh(boss) && platforms == [Ground]
      ensures State() == World(Spawned(playerW, playerH), BossSpawned(bossW, bossH), 0)
      ensures WorldValid(State())
    {
      player := new Player(playerW, playerH);
      boss := new Boss(bossW, bossH);
      platforms := [Ground];
      attackCooldown := 0;
    }

    /** A mouse button press. */
    method Click(button: int)
      modifies this, boss
      ensures State() == Clicked(old(State()), button)
      ensures old(Valid()) ==> Valid()
    {
      if WorldValid(State()) {
        WorldStaysValid(State(), platforms, false, false, false, false, 0, 0, button);
      }
      if button == 1 && attackCooldown == 0 && player.health > 0 {
        attackCooldown := AttackCooldownTicks;
        var attackRect := player.rect.Inflate(ReachX, ReachY);
        if attackRect.CollideRect(boss.rect) {
          boss.health := boss.health - AttackDamage;
        }
      }
    }

    /** One tick after the frame's events, with the held keys, the random
        spin draw and the rotated boss image's size as inputs. */
    method Tick(left: bool, right: bool, jump: bool, spinRoll: bool, rotW: nat, rotH: nat)
      modifies this, player, boss
      ensures State() == Ticked(old(State()), platforms, left, right, jump, spinRoll, rotW, rotH)
      ensures old(Valid()) ==> Valid()
    {
      if WorldValid(State()) {
        WorldStaysValid(State(), platforms, left, right, jump, spinRoll, rotW, rotH, 1);
      }
      player.Update(platforms, left, right, jump);
      boss.Update(player, spinRoll, rotW, rotH);

      if attackCooldown > 0 {
        attackCooldown := attackCooldown - 1;
      }
    }
  }
}
