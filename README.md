# Boss-fight combat core in Dafny

This project models the tick-based combat state machine of a small pygame
action game (`main.py`): a player who runs, jumps and dodge-rolls on a
platform, a boss that walks toward the player and periodically spins, and
the melee attack the game loop resolves on a mouse click.

- `geometry.dfy` (module `Geometry`): the integer rectangle `Rect` with the
  pygame `Rect` members the game uses: `right`, `bottom`, `centerx`, the edge
  setters, `inflate`, `get_rect(center=...)` and `colliderect`. pygame is not
  part of this model. These members state its behaviour as assumptions:
  edges and centres use integer division by 2, and `colliderect` means that
  both rectangles have positive area and their interiors overlap (pygame 2).
  `Trunc` is Python's `int()` on a float, rounding toward zero.
- `player.dfy` (module `PlayerEntity`): the class `Player`, with one field
  per attribute the game updates. `PlayerState` holds the values of those
  fields. Each method is specified by a function on `PlayerState`:
  `TakeDamage` by `Damaged`, `StartRoll` by `Rolled`, `Collide` by
  `Collided` and `Update` by `Updated`. `Updated` is built from `Steered`,
  `ShiftedX`, `Collided`, `ShiftedY` and `Decayed`. The lemmas state what
  the game promises about these functions.
- `boss.dfy` (module `BossEntity`): the class `Boss` and `BossState`.
  `BossUpdated` specifies `Boss.Update`. It is built from `Approached`,
  `Triggered`, `Spun` and `Settled`, and it returns the player's state too,
  because the boss damages the player through `take_damage`.
- `combat.dfy` (module `Combat`): the class `Game`, which owns the session's
  player, boss, platform list and the module-level `attack_cooldown`.
  `Game.Click` models the mouse-button handler and `Game.Tick` models the
  end of each frame: `player.update`, `boss.update` and the cooldown
  decrement. They are specified by `Clicked` and `Ticked` on `World`.

External inputs are parameters:
- the held keys `left`, `right` and `jump`;
- `spinRoll`, which stands for `random.randint(0, 180) == 1`;
- `rotW` and `rotH`, the size of the image that `pygame.transform.rotate`
  returns. The model re-centres the boss's rectangle on that size with
  `get_rect(center=...)` semantics, so "rotation keeps the centre" is proved
  (`Geometry.Centered`), not assumed;
- the sprite sizes at construction, which are the loaded image's size or
  the fallback surface's size.

Velocities are Dafny `real`, and positions change by `Trunc` of the
velocity.

Four points where the code behaves differently from what a reader might expect:
- Spin damage and passive contact damage are not two branches of an
  if/else. Both checks run in a spinning tick. What keeps them from both
  landing is `take_damage`: a landed hit sets the invincibility timer to 60,
  or the player is dead by then (`BossEntity.AtMostOneHit`).
- Boss health is not clamped. The melee hit subtracts 25 unconditionally
  (`main.py:242`), so the boss's health can go below 0. No lower bound is
  stated for it; only that a dead boss is inert.
- After a spin ends the boss keeps the rectangle of its last rotated image.
  `main.py:191` resets only the image, and the model keeps the rectangle.
- A player standing still on the platform is on the ground only every
  other tick. Gravity gives `vel_y` 0.8, `int(0.8)` is 0, and a rectangle
  that only shares an edge with the platform does not collide, so the tick
  ends with `on_ground` false; the next tick moves the player 1 pixel down
  and lands it again. A jump pressed only on such an off tick does nothing
  (`PlayerEntity.StandingFlickers`).

## Model

| member | source | states |
|---|---|---|
| `Geometry.Rect.SetRight` | main.py:108 | `rect.right = v` puts the right edge at v and changes nothing else |
| `Geometry.Rect.SetLeft` | main.py:110 | `rect.left = v` puts the left edge at v and changes nothing else |
| `Geometry.Rect.SetBottom` | main.py:115 | `rect.bottom = v` puts the bottom edge at v and keeps x and size (also used for line 196) |
| `Geometry.Rect.SetTop` | main.py:118 | `rect.top = v` puts the top edge at v and keeps x and size |
| `Geometry.Rect.Inflate` | main.py:240 | `inflate(dx, dy)` grows the size by exactly dx and dy, contains the original rectangle, and keeps the centre for even margins |
| `Geometry.Centered` | main.py:183-185 | `get_rect(center=c)` for the rotated image has exactly centre c and the image's size |
| `Geometry.Trunc` | main.py:82-85 | `int(v)` rounds toward zero: same sign as v, and less than 1 closer to zero than v |
| `Geometry.Rect.CollideRect` | main.py:104 | definition of strict positive-area overlap; its properties are stated by `CollideSymmetric` and `InflateKeepsCollision` |
| `Geometry.CollideSymmetric` | main.py:104 | `colliderect` is symmetric |
| `Geometry.InflateKeepsCollision` | main.py:240-241 | anything the player's rectangle touches, the inflated attack rectangle touches |
| `PlayerEntity.Damaged` | main.py:121-126 | `take_damage` changes only health and the invincibility timer, and non-negative damage never raises health or takes it below 0; the gate is stated by `DamageGate` and `DamageOncePerWindow` |
| `PlayerEntity.DamageGate` | main.py:121-126 | damage lands iff the invincibility timer is 0 and health > 0; it removes exactly min(amount, health) and sets the timer to 60; otherwise nothing changes |
| `PlayerEntity.DamageOncePerWindow` | main.py:121-126 | a second `take_damage` right after a first one, landed or not, changes nothing |
| `PlayerEntity.DamagePreservesValid` | main.py:121-126 | with a non-negative amount, health stays in [0, 100] and the timers stay in range |
| `PlayerEntity.Rolled` | main.py:95-100 | `start_roll` changes only the roll state and the invincibility timer; the gate and the values are stated by `RollGate` |
| `PlayerEntity.RollGate` | main.py:95-100 | `start_roll` changes something only if the cooldown is 0 and no roll is under way; then it sets rolling, roll time 12, cooldown 40, invincibility 15 and changes no other field; a repeated call is a no-op |
| `PlayerEntity.RollPreservesValid` | main.py:95-100 | `start_roll` keeps the player's invariant |
| `PlayerEntity.Bump` | main.py:104-119 | one iteration of the collision loop keeps the rectangle's size and changes only the rectangle, the velocities and `on_ground`; see `BumpAtRest` and `CollidedResolves` |
| `PlayerEntity.Collided` | main.py:102-119 | a whole collision pass keeps the rectangle's size and changes only the rectangle, the velocities and `on_ground`; what it does to them is stated by `CollidedIsFirstHit` and `CollidedResolves` |
| `PlayerEntity.FirstHit` | main.py:103-104 | the index of the first platform the rectangle collides with; none before it collides |
| `PlayerEntity.BumpAtRest` | main.py:104-119 | a colliding platform met with the axis velocity already 0 changes nothing |
| `PlayerEntity.CollidedIsFirstHit` | main.py:102-119 | a collision pass over the list acts exactly as the first colliding platform alone would |
| `PlayerEntity.CollidedResolves` | main.py:102-119 | after a pass, if no platform was hit nothing changes; if some platform was hit the axis velocity is 0; moving right or down clamps the right or bottom edge to the platform's left or top edge; moving left or up clamps the left or top edge to its right or bottom edge; the rectangle then no longer overlaps that platform; size is kept; `on_ground` is set only by a downward hit; no other field changes |
| `PlayerEntity.Steered` | main.py:60-80 | the key, friction, gravity, jump and roll statements do not move the rectangle or touch `on_ground`, health or the decaying timers, and keep the facing of a rolling player; see `RollOverridesKeys` and `JumpGate` |
| `PlayerEntity.ShiftedX` | main.py:82 | `rect.x += int(vel_x)` changes only x |
| `PlayerEntity.ShiftedY` | main.py:85-86 | `rect.y += int(vel_y)` changes only y, and `on_ground` is reset to false |
| `PlayerEntity.Decayed` | main.py:89-93 | the timer decay changes only the invincibility timer and the roll cooldown, never raises them and never takes them below 0; see `TimersDecay` |
| `PlayerEntity.Updated` | main.py:56-93 | an update never changes health or the rectangle's size; its other properties are stated by `UpdateDeadInert`, `RollProgress`, `TimersDecay`, `OnGroundAfterUpdate` and `UpdatePreservesValid` |
| `PlayerEntity.UpdateDeadInert` | main.py:57-58 | `update` on a player with health <= 0 changes nothing |
| `PlayerEntity.RollOverridesKeys` | main.py:62-77 | while rolling, keys change neither `facing` nor `vel_x`, and `vel_x` is facing * 12 before the move |
| `PlayerEntity.UpdateRollingIgnoresKeys` | main.py:56-93 | a whole update of a rolling player does not depend on the held keys |
| `PlayerEntity.JumpGate` | main.py:71-74 | `vel_y` becomes the jump power -12 iff jump is held, the player is on the ground and not rolling; otherwise gravity adds 0.8 |
| `PlayerEntity.KeysAccelerate` | main.py:62-70 | a player who is not rolling gains -0.8 for left and +0.8 for right before friction 0.85, faces right when right is held, left when only left is held, and keeps its roll state |
| `PlayerEntity.MoveWithoutHit` | main.py:82-87 | when the horizontal pass hits nothing x moves by exactly `int(vel_x)`; when the vertical pass hits nothing y moves by exactly `int(vel_y)` from where the horizontal pass left it |
| `PlayerEntity.RollProgress` | main.py:76-80 | each update of a rolling player lowers roll time by 1 and ends the roll once it reaches 0; a player who is not rolling keeps its roll time and does not start rolling |
| `PlayerEntity.TimersDecay` | main.py:89-93 | invincibility and roll cooldown each drop by exactly 1 per update while positive; health is unchanged |
| `PlayerEntity.OnGroundAfterUpdate` | main.py:82-87 | after an update `on_ground` is true iff the vertical pass hit a platform while moving down; the rectangle keeps its size |
| `PlayerEntity.UpdatePreservesValid` | main.py:56-93 | `update` keeps health in [0, 100], timers within their ranges and never negative, and rolling only with roll time left |
| `PlayerEntity.JumpFromGround` | main.py:71-87 | a still player standing on the level's platform who jumps ends the tick with `vel_y` = -12, off the ground, 12 pixels higher |
| `PlayerEntity.StandingFlickers` | main.py:71-87 | a still player standing on the platform ends the next tick off the ground with `vel_y` 0.8 and unmoved, and the tick after lands again 1 pixel lower and back on 640, whether jump is held or not |
| `PlayerEntity.Spawned` | main.py:34-54 | the initial player satisfies the invariant, with centerx 200, bottom 640, health 100, invincibility timer and roll cooldown 0, not rolling, facing 1 |
| `PlayerEntity.Player.constructor` | main.py:24-54 | the new player's fields equal `Spawned` |
| `PlayerEntity.Player.TakeDamage` | main.py:121-126 | the new state is `Damaged` of the old one; a gated call leaves the object unchanged; non-negative damage keeps `Valid()` |
| `PlayerEntity.Player.StartRoll` | main.py:95-100 | the new state is `Rolled` of the old one; a gated call leaves the object unchanged; `Valid()` is kept |
| `PlayerEntity.Player.Collide` | main.py:102-119 | the `for` loop over the platforms leaves exactly the state `Collided` computes |
| `PlayerEntity.Player.Steer` | main.py:60-80 | the key, friction, gravity, jump and roll statements leave exactly the state `Steered` computes |
| `PlayerEntity.Player.Update` | main.py:56-93 | the new state is `Updated` of the old one; a dead player's object is unchanged; `Valid()` is kept |
| `BossEntity.Approached` | main.py:172-175 | the walking step keeps y and size and moves x by at most 2; see `ApproachClosesGap` |
| `BossEntity.Triggered` | main.py:177-179 | the spin trigger changes only the timers, and only when the cooldown is <= 0 and the draw hits; see `SpinTimers` |
| `BossEntity.Spun` | main.py:181-186 | a spinning tick keeps health and cooldown and the rectangle's centre; see `SpinTimers` and `SpinStaysCentred` |
| `BossEntity.Settled` | main.py:193-196 | the end of a tick puts the bottom edge on 640, keeps x, size, health, angle and duration |
| `BossEntity.BossUpdated` | main.py:167-199 | a boss update never changes boss health, never raises player health, and changes only the player's health and invincibility timer; see `AtMostOneHit`, `BossHitsVulnerable` and the lemmas below |
| `BossEntity.ApproachClosesGap` | main.py:171-175 | the approach moves exactly 2 toward the player iff the centre gap exceeds 5, closing the gap by exactly 2; it keeps y and size |
| `BossEntity.BossDeadInert` | main.py:168-169 | a boss with health <= 0 changes neither itself nor the player |
| `BossEntity.BossPinned` | main.py:196 | after an update the boss's bottom edge is at 640; its health is unchanged and the player is not moved |
| `BossEntity.BossWalks` | main.py:171-180 | with no spin under way or starting, the boss's only move is the approach step |
| `BossEntity.SpinStartsWhereWalked` | main.py:171-186 | on a tick that starts with no spin under way, also one that starts a spin, the boss's horizontal centre ends where the approach step put it |
| `BossEntity.SpinTimers` | main.py:177-194 | a spin starts only when the cooldown is <= 0 and the draw hits, with duration 60 and cooldown 180 (59 and 179 after the tick); each spinning tick adds 25 to the angle and lowers the duration by 1; the cooldown drops by 1 while positive |
| `BossEntity.SpinStaysCentred` | main.py:181-186 | a spinning boss keeps its horizontal centre and takes the rotated image's size |
| `BossEntity.AtMostOneHit` | main.py:188-199 | in one boss update the player loses 0, min(30, health) or min(5, health), and only health and the invincibility timer can change |
| `BossEntity.BossHitsVulnerable` | main.py:188-199 | against a living, non-invincible player the spin hit lands when the rotated rectangle touches (it is checked first and wins), otherwise the contact hit lands when the settled rectangle touches, each taking min(damage, health) and setting the timer to 60; with no touch the player is unchanged |
| `BossEntity.ProtectedPlayerUntouched` | main.py:188-199 | a player with a running invincibility timer, or a dead player, is not changed by the boss |
| `BossEntity.BossPreservesValid` | main.py:167-199 | a boss update keeps both timers in range and the cooldown ahead of the spin, so a spin never restarts mid-spin; the player's invariant is kept |
| `BossEntity.BossSpawned` | main.py:157-165 | the initial boss stands on the ground line centred at 1000 with health 400, angle 0, spin duration 0 and spin cooldown 120 |
| `BossEntity.Boss.constructor` | main.py:147-165 | the new boss's fields equal `BossSpawned` |
| `BossEntity.Boss.Approach` | main.py:172-175 | the walking step leaves the boss as `Approached` computes and changes no other field |
| `BossEntity.Boss.Spin` | main.py:181-191 | the spinning branch leaves the boss as `Spun` computes, and damages the player by 30 exactly when spinning and touching |
| `BossEntity.Boss.Settle` | main.py:193-199 | the cooldown decay and the pin to the ground line leave the boss as `Settled` computes, and the player takes 5 exactly when the settled boss touches it |
| `BossEntity.Boss.Update` | main.py:167-199 | the boss's and the player's new states are those `BossUpdated` computes; a dead boss changes nothing; the boss's and the player's invariants are kept |
| `Combat.Clicked` | main.py:237-242 | a click changes only boss health and the cooldown, and never raises boss health; see `ClickGate`, `ClickOnce` and `ClickDuringCooldown` |
| `Combat.Ticked` | main.py:247-251 | a tick leaves boss health as it is and never raises player health; see `TickCooldown`, `TickDeadInert` and `WorldStaysValid` |
| `Combat.ClickGate` | main.py:237-242 | an attack acts iff button 1, `attack_cooldown == 0` and player health > 0; it sets the cooldown to 15 and lowers boss health by exactly 25 iff the inflated player rectangle collides with the boss; nothing else changes |
| `Combat.ClickOnce` | main.py:237-239 | repeating the same click straight away changes nothing |
| `Combat.ClickDuringCooldown` | main.py:238 | while `attack_cooldown` is positive, a click of any button changes nothing |
| `Combat.TouchingIsInReach` | main.py:240-242 | a player the boss touches (the test of line 198) always lands the hit |
| `Combat.TickCooldown` | main.py:250-251 | `attack_cooldown` drops by 1 per tick while positive and never goes below 0 |
| `Combat.TickDeadInert` | main.py:247-248 | a dead player stays frozen through a tick, and a dead boss is unchanged by it |
| `Combat.WorldStaysValid` | main.py:228-251 | ticks and clicks keep player health in [0, 100], boss health at most 400 and every timer in range |
| `Combat.BossHealthNeverRises` | main.py:159-160 | a tick leaves boss health unchanged and a click never raises it, so health stays at most its starting 400 |
| `Combat.Game.constructor` | main.py:219-225 | the session starts with the spawned player and boss, the single platform (0, 640, 1280, 80) and cooldown 0 |
| `Combat.Game.Click` | main.py:237-242 | the click handler leaves exactly the state `Clicked` computes and keeps `Valid()` |
| `Combat.Game.Tick` | main.py:247-251 | player update, boss update and cooldown decrement leave exactly the state `Ticked` computes and keep `Valid()` |

## Left out

- Window, clock, event polling, caption and `pygame.quit` (main.py:4-12, 228-233, 244-245, 269-272): these are I/O and the driver loop. The click handler and the tick are methods that a driver would call. The KEYDOWN dispatch to `start_roll` (lines 233-235) is part of event polling; `Player.StartRoll` models its effect.
- Image loading with fallback surfaces, the platform's fill, all drawing, the health bars and their float ratios, the blink condition and the death text (main.py:18-20, 27-32, 128-142, 149-156, 191, 201-215, 253-267): rendering and asset I/O. They have no effect on the modelled state. The sprite sizes enter as constructor parameters.
- IEEE float rounding of `vel_x` and `vel_y`: velocities are exact reals, so nothing is claimed about float rounding.
- The internals of `pygame.transform.rotate`: the rotated image's size is an input.
- `random.randint`: replaced by the boolean `spinRoll`.
- pygame's C `int` range for rectangle coordinates: coordinates here are unbounded integers.
- `Player.Steer`, `Boss.Approach`, `Boss.Spin` and `Boss.Settle`: the statements of lines 60-80, 172-175, 181-191 and 193-199 sit inline in `update` in the source. The model puts them in helper methods so that each proof stays small. The order of execution is unchanged.
