# A verified model of a Bevy arcade shooter's bookkeeping

The game is a small 2D shooter built on the Bevy engine. The player's ship
moves along the bottom of the window and fires pairs of lasers upward.
Enemies enter in formations that are handed out two at a time, and they fire
back. This project models the discrete bookkeeping of the game's three source
files in Dafny and proves properties of it:

- **Formation maker** (`src/enemy.rs`). The `FormationMaker` resource keeps a
  group counter, the current formation and how many enemies have received it.
  `make` starts a new formation with the next group id when the batch of two
  is full or nothing exists yet. Otherwise it hands out the current formation
  again.
- **Spawn gate and enemy lasers** (`src/enemy.rs`). An enemy spawns only
  while fewer than 5 are counted live. Each enemy fires one laser 15 units
  below itself. Enemy lasers move down and are culled 50 units below the
  bottom edge.
- **Player** (`src/player.rs`). `PlayerStatte` has `shot` and `spawned`
  latches and a respawn delay of 2 seconds. Movement is bounded by
  `width/2 - 144/4`. The `PlayerReadyFire` latch fires two lasers per press
  and re-arms on release. Player lasers move up and are culled above the
  window height.
- **Collisions and explosions** (`src/main.rs`). In the player-laser pass,
  each enemy is despawned, counted down and exploded at most once, guarded by
  the `enemies_blasted` set. In the enemy-laser pass, every hit on the single
  player ship marks it shot. Each explosion marker becomes one explosion. An
  explosion steps through the 4 by 4 = 16 textures of its atlas and is
  despawned when the index reaches 16.

Every moving entity has `Speed::default()` = 500 (`Common.DefaultSpeed`). All
motion integrates with the fixed step `TIME_PER_FRAME` = 1/60
(`Common.TimePerFrame`).

## Layout

- `common.dfy`, module `Common`: the items `src/main.rs` shares with the other
  files (window size, speed, frame step), a `u32` subset type, and the
  move-then-cull pass that both laser systems follow.
- `enemy.dfy`, module `Enemy`: `src/enemy.rs`. `Formation` and `Enemy` are
  datatypes. `FormationMaker` is a class whose `Make` method updates its three
  fields. `MakeStep` is the same step written on values; lemmas about runs of
  `make` calls are stated over it.
- `player.dfy`, module `Player`: `src/player.rs`. `PlayerState` is a class
  (the `PlayerStatte` resource). `PlayerShip` is a class holding the player
  entity's translation and its `PlayerReadyFire` flag.
- `game.dfy`, module `Game`: the systems of `src/main.rs`.

Inputs from the engine become parameters:

- `thread_rng` draws are a `Draw` value. Its range predicate `DrawInRange` is
  required only when `make` actually samples it.
- Keyboard state is booleans.
- `time.seconds_since_startup()` is a real `now`.
- A timer having finished is a boolean per explosion.
- Bevy's `collide` is a relation passed in over query positions:
  `(laser index, enemy index)` for the player-laser pass, and a laser index
  for the enemy-laser pass.

Entities are identified by their position in the query being iterated.

## Model

| member | source | states |
|---|---|---|
| `Common.MoveAndCull` | src/enemy.rs:144-149 | one laser pass: every survivor is a moved input laser and none of them is `gone` |
| `Common.MoveAndCullKeeps` | src/player.rs:152-157 | a laser is kept after the pass exactly when its moved position is not off-screen |
| `Common.MoveAndCullAppend` | src/enemy.rs:144-149 | the pass preserves relative order: over `a + b` it is the pass over `a` followed by the pass over `b` |
| `Common.Where` | src/main.rs:141-153 | exactly the indices below `n` that satisfy the predicate, in increasing (visiting) order |
| `Enemy.NewFormation` | src/enemy.rs:36-52 | given draws in the `gen_range` ranges (`DrawInRange`, src/enemy.rs:39-46), a new formation: `start.x` is the width if the coin is true, else the height; `start.y` in [-(h/2-100), h/2-100); centre in [-w/4, w/4) x [0, h/2-100); `radius = (r, 100)` with r in [80, 150), so both radii are positive; the given group id |
| `Enemy.MakeStep` | src/enemy.rs:33-63 | with no current formation or a full batch (`NeedsNew`, src/enemy.rs:34): `group_seq` + 1, returned id = new `group_seq`, members = 1, current = the returned formation. Otherwise: members + 1, `group_seq` unchanged, returns the stored formation. Always afterwards 1 <= members <= 2 and a current formation exists. The maker invariant is preserved |
| `Enemy.FormationMaker.constructor` | src/enemy.rs:25-30 | `FormationMaker::default()`: `group_seq` 0, no formation, 0 members |
| `Enemy.FormationMaker.Make` | src/enemy.rs:33-63 | the in-place `make` leaves the fields and returns the formation exactly as `MakeStep` describes |
| `Enemy.IssuedIdsClosedForm` | src/enemy.rs:34-61 | from any reachable state with a current formation, the i-th id of a run of `make` calls is `group_seq + (i + members) / 2` |
| `Enemy.IssuedIdsFromDefault` | src/enemy.rs:25-61 | from the default maker, the i-th id handed out is `i / 2 + 1` |
| `Enemy.IssuedIdsBatches` | src/enemy.rs:34-61 | from the default maker, ids start at 1, each id equals the previous one or the previous one plus 1, and no id is handed out more than `MAX_FORMATION_MEMBERS` = 2 times in a row |
| `Enemy.EnemySpawn` | src/enemy.rs:86-111 | below 5 live enemies: `make` is called once, one enemy is spawned at `formation.start` with the default speed, and the counter goes up by 1. Otherwise the counter and the maker are unchanged and nothing spawns. A counter at most 5 stays at most 5 |
| `Enemy.SpawnTicksFromEmpty` | src/enemy.rs:93-110 | six spawn ticks from zero enemies give counts 1, 2, 3, 4, 5, 5; the five spawned enemies carry group ids 1, 1, 2, 2, 3 |
| `Enemy.EnemyFire` | src/enemy.rs:114-137 | exactly one enemy laser per enemy, in order, at (x, y - 15) with the default speed |
| `Enemy.EnemyLaserStep` | src/enemy.rs:145 | an enemy laser moves strictly down exactly when its speed is positive |
| `Enemy.EnemyLaserMovement` | src/enemy.rs:139-150 | the result is the move-and-cull pass with y lowered by speed·TIME_PER_FRAME and removal when the new y < -h/2 - 50 (`BelowScreen`, src/enemy.rs:146); every survivor is at or above that bound |
| `Player.PlayerState.constructor` | src/player.rs:19-26 | `PlayerStatte::default()`: `on` false, `last_shot` 0 |
| `Player.PlayerState.Shot` | src/player.rs:29-32 | `on` becomes false and `last_shot` the given time; nothing else changes |
| `Player.PlayerState.Spawned` | src/player.rs:34-37 | `on` becomes true and `last_shot` 0; nothing else changes |
| `Player.PlayerShip.constructor` | src/player.rs:71-83 | a new ship sits at x = 0, y = -h/2 + 75/4 + 5, ready to fire, with the window size |
| `Player.PlayerSpawn` | src/player.rs:58-86 | spawns exactly when `!on && (last_shot == 0 || now > last_shot + 2)` (`RespawnAdmitted`, src/player.rs:70). After a spawn `on` holds and `last_shot` is 0. While `on` holds nothing spawns; without a spawn the state is unchanged |
| `Player.RespawnCycle` | src/player.rs:28-86 | from the default state, the first spawn succeeds and an immediate second one does not. After `shot(t)`, a spawn at `now` succeeds iff t = 0 or now > t + 2 |
| `Player.Movement` | src/player.rs:94-102 | the frame's displacement is negative iff Left is held, and positive iff Right is held without Left |
| `Player.MovedX` | src/player.rs:102-107 | the move is applied iff x + movement lies in [-limit, limit], otherwise x is unchanged; abs(x) <= limit is preserved |
| `Player.PlayerShip.Move` | src/player.rs:102-107 | the ship's x becomes `MovedX` of its old x with limit `width/2 - 144/4` (`Limit`, src/player.rs:103); nothing else changes |
| `Player.PlayerMovement` | src/player.rs:89-109 | with exactly one ship, that ship's x moves as `PlayerShip.Move` says; otherwise no x changes. Only the ships' x may change: y and the fire flag are kept |
| `Player.FiredLasers` | src/player.rs:119-136 | two lasers at (x + (144/4 - 5), y + 15) and (x - (144/4 - 5), y + 15), both at the default speed |
| `Player.FireLatch` | src/player.rs:118-143 | fires iff ready and Space is pressed; the flag afterwards is true iff Space was just released, or it was ready and Space was not pressed |
| `Player.PlayerShip.Fire` | src/player.rs:118-143 | lasers are produced and `ready` updated as `FireLatch` says; when lasers are produced they are `FiredLasers` of the ship's position |
| `Player.PlayerFire` | src/player.rs:111-145 | with exactly one ship, that ship fires as `PlayerShip.Fire` says, from its unchanged position; otherwise no laser and no flag changes. Only the ships' fire flag may change |
| `Player.HeldSpaceFiresOnce` | src/player.rs:118-143 | over frames with no release of Space, an armed ship fires at most once (exactly once if Space is held in the first frame) and a disarmed ship never fires |
| `Player.PlayerLaserStep` | src/player.rs:153 | a player laser moves strictly up exactly when its speed is positive |
| `Player.PlayerLaserMovement` | src/player.rs:147-158 | the result is the move-and-cull pass with y raised by speed·TIME_PER_FRAME and removal when the new y > height (`AboveScreen`, src/player.rs:154); every survivor is at or below the height |
| `Game.BlastEnemy` | src/main.rs:113-123 | blasting a not-yet-blasted enemy appends it to the despawn list and the set, queues one explosion at its position and decrements the counter by 1 |
| `Game.LaserBlastsInOrder` | src/main.rs:101-124 | what one laser blasts (`LaserBlasts`) is exactly the enemies it hits that are not yet in `enemies_blasted`, in increasing enemy order |
| `Game.LaserMeetsEnemy` | src/main.rs:112-126 | one laser against one enemy: on a collision with an enemy not in the set, exactly that enemy is appended to the despawn list and the set, its explosion is appended, and the counter drops by 1, while the counter keeps covering the rest of the pass's hits; otherwise nothing but `hit` changes. `hit` becomes true iff this pair collides or it already was |
| `Game.BlastWithLaser` | src/main.rs:101-128 | one laser against every enemy: the blasted set gains exactly the enemies this laser hits, and the despawn list grows by exactly `LaserBlasts` of them, in enemy order; earlier explosions are kept. The counter drops by the number of newly blasted enemies. The laser is despawned iff it hits some enemy |
| `Game.LaserPass` | src/main.rs:100-128 | one laser of the pass keeps the pass invariant: the set is the enemies the lasers so far hit, the despawn list is the start of `BlastOrder` up to this laser, the counter is down by one per blasted enemy, and the despawned lasers are those so far that hit something |
| `Game.PlayerLaserHitEnemy` | src/main.rs:93-130 | the blasted enemies are exactly those some laser hits, each listed once. The counter drops by exactly their number. Explosion k sits at blasted enemy k. The despawned lasers are exactly those hitting some enemy, including lasers whose enemy was already blasted. The despawn list is exactly `BlastOrder`: laser by laser, each laser's new hits in enemy order |
| `Game.CrossedHitsOrder` | src/main.rs:100-124 | enemies are despawned in first-hit order, not enemy order: when laser 0 hits only enemy 1 and laser 1 hits only enemy 0, the despawn list is [1, 0] |
| `Game.EnemyLaserHitPlayer` | src/main.rs:132-155 | nothing happens unless exactly one ship exists. Otherwise each colliding laser is despawned in visiting order with one explosion at the ship's position. The ship is despawned iff some laser hit it, and then the state is shot at `now`; otherwise the state is unchanged |
| `Game.ExplosionToSpawn` | src/main.rs:157-177 | one explosion per marker, at the marker's position, starting at texture 0 |
| `Game.AnimateOne` | src/main.rs:191-199 | the index advances by 1 iff the timer finished. The explosion is despawned iff the advanced index equals the atlas's 16 textures. An index below 16 stays below 16 |
| `Game.AnimatedSurvivors` | src/main.rs:191-199 | the explosions left after one frame, in order; never more than went in |
| `Game.AnimatedSurvivorsKeeps` | src/main.rs:193-198 | an explosion that `AnimateOne` keeps (its timer did not finish, or the advanced index is not 16) is among the survivors of the frame, so only explosions whose advanced index reaches 16 on a finished timer are despawned |
| `Game.AnimatedSurvivorsFrom` | src/main.rs:191-199 | every survivor is `AnimateOne` of some input explosion and its timer, so nothing survives that `AnimateOne` did not produce |
| `Game.AnimatedSurvivorsAppend` | src/main.rs:191-199 | the frame keeps order: over `a + b` it is the frame over `a` followed by the frame over `b` |
| `Game.AnimatedSurvivorsInAtlas` | src/main.rs:193-198 | a frame of animation keeps every surviving explosion's index below the atlas size |
| `Game.AnimateExplosion` | src/main.rs:179-201 | the explosions kept are those of `AnimateOne` over all explosions, in order |
| `Game.ExplosionLifetime` | src/main.rs:191-199 | an explosion at index k < 16 shows index k + n after n finished timers, and is despawned on the finished timer that would reach 16 |

## Left out

- `enemy_movment` (src/enemy.rs:153-188): the elliptical path solver works in floating point with `cos`, `sin`, `sqrt`, `min` and `max`. It is not modelled, so neither the no-overshoot rule nor the angle-commit threshold is.
- The phase angle of a new formation is an `atan2` of its start and centre (src/enemy.rs:47). Here it is a free real in `Draw`, so the model admits angles the game would not compute.
- Floating point: `f32`/`f64` values are exact reals. Rounding of `TIME_PER_FRAME` and of the positions is not captured.
- Randomness (`thread_rng`, `gen_range`, `gen::<bool>`) is a `Draw` parameter. The start height and the orbit centre are drawn from the half-open ranges of `gen_range` (src/enemy.rs:41-46), and `DrawInRange` states those half-open bounds. The model does not capture `gen_range` panicking on an empty range. Instead, `DrawInRange` can only hold for a window taller than 200 and of positive width.
- Scheduling: `FixedTimestep` (every 1.0 s, 0.9 s and 0.5 s), `Timer` and `Time` are not modelled. Each system is one call, and a timer's `finished()` is a boolean input.
- `Commands` are deferred: despawns take effect only after a stage. The collision passes return what they despawn and what they queue, and never remove anything themselves. The laser and explosion passes return the entities remaining after the despawns.
- Game.PlayerLaserHitEnemy: a laser that hits several enemies gets one despawn command per hit. The model returns the set of despawned lasers, so the commands repeated for the same laser are not counted.
- Game.EnemyLaserHitPlayer: the player-despawn command and the `shot` call repeat for every hitting laser. The model returns a single flag; the explosions are still listed one per hit.
- Bevy's `collide_aabb::collide` is not modelled. It is a relation passed in, so sprite sizes, scales (including the mirrored enemy laser scale at src/enemy.rs:127) and the `abs()` of scales are not modelled.
- Entity ids, the z layer of translations, materials, sprite sheets, the camera, window setup, plugins, `setup` and `main` are engine plumbing. `Speed` components never change, so enemies and lasers carry a plain speed value, and the ship's speed is the constant `DefaultSpeed`.
- Game.PlayerLaserHitEnemy: `active_enemies.0 -= 1` is an unguarded `u32` subtraction (src/main.rs:116); the model makes no-underflow a precondition: the counter must be at least the number of enemies the pass hits. This holds in the game because the counter counts every live enemy and is incremented as soon as a spawn is queued. The model does not capture wrap-around or a panic on underflow.
- Enemy.FormationMaker.Make: `group_seq += 1` is a `u32` addition. The model requires it not to overflow, where Rust would panic (debug) or wrap (release). `Enemy.IssuedIds` bounds the length of a run accordingly.
- Game.AnimateOne: the sprite index is an unbounded natural number, not a wrapping `u32`. From index 0 it never exceeds 16 (`Game.ExplosionLifetime`).
- `Formation` derives `Default`, and nothing uses that default.
