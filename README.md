# Galagish simulation core in Dafny

A model of the game logic of a one-file Bevy shooter (`src/main.rs`). The
player's paddle moves sideways under the arrow keys, Space fires projectiles
gated by a 0.3 s cooldown timer, projectiles rise at a fixed rate and are
despawned above the top of the playfield, and a collision pass tests every
projectile's box against every collider's box, despawning a projectile and an
enemy that overlap.

Modules, leaves first:

- `Geometry` (geometry.dfy): 2D vectors, Bevy's `Aabb2d` and its closed-interval
  overlap test, and the box of a transform (centre = translation, half size =
  scale / 2).
- `Config` (config.dfy): the constants of src/main.rs:25-36 and the fixed step.
- `Cooldown` (cooldown.dfy): the `ProjectileTimer` resource and the decision
  `shoot_projectile` takes with it, plus what many fixed steps of it do.
- `Entities` (entities.dfy): the entity record (marker components plus the x/y
  part of the transform), the entities `setup_game` and `shoot_projectile`
  create, and the "exactly one player" invariant.
- `Systems` (systems.dfy): for each system, a function giving its effect on the
  store; the despawn-collecting passes of `destroy_projectiles` and
  `check_for_collisions` as loops proved to collect exactly those sets; and
  lemmas about them.
- `Game` (world.dfy): class `World` holding the entity map, the next entity id
  and the timer, with one method per system that updates them in place.

Despawns go through Bevy's deferred `Commands`, so both despawning systems are
modelled as a pass that collects a set of ids from the store as it stands,
followed by removal of that set. Spawns go through the same `Commands`; each
`World` method applies its own queued spawns and despawns when it ends, which
stands for the schedule's synchronisation point. A collision pass is therefore judged entirely
on the store before the pass, and its result is one set, whatever the order of
iteration. One consequence: a projectile that overlaps two enemies destroys
both of them in one pass (`Systems.ProjectileBetweenTwoEnemies`), although the
comment at src/main.rs:163 says despawning the projectile is meant to stop it
from cutting through a line of enemies. Only a line whose enemies overlap the
projectile in the same frame is cut through at once, so the model keeps the
behaviour as written.

The cooldown timer is created in `TimerMode::Once` with nothing elapsed, and it
is ticked only inside the Space branch. So the first shot comes after 18 held
fixed steps (0.3 s), not at the moment Space is first pressed, and one second
of held Space fires three projectiles, at 0.3, 0.6 and 0.9 s
(`Cooldown.OneSecondOfFire`). Releasing Space freezes the timer: over any
pattern of presses only the number of held steps counts
(`Cooldown.RunCounts`).

Assumptions about code that is not part of this model:

- Bevy's `Timer` in `Once` mode: `tick(d)` sets elapsed to
  min(elapsed + d, duration), `finished()` holds when elapsed >= duration and
  `reset()` sets elapsed to 0.
- Bevy's `Aabb2d::intersects`: the two boxes' closed intervals overlap on both
  axes, so touching boxes intersect.
- `Query::single_mut` panics unless exactly one entity matches; `move_player`
  and `shoot_projectile` therefore require exactly one player, and
  `Game.World.Valid` keeps that true across every system, together with the
  component combinations the game creates (a player is no projectile or
  enemy; a projectile is no collider or enemy).
- Entity ids are fresh natural numbers handed out by a counter.
- `Time::delta` in the fixed schedule is a non-negative parameter; the
  multi-step lemmas use `TIME_STEP`.

## Model

| member | source | states |
|---|---|---|
| `Geometry.FromCenter` | src/main.rs:149-156 | the box spans twice the half size on each axis and its midpoint is the given centre |
| `Geometry.TransformsOverlap` | src/main.rs:149-157 | two transforms' boxes intersect iff on each axis the centres are no further apart than the sum of the half sizes (scale / 2), touching included |
| `Geometry.OverlapSymmetric` | src/main.rs:149-157 | the overlap test does not depend on which box is the projectile |
| `Config.TicksPerShotFillCooldown` | src/main.rs:27-35 | 18 fixed steps of 1/60 s make exactly the 0.3 s cooldown and 17 do not |
| `Cooldown.Timer.Tick` | src/main.rs:106 | ticking keeps elapsed in [0, duration], finishes the timer iff elapsed + delta reaches the duration, and otherwise adds delta exactly |
| `Cooldown.Timer.Reset` | src/main.rs:107 | reset sets elapsed to 0 and keeps the duration |
| `Cooldown.NewTimer` | src/main.rs:174 | the timer `main` inserts starts with nothing elapsed |
| `Cooldown.SpawnStep` | src/main.rs:105-108 | a shot fires iff Space is held and elapsed + delta reaches the duration; firing resets elapsed to 0; without Space the timer is unchanged; held without firing adds delta |
| `Cooldown.Run` | src/main.rs:105-121 | over a run of fixed steps the number of shots never exceeds the number of steps with Space held |
| `Cooldown.RunCounts` | src/main.rs:105-108 | from a timer charged by k held steps, any press pattern with h held steps fires (k + h) / 18 shots and leaves (k + h) % 18 steps of charge |
| `Cooldown.FromStartShots` | src/main.rs:174 | from the initial timer, h held steps fire exactly h / 18 projectiles, so the first needs a full 0.3 s of holding |
| `Cooldown.OneSecondOfFire` | src/main.rs:105-107 | 60 held fixed steps from the start fire exactly 3 projectiles |
| `Entities.ProjectileAt` | src/main.rs:109-119 | a spawned projectile carries `Projectile` but no `Collider`, `Enemy` or `Player`, sits at the player's translation and has scale `PROJECTILE_SIZE` |
| `Entities.ThePlayer` | src/main.rs:78 | `single_mut` yields the one entity tagged `Player` |
| `Entities.RemovalKeepsPlayer` | src/main.rs:135-137 | despawning a set that holds no player leaves exactly one player, the same one |
| `Systems.Direction` | src/main.rs:79-88 | the direction is in {-1, 0, 1}; it is 0 iff both or neither arrow is held, 1 iff only Right, -1 iff only Left |
| `Systems.MovedPlayer` | src/main.rs:77-92 | `move_player` keeps the same ids, moves each player's x by direction * 100 / 60, keeps its y, scale and tags, and leaves every other entity untouched |
| `Systems.ArrowsCancel` | src/main.rs:81-91 | with both arrows held, or none, `move_player` leaves the store unchanged |
| `Systems.SteerAllShifts` | src/main.rs:90-91 | after any sequence of fixed steps the paddle has moved by the net direction times PLAYER_SPEED * TIME_STEP, in x only |
| `Systems.OneSecondRight` | src/main.rs:90-91 | Right held for 60 fixed steps moves the paddle exactly 100 units right |
| `Systems.MovedProjectiles` | src/main.rs:124-129 | `move_projectiles` keeps the same ids and raises each projectile's y by exactly 25/6 (250 * TIME_STEP), ignoring its velocity; x, scale, tags and all other entities stay |
| `Systems.CollectCulled` | src/main.rs:131-140 | the pass queues exactly the projectiles whose y is strictly above 350, and nothing else |
| `Systems.CullBoundary` | src/main.rs:136 | a projectile at y = 350 survives the cull and one at y = 360 is despawned |
| `Systems.CollisionVictims` | src/main.rs:158-165 | a collision pass despawns only entities of the store that are enemy colliders or projectiles |
| `Systems.ScanColliders` | src/main.rs:148-167 | testing one projectile against the colliders queues each other collider iff it is an enemy whose box overlaps the projectile's, and the projectile itself iff some such collider exists |
| `Systems.CollectCollisions` | src/main.rs:142-169 | the nested pass queues exactly the enemy colliders overlapping some projectile and the projectiles overlapping some enemy collider, judged on the store before the pass and in any iteration order; nothing else is queued |
| `Systems.CollisionSparesPlayer` | src/main.rs:158-166 | a collision pass never despawns the player: an overlapping `Collider` without `Enemy` causes nothing |
| `Systems.NoEnemyNoVictims` | src/main.rs:144-145 | without an enemy collider nothing is despawned, so overlapping projectiles never remove each other |
| `Systems.ProjectilesNeverHitEachOther` | src/main.rs:144-145 | in a store where projectiles carry no `Collider` or `Enemy`, a projectile that overlaps no enemy collider survives a collision pass, whatever other projectiles it overlaps |
| `Systems.SecondPassFindsNothing` | src/main.rs:147-168 | after a collision pass no remaining projectile overlaps a remaining enemy |
| `Systems.ProjectileMeetsEnemy` | src/main.rs:158-165 | a projectile on the enemy of `setup_game` despawns exactly that enemy and itself, not the paddle |
| `Systems.ProjectileBetweenTwoEnemies` | src/main.rs:161-164 | one projectile overlapping two enemies despawns all three |
| `Systems.FreshShotSparesPaddle` | src/main.rs:158-166 | a projectile just fired overlaps the paddle, yet the initial world loses nothing in a collision pass |
| `Game.World.constructor` | src/main.rs:38-73 | the world starts with the paddle at (0, -300) and the enemy at (0, 20), ids 0 and 1, and a fresh 0.3 s timer, and is valid |
| `Game.World.MovePlayer` | src/main.rs:77-92 | the store becomes `MovedPlayer` of the old store; timer and ids unchanged; the one player stays the same entity |
| `Game.World.ShootProjectile` | src/main.rs:95-122 | the timer follows `SpawnStep`; when it fires, exactly one projectile is added at the player's translation under a fresh id; otherwise the store is unchanged |
| `Game.World.MoveProjectiles` | src/main.rs:124-129 | the store becomes `MovedProjectiles` of the old store; timer and ids unchanged |
| `Game.World.DestroyProjectiles` | src/main.rs:131-140 | the store loses exactly the culled projectiles and nothing else changes; the player and every enemy stay |
| `Game.World.CheckForCollisions` | src/main.rs:142-169 | the store loses exactly the collision victims and nothing else changes; the player stays |

## Left out

- Rendering and assets: the camera, sprites, meshes, materials and colours (`PADDLE_COLOR`, `PROJECTILE_COLOR`); the camera entity is not in the store.
- Logging with `println!` and the `close_on_esc` window system.
- Keyboard decoding: Left, Right and Space reach the systems as booleans.
- The z components of translation and scale: they only order sprites on screen.
- The value of `Velocity` (`INITIAL_PROJECTILE_DIRECTION.normalize() * PROJECTILE_SPEED`): no system reads it, and its normalisation is irrational; the model keeps only the fact that the component is present.
- f32 rounding: coordinates and times are exact reals, so 60 steps of 1/60 s move the paddle exactly 100 units. The 18-step shot period sits exactly on the `>=` boundary of the timer (18 * 1/60 = 0.3); in the source both durations come from f32 constants converted to `Duration`, so the step on which the first shot fires depends on that conversion's rounding (round-to-nearest also gives step 18, truncation would give step 19).
- Bevy's scheduler: the fixed-step systems are not chained, so their relative order is not fixed, and `check_for_collisions` runs at frame cadence in `Update`. Each system is its own method and nothing is proved that depends on an order between them, such as a culled projectile never reaching a collision pass.
- Despawning an entity that is already queued for despawn: Bevy only warns, and the model's despawn set absorbs the repeat.
- Bevy's `Timer` and `Aabb2d` implementations: replaced by the assumptions stated above.
