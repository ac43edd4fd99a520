/**
 * The shooter's tuning constants (src/main.rs:25-36 and the fixed-step
 * configuration in `main`). Colours and the unread projectile velocity
 * constants are not part of the model.
 */
module Config {
  import opened Geometry

  /** Scale of the player's sprite. */
  const PADDLE_SIZE: Vec2 := Vec2(120.0, 20.0)
  /** Length of one fixed step in seconds; also the `Time<Fixed>` period set in `main`. */
  const TIME_STEP: real := 1.0 / 60.0
  /** Horizontal speed of the player in units per second. */
  const PLAYER_SPEED: real := 100.0
  /** Scale of a spawned projectile. */
  const PROJECTILE_SIZE: Vec2 := Vec2(3.0, 3.0)
  const PLAYER_STARTING_POSITION: Vec2 := Vec2(0.0, -300.0)
  /** Projectiles strictly above this height are despawned. */
  const TOP_OF_SCREEN: real := 350.0
  /** Duration of the `ProjectileTimer`, created in `TimerMode::Once`. */
  const PROJECTILE_COOLDOWN_SECONDS: real := 0.3
  /** Where `setup_game` places the enemy. */
  const PROJECTILE_STARTING_POSITION: Vec2 := Vec2(0.0, 20.0)
  /** The literal rise per second applied by `move_projectiles`. */
  const PROJECTILE_SCROLL_SPEED: real := 250.0

  /** Number of fixed steps of held fire that fill the cooldown. */
  const TICKS_PER_SHOT: nat := 18

  lemma TicksPerShotFillCooldown()
    ensures TICKS_PER_SHOT as real * TIME_STEP == PROJECTILE_COOLDOWN_SECONDS
    ensures (TICKS_PER_SHOT - 1) as real * TIME_STEP < PROJECTILE_COOLDOWN_SECONDS
  {
  }
}
