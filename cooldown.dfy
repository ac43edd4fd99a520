/**
 * The projectile cooldown: the `ProjectileTimer` resource and the decision
 * `shoot_projectile` takes with it (src/main.rs:104-121, created at
 * src/main.rs:174).
 *
 * Bevy's `Timer` is not part of this model. Its `TimerMode::Once` behaviour is
 * taken as an assumption: `tick(d)` sets elapsed to min(elapsed + d, duration),
 * `finished()` holds when elapsed >= duration and `reset()` sets elapsed to 0.
 */
module Cooldown {
  import opened Config

  datatype Timer = Timer(elapsed: real, duration: real) {

    predicate Valid()
    {
      0.0 <= elapsed <= duration
    }

    predicate Finished()
    {
      elapsed >= duration
    }

    function Tick(delta: real): (t: Timer)
      requires Valid() && delta >= 0.0
      ensures t.Valid() && t.duration == duration
      ensures t.Finished() <==> elapsed + delta >= duration
      ensures !t.Finished() ==> t.elapsed == elapsed + delta
    {
      Timer(if elapsed + delta < duration then elapsed + delta else duration, duration)
    }

    function Reset(): (t: Timer)
      ensures t.duration == duration && t.elapsed == 0.0
      ensures duration >= 0.0 ==> t.Valid()
    {
      this.(elapsed := 0.0)
    }
  }

  /** `Timer::from_seconds(duration, TimerMode::Once)`: nothing elapsed yet. */
  function NewTimer(duration: real): (t: Timer)
    requires duration >= 0.0
    ensures t.Valid() && t.duration == duration && t.elapsed == 0.0
  {
    Timer(0.0, duration)
  }

  /** The timer after one run of `shoot_projectile`, and whether it spawned a projectile. */
  datatype Step = Step(timer: Timer, fired: bool)

  /**
   * One run of `shoot_projectile` as far as the timer is concerned: the timer
   * ticks only while Space is held; when that tick finishes it, it is reset and
   * a projectile is fired.
   */
  function SpawnStep(t: Timer, space: bool, delta: real): (s: Step)
    requires t.Valid() && delta >= 0.0
    ensures s.timer.Valid() && s.timer.duration == t.duration
    ensures s.fired <==> space && t.elapsed + delta >= t.duration
    ensures s.fired ==> s.timer.elapsed == 0.0
    ensures space && !s.fired ==> s.timer.elapsed == t.elapsed + delta
    ensures !space ==> s.timer == t
  {
    if space then
      var ticked := t.Tick(delta);
      if ticked.Finished() then Step(ticked.Reset(), true) else Step(ticked, false)
    else
      Step(t, false)
  }

  /** Number of fixed steps in `presses` during which Space is held. */
  function HeldTicks(presses: seq<bool>): (n: nat)
    ensures n <= |presses|
  {
    if presses == [] then 0 else (if presses[0] then 1 else 0) + HeldTicks(presses[1..])
  }

  /** Final timer and number of projectiles fired over a run of fixed steps. */
  datatype Volley = Volley(timer: Timer, shots: nat)

  /** `shoot_projectile` run once per fixed step, Space held in the steps where `presses` says so. */
  function Run(t: Timer, presses: seq<bool>): (v: Volley)
    requires t.Valid()
    ensures v.timer.Valid() && v.timer.duration == t.duration
    ensures v.shots <= HeldTicks(presses)
    decreases |presses|
  {
    if presses == [] then
      Volley(t, 0)
    else
      var s := SpawnStep(t, presses[0], TIME_STEP);
      var rest := Run(s.timer, presses[1..]);
      Volley(rest.timer, rest.shots + if s.fired then 1 else 0)
  }

  /** The cooldown timer after `k` held fixed steps since its last reset. */
  function Charged(k: nat): (t: Timer)
    requires k < TICKS_PER_SHOT
    ensures t.Valid() && t.duration == PROJECTILE_COOLDOWN_SECONDS && !t.Finished()
  {
    Timer(k as real * TIME_STEP, PROJECTILE_COOLDOWN_SECONDS)
  }

  /**
   * Over any pattern of presses, only the number of held steps matters:
   * releasing Space freezes the timer and re-pressing it does not skip the
   * cooldown. From a timer charged by `k` held steps, `k + h` held steps in
   * all fire (k + h) / 18 projectiles and leave (k + h) % 18 steps of charge.
   */
  lemma {:induction false} RunCounts(k: nat, presses: seq<bool>)
    requires k < TICKS_PER_SHOT
    ensures Run(Charged(k), presses)
         == Volley(Charged((k + HeldTicks(presses)) % TICKS_PER_SHOT),
                   (k + HeldTicks(presses)) / TICKS_PER_SHOT)
    decreases |presses|
  {
    if presses != [] {
      var s := SpawnStep(Charged(k), presses[0], TIME_STEP);
      var h := HeldTicks(presses[1..]);
      if !presses[0] {
        RunCounts(k, presses[1..]);
      } else if k + 1 < TICKS_PER_SHOT {
        assert s == Step(Charged(k + 1), false);
        RunCounts(k + 1, presses[1..]);
      } else {
        assert s == Step(Charged(0), true);
        RunCounts(0, presses[1..]);
        assert k + HeldTicks(presses) == h + TICKS_PER_SHOT;
      }
    }
  }

  /**
   * From the timer `main` creates, the first projectile needs a full 0.3 s
   * (18 fixed steps) of held Space, and every further one another 18.
   */
  lemma FromStartShots(presses: seq<bool>)
    ensures Run(NewTimer(PROJECTILE_COOLDOWN_SECONDS), presses).shots
         == HeldTicks(presses) / TICKS_PER_SHOT
  {
    assert NewTimer(PROJECTILE_COOLDOWN_SECONDS) == Charged(0);
    RunCounts(0, presses);
  }

  lemma {:induction false} HeldThroughout(n: nat)
    ensures HeldTicks(seq(n, _ => true)) == n
  {
    if n > 0 {
      assert seq(n, _ => true)[1..] == seq(n - 1, _ => true);
      HeldThroughout(n - 1);
    }
  }

  /**
   * Space held for one second (60 fixed steps) from the start fires three
   * projectiles, at 0.3 s, 0.6 s and 0.9 s; there is no shot at 0 s.
   */
  lemma OneSecondOfFire()
    ensures Run(NewTimer(PROJECTILE_COOLDOWN_SECONDS), seq(60, _ => true)).shots == 3
  {
    FromStartShots(seq(60, _ => true));
    HeldThroughout(60);
  }
}
