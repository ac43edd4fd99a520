/**
 * The running game: the entity store, the id of the next entity to spawn and
 * the `ProjectileTimer` resource, changed in place by one method per system
 * (src/main.rs). Key states come in as booleans; `Time::delta` as a
 * parameter.
 */
module Game {
  import opened Config
  import opened Cooldown
  import opened Entities
  import opened Systems

  class World {
    var entities: Store
    var nextId: EntityId
    var timer: Timer

    /**
     * Every id is below `nextId`, the timer is the 0.3 s cooldown with its
     * elapsed time in [0, 0.3], every entity is `WellTagged` (the player is no
     * projectile or enemy, a projectile no collider or enemy), and there is
     * exactly one player.
     */
    ghost predicate Valid()
      reads this
    {
      && timer.Valid() && timer.duration == PROJECTILE_COOLDOWN_SECONDS
      && (forall id :: id in entities ==> id < nextId)
      && (forall id :: id in entities ==> WellTagged(entities[id]))
      && SinglePlayer(entities)
    }

    /**
     * `setup_game` and the resources `main` inserts: the paddle and the enemy
     * (the camera is presentation only), and a fresh cooldown timer.
     */
    constructor ()
      ensures Valid()
      ensures entities == map[0 := PlayerSpawn, 1 := EnemySpawn] && nextId == 2
      ensures timer == NewTimer(PROJECTILE_COOLDOWN_SECONDS)
    {
      entities := map[0 := PlayerSpawn, 1 := EnemySpawn];
      nextId := 2;
      timer := NewTimer(PROJECTILE_COOLDOWN_SECONDS);
      new;
      assert 0 in entities && entities[0].tags.player && !entities[1].tags.player;
    }

    /** `move_player`: only the player's x changes, by direction * PLAYER_SPEED * TIME_STEP. */
    method MovePlayer(left: bool, right: bool)
      requires Valid()
      modifies this
      ensures Valid()
      ensures entities == MovedPlayer(old(entities), left, right)
      ensures ThePlayer(entities) == ThePlayer(old(entities))
      ensures nextId == old(nextId) && timer == old(timer)
    {
      var p :| p in entities && entities[p].tags.player;
      var direction := 0;
      if left {
        direction := direction - 1;
      }
      if right {
        direction := direction + 1;
      }
      var e := entities[p];
      entities := entities[p := e.(translation := e.translation.(x := e.translation.x + direction as real * PLAYER_SPEED * TIME_STEP))];
      assert entities == MovedPlayer(old(entities), left, right);
      assert p in entities && entities[p].tags.player;
    }

    /**
     * `shoot_projectile`: while Space is held the timer ticks by `delta`;
     * if that finishes it, the timer is reset and one projectile is spawned at
     * the player's translation. Nothing else changes.
     */
    method ShootProjectile(space: bool, delta: real)
      requires Valid() && delta >= 0.0
      modifies this
      ensures Valid()
      ensures timer == SpawnStep(old(timer), space, delta).timer
      ensures SpawnStep(old(timer), space, delta).fired ==>
                && entities == old(entities)[old(nextId) := ProjectileAt(old(entities)[ThePlayer(old(entities))])]
                && nextId == old(nextId) + 1
      ensures !SpawnStep(old(timer), space, delta).fired ==>
                entities == old(entities) && nextId == old(nextId)
    {
      var p :| p in entities && entities[p].tags.player;
      if space {
        timer := timer.Tick(delta);
        if timer.Finished() {
          timer := timer.Reset();
          entities := entities[nextId := ProjectileAt(entities[p])];
          nextId := nextId + 1;
          assert p in entities && entities[p].tags.player;
        }
      }
    }

    /** `move_projectiles`: each projectile in turn rises by 250 * TIME_STEP. */
    method MoveProjectiles()
      requires Valid()
      modifies this
      ensures Valid()
      ensures entities == MovedProjectiles(old(entities))
      ensures nextId == old(nextId) && timer == old(timer)
    {
      var projectiles := set id | id in entities && entities[id].tags.projectile;
      var todo := projectiles;
      ghost var before := entities;
      while todo != {}
        invariant todo <= projectiles
        invariant entities.Keys == before.Keys
        invariant forall id :: id in entities ==>
                    entities[id] == if id in projectiles - todo then Rise(before[id]) else before[id]
        invariant nextId == old(nextId) && timer == old(timer)
        decreases todo
      {
        var id :| id in todo;
        var e := entities[id];
        entities := entities[id := e.(translation := e.translation.(y := e.translation.y + PROJECTILE_SCROLL_SPEED * TIME_STEP))];
        todo := todo - {id};
      }
      assert entities == MovedProjectiles(before);
      var p := ThePlayer(before);
      assert p in entities && entities[p].tags.player;
    }

    /** `destroy_projectiles`: queue the despawns, then apply them. */
    method DestroyProjectiles()
      requires Valid()
      modifies this
      ensures Valid()
      ensures entities == old(entities) - Culled(old(entities))
      ensures ThePlayer(entities) == ThePlayer(old(entities))
      ensures forall id :: id in old(entities) && old(entities)[id].tags.enemy ==> id in entities
      ensures nextId == old(nextId) && timer == old(timer)
    {
      var dead := CollectCulled(entities);
      RemovalKeepsPlayer(entities, dead);
      entities := entities - dead;
    }

    /** `check_for_collisions`: queue the despawns of every hit pair, then apply them. */
    method CheckForCollisions()
      requires Valid()
      modifies this
      ensures Valid()
      ensures entities == old(entities) - CollisionVictims(old(entities))
      ensures ThePlayer(entities) == ThePlayer(old(entities))
      ensures nextId == old(nextId) && timer == old(timer)
    {
      var dead := CollectCollisions(entities);
      CollisionSparesPlayer(entities);
      RemovalKeepsPlayer(entities, dead);
      entities := entities - dead;
    }
  }
}
