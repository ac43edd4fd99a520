/**
 * What each of the shooter's systems does to the entity store, as functions
 * of the store before the system runs, together with the passes that collect
 * despawn commands (`destroy_projectiles`, `check_for_collisions`) as loops
 * over the store, proved to collect exactly the specified sets.
 */
module Systems {
  import opened Geometry
  import opened Config
  import opened Entities

  // ---------------------------------------------------------------------------
  // move_player (src/main.rs:77-92)
  // ---------------------------------------------------------------------------

  /** Left subtracts one and Right adds one, so holding both cancels out. */
  function Direction(left: bool, right: bool): (d: int)
    ensures -1 <= d <= 1
    ensures d == 0 <==> left == right
    ensures d == 1 <==> right && !left
    ensures d == -1 <==> left && !right
  {
    (if left then -1 else 0) + (if right then 1 else 0)
  }

  /** The player's transform after one fixed step of `move_player`. */
  function Steer(e: Entity, left: bool, right: bool): Entity
  {
    e.(translation := e.translation.(x := e.translation.x + Direction(left, right) as real * PLAYER_SPEED * TIME_STEP))
  }

  /**
   * The store after `move_player`: every `Player` moves sideways by
   * direction * 100 / 60; nothing else changes. (With one player, as the
   * system demands, that one entity is the only one that moves.)
   */
  function MovedPlayer(es: Store, left: bool, right: bool): (r: Store)
    ensures r.Keys == es.Keys
    ensures forall id :: id in es && !es[id].tags.player ==> r[id] == es[id]
    ensures forall id :: id in es && es[id].tags.player ==>
              && r[id].tags == es[id].tags && r[id].scale == es[id].scale
              && r[id].translation.y == es[id].translation.y
              && r[id].translation.x == es[id].translation.x + Direction(left, right) as real * 100.0 / 60.0
  {
    map id | id in es :: if es[id].tags.player then Steer(es[id], left, right) else es[id]
  }

  /** With both arrows held, or neither, `move_player` changes nothing. */
  lemma ArrowsCancel(es: Store, left: bool, right: bool)
    requires left == right
    ensures MovedPlayer(es, left, right) == es
  {
  }

  datatype Arrows = Arrows(left: bool, right: bool)

  /** The player after `move_player` has run once per fixed step with the given arrow keys. */
  function SteerAll(e: Entity, keys: seq<Arrows>): Entity
    decreases |keys|
  {
    if keys == [] then e else SteerAll(Steer(e, keys[0].left, keys[0].right), keys[1..])
  }

  /** Sum of the directions over the fixed steps. */
  function NetDirection(keys: seq<Arrows>): (n: int)
    ensures -|keys| <= n <= |keys|
  {
    if keys == [] then 0 else Direction(keys[0].left, keys[0].right) + NetDirection(keys[1..])
  }

  /**
   * Over many fixed steps the player moves by the net direction times
   * PLAYER_SPEED * TIME_STEP, in x only; no input at all leaves it in place.
   */
  lemma {:induction false} SteerAllShifts(e: Entity, keys: seq<Arrows>)
    ensures SteerAll(e, keys)
         == e.(translation := e.translation.(x := e.translation.x + NetDirection(keys) as real * PLAYER_SPEED * TIME_STEP))
    decreases |keys|
  {
    if keys != [] {
      SteerAllShifts(Steer(e, keys[0].left, keys[0].right), keys[1..]);
    }
  }

  /** Right held for 60 fixed steps (one second) moves the player exactly 100 units right. */
  lemma OneSecondRight(e: Entity)
    ensures SteerAll(e, seq(60, _ => Arrows(false, true))).translation.x == e.translation.x + 100.0
  {
    SteerAllShifts(e, seq(60, _ => Arrows(false, true)));
    HeldRightNet(60);
  }

  lemma {:induction false} HeldRightNet(n: nat)
    ensures NetDirection(seq(n, _ => Arrows(false, true))) == n
  {
    if n > 0 {
      assert seq(n, _ => Arrows(false, true))[1..] == seq(n - 1, _ => Arrows(false, true));
      HeldRightNet(n - 1);
    }
  }

  // ---------------------------------------------------------------------------
  // move_projectiles (src/main.rs:124-129)
  // ---------------------------------------------------------------------------

  /** One fixed step of `move_projectiles` for one projectile; its `Velocity` is not read. */
  function Rise(e: Entity): Entity
  {
    e.(translation := e.translation.(y := e.translation.y + PROJECTILE_SCROLL_SPEED * TIME_STEP))
  }

  /**
   * The store after `move_projectiles`: every `Projectile` rises by exactly
   * 250 / 60 = 25 / 6 units; x, scale and tags stay, and every other entity
   * is untouched.
   */
  function MovedProjectiles(es: Store): (r: Store)
    ensures r.Keys == es.Keys
    ensures forall id :: id in es ==>
              && r[id].tags == es[id].tags && r[id].scale == es[id].scale
              && r[id].translation.x == es[id].translation.x
              && r[id].translation.y == es[id].translation.y + (if es[id].tags.projectile then 25.0 / 6.0 else 0.0)
  {
    map id | id in es :: if es[id].tags.projectile then Rise(es[id]) else es[id]
  }

  // ---------------------------------------------------------------------------
  // destroy_projectiles (src/main.rs:131-140)
  // ---------------------------------------------------------------------------

  /** The entities `destroy_projectiles` despawns: projectiles strictly above the top. */
  ghost function Culled(es: Store): (dead: set<EntityId>)
  {
    set id | id in es && es[id].tags.projectile && es[id].translation.y > TOP_OF_SCREEN
  }

  /**
   * The pass of `destroy_projectiles` over the projectile query, one entity at
   * a time, queueing a despawn for each one above the top.
   */
  method CollectCulled(es: Store) returns (dead: set<EntityId>)
    ensures dead == Culled(es)
  {
    var projectiles := set id | id in es && es[id].tags.projectile;
    var todo := projectiles;
    dead := {};
    while todo != {}
      invariant todo <= projectiles
      invariant dead == set id | id in projectiles - todo && es[id].translation.y > TOP_OF_SCREEN
      decreases todo
    {
      var id :| id in todo;
      if es[id].translation.y > TOP_OF_SCREEN {
        dead := dead + {id};
      }
      todo := todo - {id};
    }
  }

  /** Only the height decides: a projectile at exactly 350 stays and one at 360 goes. */
  lemma CullBoundary(a: Entity, b: Entity)
    requires a.tags.projectile && a.translation.y == 350.0
    requires b.tags.projectile && b.translation.y == 360.0
    ensures Culled(map[0 := a, 1 := b]) == {1}
  {
  }

  // ---------------------------------------------------------------------------
  // check_for_collisions (src/main.rs:142-169)
  // ---------------------------------------------------------------------------

  /** Projectile `p` hits `c`: `c` is a `Collider` with `Enemy` and their boxes overlap. */
  predicate Hit(es: Store, p: EntityId, c: EntityId)
  {
    && p in es && c in es
    && es[p].tags.projectile && IsTarget(es[c])
    && Overlap(es[p], es[c])
  }

  /**
   * The entities one collision pass despawns, all judged on the store as it
   * was before the pass: every enemy overlapping some projectile and every
   * projectile overlapping some enemy.
   */
  ghost function CollisionVictims(es: Store): (dead: set<EntityId>)
    ensures dead <= es.Keys
    ensures forall id :: id in dead ==> IsTarget(es[id]) || es[id].tags.projectile
  {
    (set c | c in es && exists p :: Hit(es, p, c)) + (set p | p in es && exists c :: Hit(es, p, c))
  }

  /** The despawns queued once the projectiles in `ps` have been scanned. */
  ghost function VictimsOf(es: Store, ps: set<EntityId>): set<EntityId>
  {
    (set c | c in es && exists p :: p in ps && Hit(es, p, c)) + (set p | p in ps && exists c :: Hit(es, p, c))
  }

  /** The despawns queued while projectile `p` is tested against the colliders in `cs`. */
  ghost function HitsOf(es: Store, p: EntityId, cs: set<EntityId>): set<EntityId>
  {
    (set c | c in cs && Hit(es, p, c)) + (if exists c :: c in cs && Hit(es, p, c) then {p} else {})
  }

  lemma HitsOfGrow(es: Store, p: EntityId, cs: set<EntityId>, c: EntityId)
    ensures HitsOf(es, p, cs + {c}) == HitsOf(es, p, cs) + (if Hit(es, p, c) then {c, p} else {})
  {
  }

  lemma VictimsOfGrow(es: Store, ps: set<EntityId>, p: EntityId, cs: set<EntityId>)
    requires forall c :: c in es && es[c].tags.collider ==> c in cs
    ensures VictimsOf(es, ps + {p}) == VictimsOf(es, ps) + HitsOf(es, p, cs)
  {
    forall x | x in VictimsOf(es, ps + {p})
      ensures x in VictimsOf(es, ps) + HitsOf(es, p, cs)
    {
      if x in es && exists q :: q in ps + {p} && Hit(es, q, x) {
        var q :| q in ps + {p} && Hit(es, q, x);
        if q == p { assert x in cs; }
      } else {
        var c :| Hit(es, x, c);
        if x == p { assert c in cs; }
      }
    }
  }

  lemma VictimsOfAll(es: Store, projectiles: set<EntityId>)
    requires forall id :: id in es && es[id].tags.projectile <==> id in projectiles
    ensures VictimsOf(es, projectiles) == CollisionVictims(es)
  {
  }

  /**
   * The inner loop of `check_for_collisions`: projectile `p` against each
   * collider in turn, queueing the despawn of both when the boxes overlap
   * and the collider is an enemy.
   */
  method ScanColliders(es: Store, p: EntityId, colliders: set<EntityId>) returns (queued: set<EntityId>)
    requires p in es && es[p].tags.projectile
    requires forall c :: c in colliders ==> c in es && es[c].tags.collider
    ensures forall c :: c in colliders && c != p ==> (c in queued <==> IsTarget(es[c]) && Overlap(es[p], es[c]))
    ensures p in queued <==> exists c :: c in colliders && IsTarget(es[c]) && Overlap(es[p], es[c])
    ensures queued <= colliders + {p}
    ensures queued == HitsOf(es, p, colliders)
  {
    var rest := colliders;
    queued := {};
    while rest != {}
      invariant rest <= colliders
      invariant queued == HitsOf(es, p, colliders - rest)
      decreases rest
    {
      var c :| c in rest;
      HitsOfGrow(es, p, colliders - rest, c);
      assert colliders - (rest - {c}) == (colliders - rest) + {c};
      if Overlap(es[p], es[c]) {
        if es[c].tags.enemy {
          queued := queued + {c, p};
        }
      }
      rest := rest - {c};
    }
    assert forall c :: c in colliders && IsTarget(es[c]) && Overlap(es[p], es[c]) ==> Hit(es, p, c);
  }

  /**
   * The nested loops of `check_for_collisions`: every projectile against every
   * collider. Despawns are only queued, so every test sees the store as it
   * was before the pass, and since the loops may visit the entities in any
   * order, the result does not depend on iteration order.
   */
  method CollectCollisions(es: Store) returns (dead: set<EntityId>)
    ensures dead == CollisionVictims(es)
  {
    var projectiles := set id | id in es && es[id].tags.projectile;
    var colliders := set id | id in es && es[id].tags.collider;
    var todo := projectiles;
    dead := {};
    while todo != {}
      invariant todo <= projectiles
      invariant dead == VictimsOf(es, projectiles - todo)
      decreases todo
    {
      var p :| p in todo;
      var queued := ScanColliders(es, p, colliders);
      VictimsOfGrow(es, projectiles - todo, p, colliders);
      assert projectiles - (todo - {p}) == (projectiles - todo) + {p};
      dead := dead + queued;
      todo := todo - {p};
    }
    VictimsOfAll(es, projectiles);
  }

  /**
   * A collision pass never despawns a player: only enemies and projectiles
   * are despawned, so a `Collider` without `Enemy` (the paddle) that overlaps
   * a projectile causes nothing.
   */
  lemma CollisionSparesPlayer(es: Store)
    requires forall id :: id in es ==> WellTagged(es[id])
    ensures forall id :: id in CollisionVictims(es) ==> id in es && !es[id].tags.player
  {
  }

  /**
   * Projectiles are never tested against each other: without an enemy in the
   * store, a collision pass despawns nothing, however the projectiles overlap.
   */
  lemma NoEnemyNoVictims(es: Store)
    requires forall id :: id in es ==> !IsTarget(es[id])
    ensures CollisionVictims(es) == {}
  {
  }

  /**
   * In a well-tagged store a projectile is despawned by a collision pass only
   * for overlapping an enemy collider: overlapping other projectiles, however
   * many, does not remove it.
   */
  lemma ProjectilesNeverHitEachOther(es: Store, p: EntityId)
    requires forall id :: id in es ==> WellTagged(es[id])
    requires p in es && es[p].tags.projectile
    requires forall c :: c in es && IsTarget(es[c]) ==> !Overlap(es[p], es[c])
    ensures p !in CollisionVictims(es)
  {
  }

  /**
   * After a pass no remaining projectile overlaps a remaining enemy, so a
   * second pass over the same positions despawns nothing.
   */
  lemma SecondPassFindsNothing(es: Store)
    ensures CollisionVictims(es - CollisionVictims(es)) == {}
  {
    var rest := es - CollisionVictims(es);
    forall p, c | Hit(rest, p, c)
      ensures false
    {
      assert Hit(es, p, c);
    }
  }

  /** A projectile on the enemy of `setup_game` destroys it and is destroyed; the player stays. */
  lemma ProjectileMeetsEnemy()
    ensures CollisionVictims(map[0 := PlayerSpawn, 1 := EnemySpawn,
                                 2 := ProjectileAt(EnemySpawn)]) == {1, 2}
  {
    var es := map[0 := PlayerSpawn, 1 := EnemySpawn, 2 := ProjectileAt(EnemySpawn)];
    assert Hit(es, 2, 1);
    assert !Hit(es, 2, 0);
  }

  /**
   * Despawns are deferred, so one projectile overlapping two enemies destroys
   * both of them and itself.
   */
  lemma ProjectileBetweenTwoEnemies()
    ensures CollisionVictims(map[0 := ProjectileAt(EnemySpawn),
                                 1 := EnemySpawn,
                                 2 := EnemySpawn.(translation := Vec2(4.0, 20.0))]) == {0, 1, 2}
  {
    var es := map[0 := ProjectileAt(EnemySpawn), 1 := EnemySpawn,
                  2 := EnemySpawn.(translation := Vec2(4.0, 20.0))];
    assert Hit(es, 0, 1);
    assert Hit(es, 0, 2);
  }

  /**
   * A projectile just fired sits on the paddle, a `Collider`, and overlaps it,
   * yet the pass despawns nothing because the paddle is not an `Enemy`.
   */
  lemma FreshShotSparesPaddle()
    ensures Overlap(ProjectileAt(PlayerSpawn), PlayerSpawn)
    ensures CollisionVictims(map[0 := PlayerSpawn, 1 := EnemySpawn,
                                 2 := ProjectileAt(PlayerSpawn)]) == {}
  {
  }
}
