/**
 * The entity store of the shooter: an entity is an id with a record of the
 * marker components it carries (`Player`, `Collider`, `Enemy`, `Projectile`,
 * `Velocity`) and the x/y part of its `Transform` (translation and scale).
 * The z components only order sprites on screen and are not modelled.
 */
module Entities {
  import opened Geometry
  import opened Config

  type EntityId = nat

  /** Which marker components an entity carries. */
  datatype Tags = Tags(player: bool, collider: bool, enemy: bool, projectile: bool, velocity: bool)

  datatype Entity = Entity(tags: Tags, translation: Vec2, scale: Vec2)

  type Store = map<EntityId, Entity>

  /** The paddle spawned by `setup_game`: `Player` and `Collider`. */
  const PlayerSpawn: Entity :=
    Entity(Tags(true, true, false, false, false), PLAYER_STARTING_POSITION, PADDLE_SIZE)

  /** The single enemy spawned by `setup_game`: `Enemy` and `Collider`, twice the projectile size. */
  const EnemySpawn: Entity :=
    Entity(Tags(false, true, true, false, false), PROJECTILE_STARTING_POSITION,
           Vec2(PROJECTILE_SIZE.x * 2.0, PROJECTILE_SIZE.y * 2.0))

  /**
   * The entity `shoot_projectile` spawns: `Projectile` and `Velocity` (no
   * `Collider`), at the player's translation, with scale `PROJECTILE_SIZE`.
   */
  function ProjectileAt(player: Entity): (p: Entity)
    ensures p.tags.projectile && !p.tags.collider && !p.tags.enemy && !p.tags.player
    ensures p.translation == player.translation && p.scale == PROJECTILE_SIZE
  {
    Entity(Tags(false, false, false, true, true), player.translation, PROJECTILE_SIZE)
  }

  /** The boxes of two entities' transforms overlap. */
  predicate Overlap(a: Entity, b: Entity)
  {
    TransformsOverlap(a.translation, a.scale, b.translation, b.scale)
  }

  /** An entity the collision pass can destroy as a target: it has `Collider` and `Enemy`. */
  predicate IsTarget(e: Entity)
  {
    e.tags.collider && e.tags.enemy
  }

  /** The store holds exactly one `Player`, as `Query::single_mut` demands. */
  ghost predicate SinglePlayer(es: Store)
  {
    exists p :: p in es && es[p].tags.player && forall q :: q in es && es[q].tags.player ==> q == p
  }

  /** The id of the one `Player`. */
  ghost function ThePlayer(es: Store): (p: EntityId)
    requires SinglePlayer(es)
    ensures p in es && es[p].tags.player
    ensures forall q :: q in es && es[q].tags.player ==> q == p
  {
    var p :| p in es && es[p].tags.player && forall q :: q in es && es[q].tags.player ==> q == p;
    p
  }

  /**
   * The component combinations the game creates: a player is never also a
   * projectile or an enemy, and a projectile is never a collider or an enemy.
   */
  predicate WellTagged(e: Entity)
  {
    && (e.tags.player ==> !e.tags.projectile && !e.tags.enemy)
    && (e.tags.projectile ==> !e.tags.collider && !e.tags.enemy)
  }

  /**
   * Despawning entities none of which is the player keeps exactly one player,
   * the same one.
   */
  lemma RemovalKeepsPlayer(es: Store, dead: set<EntityId>)
    requires SinglePlayer(es)
    requires forall id :: id in dead && id in es ==> !es[id].tags.player
    ensures SinglePlayer(es - dead) && ThePlayer(es - dead) == ThePlayer(es)
  {
    var p := ThePlayer(es);
    assert p in es - dead;
  }
}
