/** The values the game engine works on: physics bodies, the keys of the
    entities dictionary, collision pairs and the events the engine dispatches.

    A Matter.js body is an object whose identity matters (the merge step looks
    up which entity owns a given body); here every body lives in an arena
    `map<BodyId, Body>` and its identity is its BodyId. Bodies removed from the
    game stay in the arena, as removed JavaScript objects stay reachable from
    the collision pairs that still name them. */
module Entities {
  import opened Options
  import Fruits

  type BodyId = nat

  /** A key of the entities dictionary: a fixed name ("floor", "leftWall",
      "rightWall") or `fruit_${Date.now()}_${Math.random()}`, which is kept as
      the two numbers it is printed from. */
  datatype Key = Named(name: string) | Generated(now: int, draw: real)

  datatype Vec = Vec(x: real, y: real)

  const Origin: Vec := Vec(0.0, 0.0)

  /** The label a body is created with. */
  datatype Label = Fruit | Wall | Floor

  /** The fields of a Matter.js body that the engine reads or writes, with
      the three flags the game attaches to it (`tag` is the body's `label`,
      a reserved word here). A body that never had a flag set reads it as
      false, as `undefined` is falsy. */
  datatype Body = Body(
    tag: Label,
    fruitIndex: int,
    position: Vec,
    circleRadius: real,
    velocity: Vec,
    speed: real,
    angularVelocity: real,
    isStatic: bool,
    isSpawning: bool,
    isMerged: bool)

  /** The y of a body's top edge (y grows downwards). */
  function Top(b: Body): real { b.position.y - b.circleRadius }

  /** Two bodies reported touching by the collisionStart handler. */
  datatype Pair = Pair(bodyA: BodyId, bodyB: BodyId)

  /** The events of the game loop: ADD_BODY goes from the component to the
      tick system; the others go from the tick system to the component's
      onEvent, and "started" from the game loop itself. */
  datatype GameEvent =
    | AddBody(id: Key, body: BodyId)
    | ScoreUpdate(score: int, index: int)
    | PlaySound(name: string)
    | GameOver
    | Started

  /** No body is owned by two keys. */
  ghost predicate Injective(entities: map<Key, BodyId>)
  {
    forall k1, k2 :: k1 in entities && k2 in entities && k1 != k2 ==> entities[k1] != entities[k2]
  }

  /** The key whose entity holds the body, if any (the source's
      `Object.keys(entities).find(k => entities[k].body === body)`). */
  function Owner(entities: map<Key, BodyId>, id: BodyId): (o: Option<Key>)
    requires Injective(entities)
    ensures o.Some? <==> id in entities.Values
    ensures o.Some? ==> o.value in entities && entities[o.value] == id
  {
    if exists k :: k in entities && entities[k] == id then
      Some(var k :| k in entities && entities[k] == id; k)
    else
      None
  }

  /** The mutable world the tick system works on: the body arena, the
      entities dictionary (the entries that hold a body), the set of bodies
      in the Matter.js world, and the next unused body identity. */
  datatype Scene = Scene(
    bodies: map<BodyId, Body>,
    entities: map<Key, BodyId>,
    world: set<BodyId>,
    nextId: nat)

  /** What holds of every scene the engine reaches: the arena is in order,
      every entity holds a body of the arena, no body is held
      twice, a body held by an entity has not been merged away, and the world holds only arena bodies. */
  ghost predicate SceneOk(s: Scene)
  {
    && ArenaOk(s)
    && (forall k :: k in s.entities ==> s.entities[k] in s.bodies)
    && Injective(s.entities)
    && (forall k :: k in s.entities ==> !s.bodies[s.entities[k]].isMerged)
    && s.world <= s.bodies.Keys
  }

  /** The part of SceneOk about the arena alone: identities are below
      nextId and every fruit has a rank of the table. */
  ghost predicate ArenaOk(s: Scene)
  {
    forall id :: id in s.bodies ==>
      id < s.nextId && (s.bodies[id].tag == Fruit ==> Fruits.IsRank(s.bodies[id].fruitIndex))
  }
}
