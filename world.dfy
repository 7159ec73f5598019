/** The first two stages of the tick as functions of the scene: registering
    the ADD_BODY events of the frame, and the fixed steps of the physics
    engine with the collisionStart handler that feeds the merge queue.

    Matter.Engine.update is not modelled: each fixed step is an outcome
    supplied from outside, saying where the moving bodies went and which
    pairs of bodies started touching. */
module World {
  import opened Entities

  /** Where one body ends a fixed step. */
  datatype Motion = Motion(position: Vec, velocity: Vec, speed: real)

  /** What one Matter.Engine.update reports: the new motion of the bodies it
      moved, and the pairs of its collisionStart event. */
  datatype StepOutcome = StepOutcome(motion: map<BodyId, Motion>, pairs: seq<Pair>)

  // ---------------------------------------------------------------- ADD_BODY

  /** The bodies the ADD_BODY events of a frame hand over. */
  function Handed(events: seq<GameEvent>): set<BodyId>
  {
    set i | 0 <= i < |events| && events[i].AddBody? :: events[i].body
  }

  /** The events a frame may carry when it starts: every handed body is in
      the arena, held by no entity, not merged, and handed only once. */
  ghost predicate PendingOk(s: Scene, events: seq<GameEvent>)
  {
    && (forall i :: 0 <= i < |events| && events[i].AddBody? ==>
          && events[i].body in s.bodies
          && events[i].body !in s.entities.Values
          && !s.bodies[events[i].body].isMerged)
    && (forall i, j :: 0 <= i < j < |events| && events[i].AddBody? && events[j].AddBody? ==>
          events[i].body != events[j].body)
  }

  /** Some ADD_BODY event of the frame stores a body under key k. */
  predicate Names(events: seq<GameEvent>, k: Key)
  {
    exists i :: 0 <= i < |events| && events[i].AddBody? && events[i].id == k
  }

  /** The registration loop: each ADD_BODY stores its body under its key, in
      order, so a later event for the same key wins; other events are
      ignored. */
  function Register(s: Scene, events: seq<GameEvent>): (r: Scene)
    ensures r.bodies == s.bodies && r.world == s.world && r.nextId == s.nextId
    ensures forall k :: k in r.entities ==> r.entities[k] in s.entities.Values || r.entities[k] in Handed(events)
    ensures forall k :: k in s.entities && !Names(events, k) ==> k in r.entities && r.entities[k] == s.entities[k]
    ensures forall i :: 0 <= i < |events| && events[i].AddBody? && !Names(events[i + 1..], events[i].id) ==>
      events[i].id in r.entities && r.entities[events[i].id] == events[i].body
    decreases |events|
  {
    if events == [] then s
    else
      var init := events[..|events| - 1];
      var before := Register(s, init);
      forall i | 0 <= i < |init| ensures init[i] == events[i] { }
      assert forall k :: Names(events, k) == (Names(init, k) || (events[|events| - 1].AddBody? && events[|events| - 1].id == k));
      assert Handed(events[..|events| - 1]) <= Handed(events) by {
        forall id | id in Handed(events[..|events| - 1]) ensures id in Handed(events) {
          var i :| 0 <= i < |events| - 1 && events[..|events| - 1][i].AddBody?
            && events[..|events| - 1][i].body == id;
          assert events[i] == events[..|events| - 1][i];
        }
      }
      match events[|events| - 1]
      case AddBody(k, id) => before.(entities := before.entities[k := id])
      case _ => before
  }

  /** Registration only adds keys: every earlier key stays, every ADD_BODY
      key is present, and no other key appears. */
  lemma {:induction false} RegisterKeys(s: Scene, events: seq<GameEvent>)
    ensures forall k :: k in s.entities ==> k in Register(s, events).entities
    ensures forall i :: 0 <= i < |events| && events[i].AddBody? ==> events[i].id in Register(s, events).entities
    ensures forall k :: k in Register(s, events).entities ==>
      k in s.entities || exists i :: 0 <= i < |events| && events[i].AddBody? && events[i].id == k
    decreases |events|
  {
    if events != [] {
      var init := events[..|events| - 1];
      RegisterKeys(s, init);
      forall i | 0 <= i < |init| ensures init[i] == events[i] { }
    }
  }

  /** Registering the frame's events keeps the scene's invariants: each
      handed body is new to the entities and handed once, so no body ends up
      held twice. */
  lemma {:induction false} RegisterKeepsSceneOk(s: Scene, events: seq<GameEvent>)
    requires SceneOk(s) && PendingOk(s, events)
    ensures SceneOk(Register(s, events))
    decreases |events|
  {
    if events != [] {
      var init := events[..|events| - 1];
      assert PendingOk(s, init);
      RegisterKeepsSceneOk(s, init);
      var before := Register(s, init);
      var e := events[|events| - 1];
      if e.AddBody? {
        forall i | 0 <= i < |init| && init[i].AddBody?
          ensures init[i].body != e.body
        {
          assert events[i] == init[i];
        }
        assert e.body !in before.entities.Values;
        var r := Register(s, events);
        assert r.entities == before.entities[e.id := e.body];
      }
    }
  }

  // ------------------------------------------------------------ fixed steps

  /** A body as a step leaves it: only its position, velocity and speed. */
  function Move(b: Body, m: Motion): (r: Body)
    ensures r.position == m.position && r.velocity == m.velocity && r.speed == m.speed
    ensures r.(position := b.position, velocity := b.velocity, speed := b.speed) == b
  {
    b.(position := m.position, velocity := m.velocity, speed := m.speed)
  }

  /** r differs from s at most in where its bodies are and how they move:
      the same arena, entities, world and next identity, and every body with
      its label, rank, radius and flags. */
  predicate SameShape(s: Scene, r: Scene)
  {
    && r.entities == s.entities && r.world == s.world && r.nextId == s.nextId
    && r.bodies.Keys == s.bodies.Keys
    && forall id :: id in s.bodies ==>
         && r.bodies[id].tag == s.bodies[id].tag
         && r.bodies[id].fruitIndex == s.bodies[id].fruitIndex
         && r.bodies[id].circleRadius == s.bodies[id].circleRadius
         && r.bodies[id].isStatic == s.bodies[id].isStatic
         && r.bodies[id].isSpawning == s.bodies[id].isSpawning
         && r.bodies[id].isMerged == s.bodies[id].isMerged
  }

  /** The scene after one step: every non-static body of the world that the
      step reports is moved; static bodies and bodies outside the world stay
      where they are. */
  function StepScene(s: Scene, o: StepOutcome): (r: Scene)
    ensures SameShape(s, r)
    ensures forall id :: id in s.bodies ==>
      r.bodies[id] == (if id in s.world && id in o.motion && !s.bodies[id].isStatic
                       then Move(s.bodies[id], o.motion[id]) else s.bodies[id])
  {
    s.(bodies := map id | id in s.bodies ::
         if id in s.world && id in o.motion && !s.bodies[id].isStatic
         then Move(s.bodies[id], o.motion[id]) else s.bodies[id])
  }

  /** Both bodies of the pair exist and are labelled Fruit. */
  predicate FruitPair(s: Scene, p: Pair)
  {
    p.bodyA in s.bodies && p.bodyB in s.bodies
    && s.bodies[p.bodyA].tag == Fruit && s.bodies[p.bodyB].tag == Fruit
  }

  /** The collisionStart handler: the Fruit-Fruit pairs of the event, in
      order, are pushed onto the merge queue. */
  function FruitPairs(s: Scene, pairs: seq<Pair>): (r: seq<Pair>)
    ensures |r| <= |pairs|
    ensures forall p :: p in r <==> p in pairs && FruitPair(s, p)
    decreases |pairs|
  {
    if pairs == [] then []
    else
      var rest := FruitPairs(s, pairs[..|pairs| - 1]);
      var p := pairs[|pairs| - 1];
      if FruitPair(s, p) then rest + [p] else rest
  }

  /** n fixed steps from step number `from`, with the merge queue they
      leave: the bodies only move, and the queue only grows, by pairs of two
      fruits of the arena. */
  function Simulate(s: Scene, q: seq<Pair>, update: nat -> StepOutcome, from: nat, n: nat): (r: (Scene, seq<Pair>))
    ensures SameShape(s, r.0)
    ensures |q| <= |r.1| && r.1[..|q|] == q
    ensures forall i :: |q| <= i < |r.1| ==> FruitPair(s, r.1[i])
    decreases n
  {
    if n == 0 then (s, q)
    else
      var before := Simulate(s, q, update, from, n - 1);
      var o := update(from + n - 1);
      var after := StepScene(before.0, o);
      var added := FruitPairs(after, o.pairs);
      var r := (after, before.1 + added);
      assert forall i :: |before.1| <= i < |r.1| ==> r.1[i] in added;
      r
  }

  /** One more step extends the run by that step's outcome. */
  lemma SimulateNext(s: Scene, q: seq<Pair>, update: nat -> StepOutcome, from: nat, n: nat)
    ensures
      var before := Simulate(s, q, update, from, n);
      var after := StepScene(before.0, update(from + n));
      Simulate(s, q, update, from, n + 1) == (after, before.1 + FruitPairs(after, update(from + n).pairs))
  {
  }

  /** A step never moves a static body. */
  lemma StaticBodiesStay(s: Scene, o: StepOutcome, id: BodyId)
    requires id in s.bodies && s.bodies[id].isStatic
    ensures StepScene(s, o).bodies[id] == s.bodies[id]
  {
  }

  /** Moving bodies keeps identities below the next one and ranks in the
      table. */
  lemma SameShapeKeepsArenaOk(s: Scene, r: Scene)
    requires ArenaOk(s) && SameShape(s, r)
    ensures ArenaOk(r)
  {
  }

  /** Moving bodies keeps the scene's invariants and the frame's pending
      events in order. */
  lemma SameShapeKeepsSceneOk(s: Scene, r: Scene, events: seq<GameEvent>)
    requires SceneOk(s) && PendingOk(s, events) && SameShape(s, r)
    ensures SceneOk(r) && PendingOk(r, events)
  {
  }

  // ------------------------------------------------- writes of the component

  /** Rewriting a body's motion, position or static flag, as the drag
      handlers do, keeps the scene's invariants and the frame's pending
      events in order: only the label, the rank and the merged flag
      matter to them. */
  lemma RetouchKeepsOk(s: Scene, events: seq<GameEvent>, id: BodyId, b: Body)
    requires SceneOk(s) && PendingOk(s, events) && id in s.bodies
    requires b.tag == s.bodies[id].tag && b.fruitIndex == s.bodies[id].fruitIndex
    requires b.isMerged == s.bodies[id].isMerged
    ensures SceneOk(s.(bodies := s.bodies[id := b]))
    ensures PendingOk(s.(bodies := s.bodies[id := b]), events)
  {
    var r := s.(bodies := s.bodies[id := b]);
    assert forall j :: j in s.bodies ==> r.bodies[j].isMerged == s.bodies[j].isMerged;
  }

  /** A fresh fruit of a rank of the table, not merged, put in the world and
      handed to the systems by one more ADD_BODY event, keeps the scene's
      invariants and the frame's pending events in order. */
  lemma HandOverKeepsOk(s: Scene, events: seq<GameEvent>, k: Key, b: Body)
    requires SceneOk(s) && PendingOk(s, events)
    requires !b.isMerged && (b.tag == Fruit ==> Fruits.IsRank(b.fruitIndex))
    ensures
      var r := Scene(s.bodies[s.nextId := b], s.entities, s.world + {s.nextId}, s.nextId + 1);
      SceneOk(r) && PendingOk(r, events + [AddBody(k, s.nextId)])
  {
    var r := Scene(s.bodies[s.nextId := b], s.entities, s.world + {s.nextId}, s.nextId + 1);
    var es := events + [AddBody(k, s.nextId)];
    assert s.nextId !in s.bodies;
    assert s.nextId !in s.entities.Values;
    forall i | 0 <= i < |es| && es[i].AddBody?
      ensures es[i].body in r.bodies && es[i].body !in r.entities.Values && !r.bodies[es[i].body].isMerged
    {
      if i < |events| { assert es[i] == events[i]; }
    }
    forall i, j | 0 <= i < j < |es| && es[i].AddBody? && es[j].AddBody?
      ensures es[i].body != es[j].body
    {
      assert es[i] == events[i];
      if j < |events| { assert es[j] == events[j]; }
    }
  }
}
