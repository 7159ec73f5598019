/** The tick system and the engine state it mutates in place: the entities
    dictionary, the Matter.js world and its bodies, the fixed-step
    accumulator, the merge queue, and the two event queues of the game loop
    (events dispatched to the systems, read on the next tick, and events the
    tick dispatches to the component). */
module Physics {
  import opened Options
  import opened Entities
  import Fruits
  import Stepper
  import Merge
  import World
  import Deadline

  class Engine {
    /** Every body ever created, by identity (see Entities). */
    var bodies: map<BodyId, Body>
    /** The entities dictionary, restricted to the entries that hold a body. */
    var entities: map<Key, BodyId>
    /** The bodies currently in the Matter.js world. */
    var world: set<BodyId>
    /** The identity the next created body receives. */
    var nextId: nat
    /** engine._accumulator, the banked time in ms. */
    var accumulator: real
    /** How many fixed steps the engine has taken; the n-th step's outcome
        is update(n). */
    var stepCount: nat
    /** engine.mergeQueue, filled by the collisionStart handler. */
    var mergeQueue: seq<Pair>
    /** Events dispatched to the systems, handed to the next tick. */
    var events: seq<GameEvent>
    /** Events the tick system dispatched, in order, for onEvent. */
    var outbox: seq<GameEvent>

    function Snapshot(): Scene
      reads this
    {
      Scene(bodies, entities, world, nextId)
    }

    ghost predicate Valid()
      reads this
    {
      SceneOk(Snapshot()) && World.PendingOk(Snapshot(), events)
    }

    /** setupWorld: a fresh engine holding the floor and the two walls of
        Arena; nothing banked, nothing queued. */
    constructor (screenWidth: real, screenHeight: real)
      ensures Valid()
      ensures Snapshot() == Arena(screenWidth, screenHeight)
      ensures accumulator == 0.0 && stepCount == 0
      ensures mergeQueue == [] && events == [] && outbox == []
    {
      var arena := Arena(screenWidth, screenHeight);
      bodies := arena.bodies;
      entities := arena.entities;
      world := arena.world;
      nextId := arena.nextId;
      accumulator := 0.0;
      stepCount := 0;
      mergeQueue := [];
      events := [];
      outbox := [];
    }

    // ------------------------------------------------------ Matter.js calls
    // These primitives neither require nor ensure Valid(): each is one step
    // of a larger operation, and its caller restores the invariant.

    /** Matter.Bodies.circle with the game's fruit label and rank: a new
        dynamic body at rest, outside the world, under a fresh identity. */
    method NewFruit(at: Vec, rank: int) returns (id: BodyId)
      requires Fruits.IsRank(rank)
      modifies this`bodies, this`nextId
      ensures ArenaOk(old(Snapshot())) ==> id !in old(bodies)
      ensures id == old(nextId) && nextId == id + 1
      ensures bodies == old(bodies)[id := Body(Fruit, rank, at, Fruits.Radius(rank), Origin, 0.0, 0.0, false, false, false)]
    {
      id := nextId;
      bodies := bodies[id := Body(Fruit, rank, at, Fruits.Radius(rank), Origin, 0.0, 0.0, false, false, false)];
      nextId := nextId + 1;
    }

    /** Matter.World.add. */
    method AddToWorld(id: BodyId)
      modifies this`world
      ensures world == old(world) + {id}
    {
      world := world + {id};
    }

    /** Replaces one body by an update of it: the form of every Matter.Body
        setter the game calls and of its own writes to isStatic, isSpawning
        and isMerged. */
    method Retouch(id: BodyId, b: Body)
      modifies this`bodies
      ensures bodies == old(bodies)[id := b]
    {
      bodies := bodies[id := b];
    }

    /** The game loop's dispatch: the event reaches the systems on the next
        tick. */
    method Dispatch(e: GameEvent)
      modifies this`events
      ensures events == old(events) + [e]
    {
      events := events + [e];
    }

    // ------------------------------------------------------------ the tick

    /** One call of the tick system: register the frame's ADD_BODY events,
        step the world in fixed steps, drain the merge queue, then scan the
        fruits against the deadline. The new scene and the dispatched events
        are those of TickOutcome, and the accumulator keeps only what is
        left of a whole step. */
    method Tick(delta: Option<real>, update: nat -> World.StepOutcome, draws: nat -> Merge.MergeDraws)
      requires Valid()
      modifies this
      ensures Ticked(old(Snapshot()), old(events), old(mergeQueue), old(outbox), old(stepCount),
                     Stepper.StepsFor(Stepper.Charged(old(accumulator), Stepper.Elapsed(delta))), update, draws)
      ensures accumulator == Stepper.Residue(Stepper.Charged(old(accumulator), Stepper.Elapsed(delta)))
    {
      ghost var s0 := Snapshot();
      ghost var e0 := events;
      ghost var q0 := mergeQueue;
      ghost var from := stepCount;
      ghost var n := Stepper.StepsFor(Stepper.Charged(accumulator, Stepper.Elapsed(delta)));
      Prepare(delta, update);
      Resolve(draws, s0, e0, q0, update, from, n);
    }

    /** What one tick makes of the engine, from the scene s with the pending
        events e, the merge queue q, the outbox and the step counter it
        started with, when n whole steps are taken: the counter advances by
        n, the scene is the tick's outcome and keeps the engine invariant,
        the tick's events are appended to the outbox, and the events and the
        merge queue are used up. */
    ghost predicate Ticked(s: Scene, e: seq<GameEvent>, q: seq<Pair>, outbox0: seq<GameEvent>, from: nat,
                           n: nat, update: nat -> World.StepOutcome, draws: nat -> Merge.MergeDraws)
      reads this
    {
      && Valid()
      && ArenaOk(s)
      && Snapshot() == TickOutcome(s, e, q, update, from, n, draws).0
      && outbox == outbox0 + TickOutcome(s, e, q, update, from, n, draws).1
      && stepCount == from + n
      && events == [] && mergeQueue == []
    }

    /** Stages one and two. */
    method Prepare(delta: Option<real>, update: nat -> World.StepOutcome)
      modifies this`bodies, this`entities, this`events, this`accumulator, this`stepCount, this`mergeQueue
      ensures
        var n := Stepper.StepsFor(Stepper.Charged(old(accumulator), Stepper.Elapsed(delta)));
        && (Snapshot(), mergeQueue) == Prepared(old(Snapshot()), old(events), old(mergeQueue), update, old(stepCount), n)
        && stepCount == old(stepCount) + n
      ensures accumulator == Stepper.Residue(Stepper.Charged(old(accumulator), Stepper.Elapsed(delta)))
      ensures accumulator < Stepper.Dt
      ensures events == []
    {
      RegisterEvents();
      Advance(delta, update);
    }

    /** Stages three and four, on the scene that stages one and two made of
        the scene s with the pending events and merge queue given. */
    method Resolve(draws: nat -> Merge.MergeDraws, ghost s: Scene, ghost events0: seq<GameEvent>, ghost q: seq<Pair>,
                   ghost update: nat -> World.StepOutcome, ghost from: nat, ghost n: nat)
      requires SceneOk(s) && World.PendingOk(s, events0)
      requires (Snapshot(), mergeQueue) == Prepared(s, events0, q, update, from, n)
      requires stepCount == from + n && events == []
      modifies this`bodies, this`entities, this`world, this`nextId, this`mergeQueue, this`outbox
      ensures Ticked(s, events0, q, old(outbox), from, n, update, draws)
    {
      PreparedKeepsSceneOk(s, events0, q, update, from, n);
      Finish(draws);
    }

    /** Stages three and four on the current scene: drain the merge queue,
        then scan for fruits over the line. */
    method Finish(draws: nat -> Merge.MergeDraws)
      requires SceneOk(Snapshot()) && events == []
      modifies this`bodies, this`entities, this`world, this`nextId, this`mergeQueue, this`outbox
      ensures Valid()
      ensures Snapshot() == Resolved(old(Snapshot()), old(mergeQueue), draws).0
      ensures outbox == old(outbox) + Resolved(old(Snapshot()), old(mergeQueue), draws).1
      ensures mergeQueue == []
    {
      ghost var d := Merge.Drain(Snapshot(), mergeQueue, draws);
      ResolvedKeepsSceneOk(Snapshot(), mergeQueue, draws);
      Merge.DrainKeepsSceneOk(Snapshot(), mergeQueue, draws, |mergeQueue|);
      DrainMergeQueue(draws);
      Regroup(old(outbox), d.1, Deadline.GameOvers(|Deadline.Alarms(d.0)|));
      CheckGameOver();
    }

    /** Stage one: every ADD_BODY event of the frame stores its body under
        its key; the frame's events are then used up. */
    method RegisterEvents()
      modifies this`entities, this`events
      ensures Snapshot() == World.Register(old(Snapshot()), old(events))
      ensures events == []
    {
      ghost var s0 := Snapshot();
      var frame := events;
      var i := 0;
      while i < |frame|
        invariant 0 <= i <= |frame|
        invariant Snapshot() == World.Register(s0, frame[..i])
      {
        assert frame[..i + 1][..i] == frame[..i];
        match frame[i] {
          case AddBody(k, id) =>
            entities := entities[k := id];
          case _ =>
        }
        i := i + 1;
      }
      assert frame[..i] == frame;
      events := [];
    }

    /** Stage two: bank the elapsed time (one step's worth when none is
        given), cap it at 250 ms, and step while a whole step is banked. */
    method Advance(delta: Option<real>, update: nat -> World.StepOutcome)
      modifies this`bodies, this`accumulator, this`stepCount, this`mergeQueue
      ensures
        var n := Stepper.StepsFor(Stepper.Charged(old(accumulator), Stepper.Elapsed(delta)));
        && (Snapshot(), mergeQueue) == World.Simulate(old(Snapshot()), old(mergeQueue), update, old(stepCount), n)
        && stepCount == old(stepCount) + n
      ensures accumulator == Stepper.Residue(Stepper.Charged(old(accumulator), Stepper.Elapsed(delta)))
      ensures accumulator < Stepper.Dt
    {
      var elapsed := Stepper.Elapsed(delta);
      accumulator := accumulator + elapsed;
      if accumulator > Stepper.MaxAccum {
        accumulator := Stepper.MaxAccum;
      }
      ghost var charged := accumulator;
      assert charged == Stepper.Charged(old(accumulator), elapsed);
      ghost var s0 := Snapshot();
      ghost var q0 := mergeQueue;
      ghost var from := stepCount;
      ghost var k: nat := 0;
      while accumulator >= Stepper.Dt
        invariant Stepping(charged, s0, q0, update, from, k)
        decreases Stepper.StepsFor(charged) - k
      {
        k := StepOnce(charged, s0, q0, update, from, k);
      }
      if k > 0 {
        Stepper.StepsCharacterised(charged, k, accumulator);
      }
    }

    /** The stepping loop after k steps from the banked time `charged`. */
    ghost predicate Stepping(charged: real, s0: Scene, q0: seq<Pair>, update: nat -> World.StepOutcome, from: nat, k: nat)
      reads this
    {
      && accumulator == charged - Stepper.Span(k)
      && (k > 0 ==> accumulator >= 0.0)
      && k <= Stepper.StepsFor(charged)
      && stepCount == from + k
      && (Snapshot(), mergeQueue) == World.Simulate(s0, q0, update, from, k)
    }

    /** One turn of the stepping loop: one engine step, one step's time
        spent. */
    method StepOnce(ghost charged: real, ghost s0: Scene, ghost q0: seq<Pair>, update: nat -> World.StepOutcome,
                    ghost from: nat, ghost k: nat) returns (ghost next: nat)
      requires Stepping(charged, s0, q0, update, from, k) && accumulator >= Stepper.Dt
      modifies this`bodies, this`accumulator, this`stepCount, this`mergeQueue
      ensures next == k + 1 && Stepping(charged, s0, q0, update, from, next)
    {
      next := k + 1;
      Stepper.StepsExceed(charged, k);
      World.SimulateNext(s0, q0, update, from, k);
      var o := update(stepCount);
      assert o == update(from + k);
      EngineUpdate(o);
      accumulator := accumulator - Stepper.Dt;
    }

    /** Matter.Engine.update for one fixed step: the bodies move as the step
        reports, and its collisionStart event runs the handler. */
    method EngineUpdate(o: World.StepOutcome)
      modifies this`bodies, this`mergeQueue, this`stepCount
      ensures Snapshot() == World.StepScene(old(Snapshot()), o)
      ensures mergeQueue == old(mergeQueue) + World.FruitPairs(Snapshot(), o.pairs)
      ensures stepCount == old(stepCount) + 1
    {
      bodies := World.StepScene(Snapshot(), o).bodies;
      OnCollisionStart(o.pairs);
      stepCount := stepCount + 1;
    }

    /** The collisionStart handler: push every pair whose two bodies exist
        and are labelled Fruit onto the merge queue, in order. */
    method OnCollisionStart(pairs: seq<Pair>)
      modifies this`mergeQueue
      ensures mergeQueue == old(mergeQueue) + World.FruitPairs(Snapshot(), pairs)
    {
      ghost var s := Snapshot();
      var i := 0;
      while i < |pairs|
        invariant 0 <= i <= |pairs|
        invariant mergeQueue == old(mergeQueue) + World.FruitPairs(s, pairs[..i])
      {
        assert pairs[..i + 1][..i] == pairs[..i];
        var p := pairs[i];
        if World.FruitPair(Snapshot(), p) {
          mergeQueue := mergeQueue + [p];
        }
        i := i + 1;
      }
      assert pairs[..i] == pairs;
    }

    /** Stage three: splice the whole queue out at once and process its
        pairs front to back; the queue is empty afterwards. */
    method DrainMergeQueue(draws: nat -> Merge.MergeDraws)
      requires SceneOk(Snapshot())
      modifies this`bodies, this`entities, this`world, this`nextId, this`mergeQueue, this`outbox
      ensures Snapshot() == Merge.Drain(old(Snapshot()), old(mergeQueue), draws).0
      ensures outbox == old(outbox) + Merge.Drain(old(Snapshot()), old(mergeQueue), draws).1
      ensures mergeQueue == []
    {
      ghost var s0 := Snapshot();
      var queue := mergeQueue;
      if |queue| > 0 {
        mergeQueue := [];
        var i := 0;
        while i < |queue|
          invariant Draining(s0, queue, draws, i, old(outbox))
          invariant mergeQueue == []
        {
          DrainStep(s0, queue, draws, i, old(outbox));
          i := i + 1;
        }
      }
    }

    /** The drain loop after its first i pairs, started from s0 with the
        outbox out0. */
    ghost predicate Draining(s0: Scene, queue: seq<Pair>, draws: nat -> Merge.MergeDraws, i: nat, out0: seq<GameEvent>)
      reads this
    {
      && SceneOk(s0) && i <= |queue|
      && Snapshot() == Merge.DrainPrefix(s0, queue, draws, i).0
      && outbox == out0 + Merge.DrainPrefix(s0, queue, draws, i).1
    }

    /** One turn of the drain loop: the i-th pair, with the i-th draws. */
    method DrainStep(ghost s0: Scene, queue: seq<Pair>, draws: nat -> Merge.MergeDraws, i: nat, ghost out0: seq<GameEvent>)
      requires Draining(s0, queue, draws, i, out0) && i < |queue|
      modifies this`bodies, this`entities, this`world, this`nextId, this`outbox
      ensures Draining(s0, queue, draws, i + 1, out0)
    {
      Merge.DrainKeepsSceneOk(s0, queue, draws, i);
      ghost var before := Merge.DrainPrefix(s0, queue, draws, i);
      ghost var last := Merge.MergePair(before.0, queue[i], draws(i));
      Regroup(out0, before.1, last.1);
      ResolvePair(queue[i], draws(i));
    }

    /** One queued pair, as the drain loop handles it: skip it unless both
        bodies exist, are fruits of one rank, neither has merged and both are
        held by entities; otherwise flag both merged, delete their entities,
        take them out of the world and, below the last rank, add the fruit
        of the next rank at their midpoint with a random spin under a new
        key, and dispatch its score and the pop sound. */
    method ResolvePair(p: Pair, d: Merge.MergeDraws)
      requires ArenaOk(Snapshot()) && Injective(entities)
      modifies this`bodies, this`entities, this`world, this`nextId, this`outbox
      ensures Snapshot() == Merge.MergePair(old(Snapshot()), p, d).0
      ensures outbox == old(outbox) + Merge.MergePair(old(Snapshot()), p, d).1
    {
      if !(p.bodyA in bodies && p.bodyB in bodies) { return; }
      var a := bodies[p.bodyA];
      var b := bodies[p.bodyB];
      if !(a.tag == Fruit && b.tag == Fruit) { return; }
      if a.fruitIndex != b.fruitIndex { return; }
      if a.isMerged || b.isMerged { return; }
      var keyA := Owner(entities, p.bodyA);
      var keyB := Owner(entities, p.bodyB);
      if keyA.None? || keyB.None? { return; }
      RetirePair(p.bodyA, p.bodyB, keyA.value, keyB.value);
      var newIndex := a.fruitIndex + 1;
      if newIndex < |Fruits.FRUITS| {
        SpawnMerged(newIndex, Merge.Midpoint(a.position, b.position), d);
      }
    }

    /** The creation half of a merge: a new fruit of the given rank at the
        given point, put into the world with its spin and stored under a new
        key, then its score and the pop sound dispatched. */
    method SpawnMerged(rank: int, at: Vec, d: Merge.MergeDraws)
      requires Fruits.IsRank(rank)
      modifies this`bodies, this`entities, this`world, this`nextId, this`outbox
      ensures Snapshot() == Merge.AddFruit(old(Snapshot()), rank, at, d.spinDraw, Merge.NewKey(d))
      ensures outbox == old(outbox) + [ScoreUpdate(Fruits.FRUITS[rank].score, rank), PlaySound("pop")]
    {
      var id := NewFruit(at, rank);
      AddToWorld(id);
      Retouch(id, bodies[id].(angularVelocity := (d.spinDraw - 0.5) * 0.4));
      entities := entities[Merge.NewKey(d) := id];
      outbox := outbox + [ScoreUpdate(Fruits.FRUITS[rank].score, rank)];
      outbox := outbox + [PlaySound("pop")];
    }

    /** The removal half of a merge: flag both bodies merged, delete the two
        entities that hold them, and take both out of the world. */
    method RetirePair(a: BodyId, b: BodyId, keyA: Key, keyB: Key)
      requires a in bodies && b in bodies && Injective(entities)
      requires keyA in entities && entities[keyA] == a && keyB in entities && entities[keyB] == b
      modifies this`bodies, this`entities, this`world
      ensures Snapshot() == Merge.Retire(old(Snapshot()), a, b)
    {
      OwnersRemoved(entities, a, b, keyA, keyB);
      Retouch(a, bodies[a].(isMerged := true));
      Retouch(b, bodies[b].(isMerged := true));
      entities := entities - {keyA};
      entities := entities - {keyB};
      world := world - {a, b};
    }

    /** Stage four: visit every entity; for each fruit, settle its spawning
        flag against the line, then dispatch GAME_OVER if it rests above the
        line without the flag. */
    method CheckGameOver()
      requires forall k :: k in entities ==> entities[k] in bodies
      modifies this`bodies, this`outbox
      ensures Snapshot() == Deadline.Settled(old(Snapshot()))
      ensures outbox == old(outbox) + Deadline.GameOvers(|Deadline.Alarms(old(Snapshot()))|)
    {
      ghost var s0 := Snapshot();
      var keys := entities.Keys;
      assert s0.entities.Keys - keys == {};
      Deadline.ScanStarts(s0);
      while keys != {}
        invariant Scanning(s0, keys, old(outbox))
        decreases |keys|
      {
        var k :| k in keys;
        ScanKey(k, s0, keys, old(outbox));
        keys := keys - {k};
      }
      assert s0.entities.Keys - keys == s0.entities.Keys;
      Deadline.ScanVisitsAll(s0);
    }

    /** The scan started from s0 with the outbox out0, with `keys` still to
        visit. */
    ghost predicate Scanning(s0: Scene, keys: set<Key>, out0: seq<GameEvent>)
      reads this
    {
      && (forall k :: k in s0.entities ==> s0.entities[k] in s0.bodies)
      && keys <= s0.entities.Keys
      && Snapshot() == Deadline.SettledAmong(s0, s0.entities.Keys - keys)
      && outbox == out0 + Deadline.GameOvers(|Deadline.AlarmsAmong(s0, s0.entities.Keys - keys)|)
    }

    /** One turn of the scan: the entity under key k. */
    method ScanKey(k: Key, ghost s0: Scene, ghost keys: set<Key>, ghost out0: seq<GameEvent>)
      requires Scanning(s0, keys, out0) && k in keys
      modifies this`bodies, this`outbox
      ensures Scanning(s0, keys - {k}, out0)
    {
      ghost var seen := s0.entities.Keys - keys;
      assert s0.entities.Keys - (keys - {k}) == seen + {k};
      Deadline.SettledAmongStep(s0, seen, k);
      Deadline.AlarmsAmongStep(s0, seen, k);
      Regroup(out0, Deadline.GameOvers(|Deadline.AlarmsAmong(s0, seen)|),
              if Deadline.Alarm(s0, k) then [GameOver] else []);
      var id := entities[k];
      if bodies[id].tag == Fruit {
        ScanFruit(id);
      }
    }

    /** The scan of one fruit: its flag settled, then GAME_OVER if it rests
        above the line without the flag. */
    method ScanFruit(id: BodyId)
      requires id in bodies
      modifies this`bodies, this`outbox
      ensures bodies == old(bodies)[id := Deadline.Settle(old(bodies)[id])]
      ensures outbox == old(outbox) + (if Deadline.Triggers(Deadline.Settle(old(bodies)[id])) then [GameOver] else [])
    {
      var body := bodies[id];
      if Top(body) < Fruits.DeadlineY {
        if body.isSpawning {
          if Top(body) > Fruits.DeadlineY + Deadline.GraceBand {
            body := body.(isSpawning := false);
          }
        }
      } else {
        if body.isSpawning {
          body := body.(isSpawning := false);
        }
      }
      bodies := bodies[id := body];
      if !body.isSpawning && Top(body) < Fruits.DeadlineY {
        if body.speed < Deadline.RestingSpeed {
          outbox := outbox + [GameOver];
        }
      }
    }
  }

  /** The scene setupWorld builds: the floor 60 below the bottom edge's
      100-deep half, the walls' inner edges on the screen edges, all three
      static rectangles (so no circle radius) at rest, under their names. */
  function Arena(screenWidth: real, screenHeight: real): (s: Scene)
    ensures SceneOk(s)
    ensures s.entities == map[Named("floor") := 0, Named("leftWall") := 1, Named("rightWall") := 2]
    ensures s.world == {0, 1, 2} && s.nextId == 3 && s.bodies.Keys == {0, 1, 2}
    ensures s.bodies[0].tag == Floor && s.bodies[1].tag == Wall && s.bodies[2].tag == Wall
    ensures forall id :: id in s.bodies ==> s.bodies[id].isStatic
  {
    var floor := Body(Floor, 0, Vec(screenWidth / 2.0, screenHeight + 100.0 - 60.0), 0.0,
                      Origin, 0.0, 0.0, true, false, false);
    var leftWall := Body(Wall, 0, Vec(25.0, screenHeight / 2.0), 0.0,
                         Origin, 0.0, 0.0, true, false, false);
    var rightWall := Body(Wall, 0, Vec(screenWidth - 25.0, screenHeight / 2.0), 0.0,
                          Origin, 0.0, 0.0, true, false, false);
    Scene(map[0 := floor, 1 := leftWall, 2 := rightWall],
          map[Named("floor") := 0, Named("leftWall") := 1, Named("rightWall") := 2],
          {0, 1, 2}, 3)
  }

  /** The first two stages of a tick on the scene s: the frame's events
      registered, then n fixed steps from step number `from` with the merge
      queue they fill. */
  function Prepared(s: Scene, events: seq<GameEvent>, queue: seq<Pair>, update: nat -> World.StepOutcome,
                    from: nat, n: nat): (r: (Scene, seq<Pair>))
    ensures ArenaOk(s) ==> ArenaOk(r.0)
  {
    var registered := World.Register(s, events);
    var stepped := World.Simulate(registered, queue, update, from, n);
    assert ArenaOk(s) ==> ArenaOk(stepped.0) by {
      if ArenaOk(s) { World.SameShapeKeepsArenaOk(registered, stepped.0); }
    }
    stepped
  }

  /** The last two stages of a tick on the scene s with the merge queue q:
      the scene they leave and the events they dispatch, in order (the
      score and sound of each merge, then one GAME_OVER per alarming
      fruit). */
  function Resolved(s: Scene, q: seq<Pair>, draws: nat -> Merge.MergeDraws): (r: (Scene, seq<GameEvent>))
    requires ArenaOk(s)
    ensures s.bodies.Keys <= r.0.bodies.Keys
  {
    var drained := Merge.Drain(s, q, draws);
    (Deadline.Settled(drained.0), drained.1 + Deadline.GameOvers(|Deadline.Alarms(drained.0)|))
  }

  /** A whole tick on the scene s with n fixed steps. */
  function TickOutcome(s: Scene, events: seq<GameEvent>, queue: seq<Pair>, update: nat -> World.StepOutcome,
                       from: nat, n: nat, draws: nat -> Merge.MergeDraws): (r: (Scene, seq<GameEvent>))
    requires ArenaOk(s)
    ensures s.bodies.Keys <= r.0.bodies.Keys
  {
    var stepped := Prepared(s, events, queue, update, from, n);
    Resolved(stepped.0, stepped.1, draws)
  }

  /** The first two stages keep every invariant of the scene, given a frame
      of events that hands each body once. */
  lemma PreparedKeepsSceneOk(s: Scene, events: seq<GameEvent>, queue: seq<Pair>, update: nat -> World.StepOutcome,
                             from: nat, n: nat)
    requires SceneOk(s) && World.PendingOk(s, events)
    ensures SceneOk(Prepared(s, events, queue, update, from, n).0)
  {
    World.RegisterKeepsSceneOk(s, events);
    var registered := World.Register(s, events);
    World.SameShapeKeepsSceneOk(registered, World.Simulate(registered, queue, update, from, n).0, []);
  }

  /** Draining and scanning keep every invariant of the scene. */
  lemma ResolvedKeepsSceneOk(s: Scene, q: seq<Pair>, draws: nat -> Merge.MergeDraws)
    requires SceneOk(s)
    ensures SceneOk(Resolved(s, q, draws).0)
  {
    Merge.DrainKeepsSceneOk(s, q, draws, |q|);
    Deadline.SettledKeepsSceneOk(Merge.Drain(s, q, draws).0);
  }

  /** A tick keeps every invariant of the scene. */
  lemma TickKeepsSceneOk(s: Scene, events: seq<GameEvent>, queue: seq<Pair>, update: nat -> World.StepOutcome,
                         from: nat, n: nat, draws: nat -> Merge.MergeDraws)
    requires SceneOk(s) && World.PendingOk(s, events)
    ensures SceneOk(TickOutcome(s, events, queue, update, from, n, draws).0)
  {
    PreparedKeepsSceneOk(s, events, queue, update, from, n);
    var stepped := Prepared(s, events, queue, update, from, n);
    ResolvedKeepsSceneOk(stepped.0, stepped.1, draws);
  }

  /** Deleting the keys that own the two bodies leaves exactly the entities
      that hold neither of them. */
  lemma OwnersRemoved(entities: map<Key, BodyId>, a: BodyId, b: BodyId, ka: Key, kb: Key)
    requires Injective(entities)
    requires ka in entities && entities[ka] == a && kb in entities && entities[kb] == b
    ensures entities - {ka} - {kb} == Merge.Without(entities, a, b)
  {
  }

  /** Appending in two steps is appending the joined tail. */
  lemma Regroup<T>(a: seq<T>, b: seq<T>, c: seq<T>)
    ensures a + b + c == a + (b + c)
  {
  }
}
