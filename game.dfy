/** The game component: the drag state machine that creates, moves and
    drops the next fruit, its spam protection, the preview of the next rank,
    and the onEvent handler that accumulates the session. */
module Game {
  import opened Options
  import opened Entities
  import Fruits
  import Physics
  import World
  import Merge
  import Stepper
  import Spawn
  import Session
  import Deadline

  /** draggingFruitRef: the entity key, body and rank of the fruit being
      dragged. */
  datatype Drag = Drag(id: Key, body: BodyId, fruitIndex: int)

  function Min(a: int, b: int): int { if a < b then a else b }

  /** A fruit as beginDragFruit creates it: at rest, held static and flagged
      as spawning. */
  function HeldFruit(rank: int, at: Vec): (b: Body)
    requires Fruits.IsRank(rank)
    ensures b.tag == Fruit && b.fruitIndex == rank && b.position == at && b.circleRadius == Fruits.Radius(rank)
    ensures b.isStatic && b.isSpawning && !b.isMerged
  {
    Body(Fruit, rank, at, Fruits.Radius(rank), Origin, 0.0, 0.0, true, true, false)
  }

  /** A fruit just taken by beginDragFruit, wherever the clamp puts it,
      keeps its spawning flag through the deadline scan and cannot end the
      game. */
  lemma HeldFruitIsSafe(rank: int, x: real, screenWidth: real)
    requires Fruits.IsRank(rank)
    ensures
      var b := HeldFruit(rank, Vec(Spawn.ClampSpawnX(x, Fruits.Radius(rank), screenWidth), Spawn.DragSpawnY(Fruits.Radius(rank))));
      Deadline.Settle(b) == b && !Deadline.Triggers(Deadline.Settle(b))
  {
    Fruits.RankTableShape();
    assert Fruits.FRUITS[0].radius == 10;
    if rank > 0 { assert Fruits.FRUITS[0].radius < Fruits.FRUITS[rank].radius; }
    var r := Fruits.Radius(rank);
    Spawn.DraggedFruitIsSafe(HeldFruit(rank, Vec(Spawn.ClampSpawnX(x, r, screenWidth), Spawn.DragSpawnY(r))));
  }

  class Game {
    /** The game engine and its world, set up once. */
    const engine: Physics.Engine
    const screenWidth: real

    var score: int
    var maxFruitIndex: int
    var running: bool
    var engineReady: bool
    /** The scores handed to onGameOver, in order. */
    var reported: seq<int>
    /** nextFruitIndexRef: the rank of the next fruit, shown as the preview. */
    var nextFruitIndex: int
    /** lastSpawnRef. */
    var lastSpawn: int
    /** spawnTimestampsRef. */
    var spawnTimestamps: seq<int>
    /** draggingFruitRef. */
    var dragging: Option<Drag>

    function State(): Session.Session
      reads this
    {
      Session.Session(score, maxFruitIndex, running, engineReady, reported)
    }

    function Limiter(): Spawn.Limiter
      reads this
    {
      Spawn.Limiter(lastSpawn, spawnTimestamps)
    }

    ghost predicate Valid()
      reads this, engine
    {
      && engine.Valid()
      && Fruits.IsRank(nextFruitIndex)
      && maxFruitIndex >= 0
      && Spawn.LimiterOk(Limiter())
      && (dragging.Some? ==> dragging.value.body in engine.bodies)
    }

    /** Mounting: the world is set up, the first preview is drawn from ranks
        0..3, and nothing is scored, spawned or dragged yet. */
    constructor (screenWidth: real, screenHeight: real, random: real)
      requires 0.0 <= random < 1.0
      ensures Valid() && fresh(engine)
      ensures engine.Snapshot() == Physics.Arena(screenWidth, screenHeight)
      ensures engine.accumulator == 0.0 && engine.stepCount == 0
      ensures engine.mergeQueue == [] && engine.events == [] && engine.outbox == []
      ensures State() == Session.Initial && Limiter() == Spawn.Initial && dragging == None
      ensures nextFruitIndex == Fruits.Pick(3, random)
      ensures this.screenWidth == screenWidth
    {
      var first := Fruits.PickWeightedIndex(3, random);
      Fruits.PickInRange(3, random);
      engine := new Physics.Engine(screenWidth, screenHeight);
      this.screenWidth := screenWidth;
      score := 0;
      maxFruitIndex := 0;
      running := true;
      engineReady := false;
      reported := [];
      nextFruitIndex := first;
      lastSpawn := 0;
      spawnTimestamps := [];
      dragging := None;
    }

    /** beginDragFruit(x) at time now. Nothing happens before the engine has
        started or while a fruit is dragged, and the spam checks may reject
        the spawn (changing only the limiter). An admitted spawn consumes
        the preview: a held fruit of that rank is created at the clamped x
        and the drag height, put in the world, dragged, and handed to the
        systems by ADD_BODY under the key `fruit_${keyNow}_${keyDraw}`; the
        next preview is drawn from ranks 0..min(maxFruitIndex, 3). */
    method BeginDrag(x: real, now: int, random: real, keyNow: int, keyDraw: real)
      requires Valid() && 0.0 <= random < 1.0
      modifies this`lastSpawn, this`spawnTimestamps, this`nextFruitIndex, this`dragging
      modifies engine`bodies, engine`nextId, engine`world, engine`events
      ensures Valid()
      ensures !old(engineReady) || old(dragging).Some? ==>
        && Limiter() == old(Limiter()) && nextFruitIndex == old(nextFruitIndex) && dragging == old(dragging)
        && engine.Snapshot() == old(engine.Snapshot()) && engine.events == old(engine.events)
      ensures old(engineReady) && old(dragging).None? ==>
        var a := Spawn.Admit(old(Limiter()), now);
        && Limiter() == a.1
        && (a.0 != Spawn.Admitted ==>
              && nextFruitIndex == old(nextFruitIndex) && dragging == None
              && engine.Snapshot() == old(engine.Snapshot()) && engine.events == old(engine.events))
        && (a.0 == Spawn.Admitted ==>
              var id := old(engine.nextId);
              var rank := old(nextFruitIndex);
              var radius := Fruits.Radius(rank);
              var key := Generated(keyNow, keyDraw);
              && dragging == Some(Drag(key, id, rank))
              && nextFruitIndex == Fruits.Pick(Min(old(maxFruitIndex), 3), random)
              && engine.bodies == old(engine.bodies)[id :=
                   HeldFruit(rank, Vec(Spawn.ClampSpawnX(x, radius, screenWidth), Spawn.DragSpawnY(radius)))]
              && engine.world == old(engine.world) + {id} && engine.nextId == id + 1
              && engine.events == old(engine.events) + [AddBody(key, id)])
    {
      if !engineReady || dragging.Some? {
        return;
      }
      ghost var a := Spawn.Admit(Limiter(), now);
      Spawn.AdmitKeepsOk(Limiter(), now);
      if now - lastSpawn < Spawn.Cooldown {
        return;
      }
      spawnTimestamps := Spawn.Recent(spawnTimestamps, now);
      if |spawnTimestamps| >= Spawn.MaxPerWindow {
        return;
      }
      spawnTimestamps := spawnTimestamps + [now];
      lastSpawn := now;

      SpawnHeld(x, random, Generated(keyNow, keyDraw));
    }

    /** The admitted part of beginDragFruit: the preview is consumed and
        redrawn, and the held fruit is created, put in the world, dragged
        and handed to the systems. */
    method SpawnHeld(x: real, random: real, key: Key)
      requires engine.Valid() && Fruits.IsRank(nextFruitIndex) && maxFruitIndex >= 0 && 0.0 <= random < 1.0
      modifies this`nextFruitIndex, this`dragging, engine`bodies, engine`nextId, engine`world, engine`events
      ensures engine.Valid() && Fruits.IsRank(nextFruitIndex)
      ensures
        var id := old(engine.nextId);
        var rank := old(nextFruitIndex);
        var radius := Fruits.Radius(rank);
        && dragging == Some(Drag(key, id, rank))
        && nextFruitIndex == Fruits.Pick(Min(maxFruitIndex, 3), random)
        && engine.bodies == old(engine.bodies)[id :=
             HeldFruit(rank, Vec(Spawn.ClampSpawnX(x, radius, screenWidth), Spawn.DragSpawnY(radius)))]
        && engine.world == old(engine.world) + {id} && engine.nextId == id + 1
        && engine.events == old(engine.events) + [AddBody(key, id)]
    {
      var index := nextFruitIndex;
      var radius := Fruits.Radius(index);
      var maxDrop := Min(maxFruitIndex, 3);
      Fruits.PickInRange(maxDrop, random);
      nextFruitIndex := Fruits.PickWeightedIndex(maxDrop, random);

      var spawnX := Spawn.ClampSpawnX(x, radius, screenWidth);
      var spawnY := Spawn.DragSpawnY(radius);
      var body := PlaceHeld(Vec(spawnX, spawnY), index, key);
      dragging := Some(Drag(key, body, index));
    }

    /** Matter.Bodies.circle, the game's flags and Matter.World.add for the
        held fruit, then its ADD_BODY dispatch. */
    method PlaceHeld(at: Vec, rank: int, key: Key) returns (id: BodyId)
      requires engine.Valid() && Fruits.IsRank(rank)
      modifies engine`bodies, engine`nextId, engine`world, engine`events
      ensures engine.Valid()
      ensures id == old(engine.nextId) && engine.nextId == id + 1
      ensures engine.bodies == old(engine.bodies)[id := HeldFruit(rank, at)]
      ensures engine.world == old(engine.world) + {id}
      ensures engine.events == old(engine.events) + [AddBody(key, id)]
    {
      World.HandOverKeepsOk(engine.Snapshot(), engine.events, key, HeldFruit(rank, at));
      id := engine.NewFruit(at, rank);
      engine.Retouch(id, engine.bodies[id].(isSpawning := true, isStatic := true));
      engine.AddToWorld(id);
      engine.Dispatch(AddBody(key, id));
    }

    /** moveDraggedFruit(x): the dragged fruit is put at the clamped x and the
        drag height and stopped; nothing happens when no fruit is dragged. */
    method MoveDragged(x: real)
      requires Valid()
      modifies engine`bodies
      ensures Valid()
      ensures dragging.None? ==> engine.bodies == old(engine.bodies)
      ensures dragging.Some? ==>
        var id := dragging.value.body;
        var b := old(engine.bodies[id]);
        engine.bodies == old(engine.bodies)[id := b.(
          position := Vec(Spawn.ClampSpawnX(x, b.circleRadius, screenWidth), Spawn.DragSpawnY(b.circleRadius)),
          velocity := Origin, speed := 0.0, angularVelocity := 0.0)]
    {
      if dragging.None? {
        return;
      }
      var active := dragging.value;
      var b := engine.bodies[active.body];
      var radius := b.circleRadius;
      var moved := b.(position := Vec(Spawn.ClampSpawnX(x, radius, screenWidth), Spawn.DragSpawnY(radius)),
                      velocity := Origin, speed := 0.0, angularVelocity := 0.0);
      World.RetouchKeepsOk(engine.Snapshot(), engine.events, active.body, moved);
      engine.Retouch(active.body, moved);
    }

    /** releaseDraggedFruit: the dragged fruit is put at the clamped x and
        the drag height, made dynamic, stopped and given the spin
        (spinDraw - 0.5) * 0.4 from a Math.random() draw; the drag always
        ends. */
    method ReleaseDragged(x: real, spinDraw: real)
      requires Valid()
      modifies this`dragging, engine`bodies
      ensures Valid()
      ensures dragging == None
      ensures old(dragging).None? ==> engine.bodies == old(engine.bodies)
      ensures old(dragging).Some? ==>
        var id := old(dragging).value.body;
        var b := old(engine.bodies[id]);
        engine.bodies == old(engine.bodies)[id := b.(
          isStatic := false, velocity := Origin, speed := 0.0,
          position := Vec(Spawn.ClampSpawnX(x, b.circleRadius, screenWidth), Spawn.DragSpawnY(b.circleRadius)),
          angularVelocity := (spinDraw - 0.5) * 0.4)]
    {
      if dragging.None? {
        return;
      }
      var active := dragging.value;
      var b := engine.bodies[active.body];
      var radius := b.circleRadius;
      var released := b.(isStatic := false, velocity := Origin, speed := 0.0,
                         position := Vec(Spawn.ClampSpawnX(x, radius, screenWidth), Spawn.DragSpawnY(radius)),
                         angularVelocity := (spinDraw - 0.5) * 0.4);
      World.RetouchKeepsOk(engine.Snapshot(), engine.events, active.body, released);
      engine.Retouch(active.body, released);
      dragging := None;
    }

    /** onEvent for one event. */
    method OnEvent(e: GameEvent)
      requires Valid()
      modifies this`score, this`maxFruitIndex, this`running, this`engineReady, this`reported
      ensures Valid()
      ensures State() == Session.Apply(old(State()), e)
    {
      match e {
        case ScoreUpdate(amount, index) =>
          score := score + amount;
          if index > maxFruitIndex {
            maxFruitIndex := index;
          }
        case GameOver =>
          running := false;
          reported := reported + [score];
        case Started =>
          engineReady := true;
        case PlaySound(_) =>
        case AddBody(_, _) =>
      }
    }

    /** One frame of the game loop: while it runs, the tick system runs and
        every event it dispatched reaches onEvent, in order; once stopped,
        nothing moves. */
    method Frame(delta: Option<real>, update: nat -> World.StepOutcome, draws: nat -> Merge.MergeDraws)
      requires Valid()
      modifies this`score, this`maxFruitIndex, this`running, this`engineReady, this`reported, engine
      ensures Valid()
      ensures !old(running) ==> unchanged(engine) && State() == old(State())
      ensures old(running) ==>
        var n := Stepper.StepsFor(Stepper.Charged(old(engine.accumulator), Stepper.Elapsed(delta)));
        var r := Physics.TickOutcome(old(engine.Snapshot()), old(engine.events), old(engine.mergeQueue), update,
                                     old(engine.stepCount), n, draws);
        && engine.Snapshot() == r.0 && engine.outbox == old(engine.outbox) + r.1
        && engine.accumulator == Stepper.Residue(Stepper.Charged(old(engine.accumulator), Stepper.Elapsed(delta)))
        && engine.stepCount == old(engine.stepCount) + n
        && engine.events == [] && engine.mergeQueue == []
        && State() == Session.ApplyAll(old(State()), r.1)
    {
      if !running {
        return;
      }
      var from := |engine.outbox|;
      engine.Tick(delta, update, draws);
      Deliver(from);
    }

    /** The game loop hands the events dispatched since position `from` to
        onEvent, in order. */
    method Deliver(from: nat)
      requires Valid() && from <= |engine.outbox|
      modifies this`score, this`maxFruitIndex, this`running, this`engineReady, this`reported
      ensures Valid()
      ensures State() == Session.ApplyAll(old(State()), engine.outbox[from..])
    {
      ghost var s0 := State();
      var i := from;
      while i < |engine.outbox|
        invariant from <= i <= |engine.outbox|
        invariant Valid()
        invariant State() == Session.ApplyAll(s0, engine.outbox[from..i])
      {
        assert engine.outbox[from..i + 1][..i - from] == engine.outbox[from..i];
        OnEvent(engine.outbox[i]);
        i := i + 1;
      }
      assert engine.outbox[from..i] == engine.outbox[from..];
    }
  }
}
