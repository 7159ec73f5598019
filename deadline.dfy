/** The last stage of the tick: every fruit held by an entity has its
    spawning flag settled against the deadline line, and a fruit that rests
    above the line without the flag raises GAME_OVER. */
module Deadline {
  import opened Entities
  import Fruits

  /** The speed under which a fruit above the line counts as resting. */
  const RestingSpeed: real := 0.15

  /** The grace band the flag-clearing code tests inside the "above the line"
      branch: a top edge more than this far below the line. */
  const GraceBand: real := 30.0

  /** The flag update of one fruit, branch for branch as the scan writes it:
      above the line a spawning fruit is cleared only when its top is more
      than the grace band below the line (which contradicts being above it);
      on or below the line the flag is cleared. */
  function Settle(b: Body): (r: Body)
    ensures r.isSpawning == (b.isSpawning && Top(b) < Fruits.DeadlineY)
    ensures r == b.(isSpawning := r.isSpawning)
  {
    if Top(b) < Fruits.DeadlineY then
      if b.isSpawning then
        if Top(b) > Fruits.DeadlineY + GraceBand then b.(isSpawning := false) else b
      else
        b
    else
      if b.isSpawning then b.(isSpawning := false) else b
  }

  /** The game-over test applied to a fruit after its flag is settled. */
  predicate Triggers(b: Body)
  {
    !b.isSpawning && Top(b) < Fruits.DeadlineY && b.speed < RestingSpeed
  }

  /** Settling twice is settling once, so a body seen twice by the scan ends
      as if seen once. */
  lemma SettleIdempotent(b: Body)
    ensures Settle(Settle(b)) == Settle(b)
    ensures Triggers(Settle(Settle(b))) == Triggers(Settle(b))
  {
  }

  /** The flag is only ever cleared, never set. */
  lemma SettleOnlyClears(b: Body)
    ensures Settle(b).isSpawning ==> b.isSpawning
    ensures !b.isSpawning ==> Settle(b) == b
  {
  }

  /** A fruit raises GAME_OVER in a scan exactly when it was not spawning,
      its top is above the line and it moves slower than the resting speed.
      A spawning fruit never raises it: above the line its flag is kept, and
      on or below the line the position test fails. */
  lemma TriggerExactly(b: Body)
    ensures Triggers(Settle(b)) <==>
      !b.isSpawning && Top(b) < Fruits.DeadlineY && b.speed < RestingSpeed
    ensures b.isSpawning ==> !Triggers(Settle(b))
  {
  }

  /** The bodies the scan visits: fruits held by an entity. */
  predicate Watched(s: Scene, id: BodyId)
  {
    id in s.bodies && id in s.entities.Values && s.bodies[id].tag == Fruit
  }

  /** The bodies held under the given keys. */
  function HeldBy(entities: map<Key, BodyId>, keys: set<Key>): (held: set<BodyId>)
    ensures forall id :: id in held <==> exists k :: k in keys && k in entities && entities[k] == id
  {
    set k | k in keys && k in entities :: entities[k]
  }

  /** The arena once the scan has visited the given keys: the fruits they
      hold settled, every other body as it was. */
  function SettledAmong(s: Scene, keys: set<Key>): (r: Scene)
    ensures r.entities == s.entities && r.world == s.world && r.nextId == s.nextId
    ensures r.bodies.Keys == s.bodies.Keys
  {
    s.(bodies := map id | id in s.bodies ::
         if id in HeldBy(s.entities, keys) && s.bodies[id].tag == Fruit then Settle(s.bodies[id]) else s.bodies[id])
  }

  /** The arena after the scan: watched fruits settled, every other body as
      it was. */
  function Settled(s: Scene): (r: Scene)
    ensures r.entities == s.entities && r.world == s.world && r.nextId == s.nextId
    ensures r.bodies.Keys == s.bodies.Keys
    ensures forall id :: id in s.bodies && !Watched(s, id) ==> r.bodies[id] == s.bodies[id]
    ensures forall id :: Watched(s, id) ==>
      r.bodies[id] == s.bodies[id].(isSpawning := s.bodies[id].isSpawning && Top(s.bodies[id]) < Fruits.DeadlineY)
  {
    var r := SettledAmong(s, s.entities.Keys);
    assert forall id :: id in s.entities.Values ==> id in HeldBy(s.entities, s.entities.Keys);
    r
  }

  /** Whether the fruit held under key k raises GAME_OVER in the scan. */
  predicate Alarm(s: Scene, k: Key)
  {
    k in s.entities && s.entities[k] in s.bodies && s.bodies[s.entities[k]].tag == Fruit
    && Triggers(Settle(s.bodies[s.entities[k]]))
  }

  /** The keys among `keys` whose fruit raises GAME_OVER in the scan. */
  function AlarmsAmong(s: Scene, keys: set<Key>): (a: set<Key>)
    ensures a <= keys
    ensures forall k :: k in a <==> k in keys && Alarm(s, k)
  {
    set k | k in keys && Alarm(s, k)
  }

  /** The keys whose fruit raises GAME_OVER in the scan. */
  function Alarms(s: Scene): (a: set<Key>)
    ensures forall k :: k in a <==>
      k in s.entities && s.entities[k] in s.bodies && s.bodies[s.entities[k]].tag == Fruit
      && !s.bodies[s.entities[k]].isSpawning && Top(s.bodies[s.entities[k]]) < Fruits.DeadlineY
      && s.bodies[s.entities[k]].speed < RestingSpeed
  {
    AlarmsAmong(s, s.entities.Keys)
  }

  /** One more key visited by the scan: the fruit it holds is settled, and
      a second visit of that fruit would change nothing. */
  lemma SettledAmongStep(s: Scene, seen: set<Key>, k: Key)
    requires k in s.entities && s.entities[k] in s.bodies && k !in seen
    ensures
      var id := s.entities[k];
      var before := SettledAmong(s, seen);
      && id in before.bodies && before.bodies[id].tag == s.bodies[id].tag
      && SettledAmong(s, seen + {k}).bodies ==
           (if s.bodies[id].tag == Fruit then before.bodies[id := Settle(before.bodies[id])] else before.bodies)
      && (Alarm(s, k) <==> s.bodies[id].tag == Fruit && Triggers(Settle(before.bodies[id])))
  {
    var id := s.entities[k];
    SettleIdempotent(s.bodies[id]);
    assert id in HeldBy(s.entities, seen + {k});
  }

  /** One more key visited by the scan adds one GAME_OVER exactly when its
      fruit raises the alarm. */
  lemma AlarmsAmongStep(s: Scene, seen: set<Key>, k: Key)
    requires k !in seen
    ensures GameOvers(|AlarmsAmong(s, seen + {k})|) ==
      GameOvers(|AlarmsAmong(s, seen)|) + (if Alarm(s, k) then [GameOver] else [])
  {
    if Alarm(s, k) {
      assert AlarmsAmong(s, seen + {k}) == AlarmsAmong(s, seen) + {k};
    } else {
      assert AlarmsAmong(s, seen + {k}) == AlarmsAmong(s, seen);
    }
  }

  /** Scanning no key changes no body and raises no alarm. */
  lemma ScanStarts(s: Scene)
    ensures SettledAmong(s, {}) == s
    ensures AlarmsAmong(s, {}) == {}
  {
    assert SettledAmong(s, {}).bodies == s.bodies;
  }

  /** The whole scan is the scan of every key of the entities. */
  lemma ScanVisitsAll(s: Scene)
    ensures Settled(s) == SettledAmong(s, s.entities.Keys)
    ensures Alarms(s) == AlarmsAmong(s, s.entities.Keys)
  {
  }

  /** GAME_OVER, dispatched n times. */
  function GameOvers(n: nat): (es: seq<GameEvent>)
    ensures |es| == n && forall i :: 0 <= i < n ==> es[i] == GameOver
  {
    seq(n, _ => GameOver)
  }

  /** The scan keeps every invariant of the scene: it touches only the
      spawning flag. */
  lemma SettledKeepsSceneOk(s: Scene)
    requires SceneOk(s)
    ensures SceneOk(Settled(s))
  {
    var r := Settled(s);
    assert forall id :: id in r.bodies ==>
      && r.bodies[id].tag == s.bodies[id].tag
      && r.bodies[id].fruitIndex == s.bodies[id].fruitIndex
      && r.bodies[id].isMerged == s.bodies[id].isMerged;
  }
}
