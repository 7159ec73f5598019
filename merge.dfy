/** The merge step of the tick system: draining the queue of touching fruit
    pairs, fusing two fruits of one rank into one fruit of the next rank. */
module Merge {
  import opened Entities
  import Fruits

  /** What one merge takes from the clock and the random source:
      Math.random() for the spin of the new fruit, and Date.now() with
      Math.random() for the key of its entity. (Its random starting angle is
      cosmetic and not modelled.) */
  datatype MergeDraws = MergeDraws(spinDraw: real, now: int, idDraw: real)

  /** The key the merge gives the new entity. */
  function NewKey(d: MergeDraws): Key { Generated(d.now, d.idDraw) }

  /** A queued pair merges when both bodies exist and are fruits of the same
      rank, neither has merged already, and both are still held by an entity
      (a body whose ADD_BODY has not been registered yet is not). */
  predicate Eligible(s: Scene, p: Pair)
  {
    && p.bodyA in s.bodies && p.bodyB in s.bodies
    && s.bodies[p.bodyA].tag == Fruit && s.bodies[p.bodyB].tag == Fruit
    && s.bodies[p.bodyA].fruitIndex == s.bodies[p.bodyB].fruitIndex
    && !s.bodies[p.bodyA].isMerged && !s.bodies[p.bodyB].isMerged
    && p.bodyA in s.entities.Values && p.bodyB in s.entities.Values
  }

  function Midpoint(a: Vec, b: Vec): (m: Vec)
    ensures m.x - a.x == b.x - m.x && m.y - a.y == b.y - m.y
  {
    Vec((a.x + b.x) / 2.0, (a.y + b.y) / 2.0)
  }

  /** The fruit a merge creates: a new dynamic circle of the given rank's
      radius, at rest, spun by (spinDraw - 0.5) * 0.4 from a Math.random()
      draw, and no flags set. */
  function MergedBody(rank: int, at: Vec, spinDraw: real): (b: Body)
    requires Fruits.IsRank(rank)
    ensures b.tag == Fruit && b.fruitIndex == rank && b.position == at
    ensures b.circleRadius == Fruits.Radius(rank)
    ensures b.velocity == Origin && b.speed == 0.0
    ensures !b.isStatic && !b.isSpawning && !b.isMerged
    ensures b.angularVelocity == (spinDraw - 0.5) * 0.4
    ensures 0.0 <= spinDraw < 1.0 ==> -0.2 <= b.angularVelocity < 0.2
  {
    Body(Fruit, rank, at, Fruits.Radius(rank), Origin, 0.0, (spinDraw - 0.5) * 0.4, false, false, false)
  }

  /** The entities that remain when the two merged bodies lose theirs. */
  function Without(entities: map<Key, BodyId>, a: BodyId, b: BodyId): map<Key, BodyId>
  {
    map k | k in entities && entities[k] != a && entities[k] != b :: entities[k]
  }

  /** The two bodies flagged merged, their entities deleted and both taken
      out of the world. */
  function Retire(s: Scene, a: BodyId, b: BodyId): (r: Scene)
    requires a in s.bodies && b in s.bodies
  {
    Scene(s.bodies[a := s.bodies[a].(isMerged := true)][b := s.bodies[b].(isMerged := true)],
          Without(s.entities, a, b), s.world - {a, b}, s.nextId)
  }

  /** A new fruit of the given rank put into the world under the given key. */
  function AddFruit(s: Scene, rank: int, at: Vec, spinDraw: real, key: Key): (r: Scene)
    requires Fruits.IsRank(rank)
  {
    var id := s.nextId;
    Scene(s.bodies[id := MergedBody(rank, at, spinDraw)], s.entities[key := id], s.world + {id}, id + 1)
  }

  /** One queued pair, processed as the drain loop does: an ineligible pair
      changes nothing; an eligible one flags both bodies merged, removes their
      entities and their world membership, and, below the terminal rank,
      adds one fruit of the next rank at the midpoint under a new key and
      dispatches its score and the pop sound. Two terminal fruits simply
      vanish, and nothing is dispatched: that merge scores nothing. */
  function MergePair(s: Scene, p: Pair, d: MergeDraws): (r: (Scene, seq<GameEvent>))
    requires ArenaOk(s)
    ensures ArenaOk(r.0)
    ensures !Eligible(s, p) ==> r == (s, [])
    ensures forall id :: id in s.bodies ==>
      id in r.0.bodies && (s.bodies[id].isMerged ==> r.0.bodies[id].isMerged)
    ensures Eligible(s, p) ==> r.0.bodies[p.bodyA].isMerged && r.0.bodies[p.bodyB].isMerged
  {
    if !Eligible(s, p) then (s, [])
    else
      var a := s.bodies[p.bodyA];
      var b := s.bodies[p.bodyB];
      var retired := Retire(s, p.bodyA, p.bodyB);
      var rank := a.fruitIndex + 1;
      if rank < |Fruits.FRUITS| then
        (AddFruit(retired, rank, Midpoint(a.position, b.position), d.spinDraw, NewKey(d)),
         [ScoreUpdate(Fruits.FRUITS[rank].score, rank), PlaySound("pop")])
      else
        (retired, [])
  }

  /** Merging keeps every invariant of the scene: the new body takes a fresh
      identity, and the two merged bodies lose their entities before they
      are flagged. */
  lemma MergePairKeepsSceneOk(s: Scene, p: Pair, d: MergeDraws)
    requires SceneOk(s)
    ensures SceneOk(MergePair(s, p, d).0)
  {
    if Eligible(s, p) {
      var retired := Retire(s, p.bodyA, p.bodyB);
      assert SceneOk(retired);
      var rank := s.bodies[p.bodyA].fruitIndex + 1;
      if rank < |Fruits.FRUITS| {
        var at := Midpoint(s.bodies[p.bodyA].position, s.bodies[p.bodyB].position);
        var added := AddFruit(retired, rank, at, d.spinDraw, NewKey(d));
        assert retired.nextId !in retired.entities.Values;
        assert SceneOk(added);
      }
    }
  }

  /** What an eligible pair does to the scene and which events it dispatches. */
  lemma MergePairEffect(s: Scene, p: Pair, d: MergeDraws)
    requires ArenaOk(s) && Eligible(s, p)
    ensures
      var r := MergePair(s, p, d);
      var a := s.bodies[p.bodyA];
      var b := s.bodies[p.bodyB];
      var rank := a.fruitIndex + 1;
      && p.bodyA in r.0.bodies && p.bodyB in r.0.bodies
      && r.0.bodies[p.bodyA] == a.(isMerged := true)
      && r.0.bodies[p.bodyB] == b.(isMerged := true)
      && p.bodyA !in r.0.world && p.bodyB !in r.0.world
      && p.bodyA !in r.0.entities.Values && p.bodyB !in r.0.entities.Values
      && (forall id :: id in s.bodies && id != p.bodyA && id != p.bodyB ==>
            id in r.0.bodies && r.0.bodies[id] == s.bodies[id])
      && (rank < |Fruits.FRUITS| ==>
            && r.0.nextId == s.nextId + 1
            && r.0.bodies.Keys == s.bodies.Keys + {s.nextId}
            && r.0.bodies[s.nextId] == MergedBody(rank, Midpoint(a.position, b.position), d.spinDraw)
            && r.0.world == s.world - {p.bodyA, p.bodyB} + {s.nextId}
            && r.0.entities == Without(s.entities, p.bodyA, p.bodyB)[NewKey(d) := s.nextId]
            && r.1 == [ScoreUpdate(Fruits.FRUITS[rank].score, rank), PlaySound("pop")])
      && (rank >= |Fruits.FRUITS| ==>
            && r.0.nextId == s.nextId
            && r.0.bodies.Keys == s.bodies.Keys
            && r.0.world == s.world - {p.bodyA, p.bodyB}
            && r.0.entities == Without(s.entities, p.bodyA, p.bodyB)
            && r.1 == [])
  {
  }

  /** The first n pairs of the queue drained front to back; the i-th pair
      uses the i-th draws. */
  function DrainPrefix(s: Scene, q: seq<Pair>, draws: nat -> MergeDraws, n: nat): (r: (Scene, seq<GameEvent>))
    requires ArenaOk(s) && n <= |q|
    ensures ArenaOk(r.0)
    ensures s.bodies.Keys <= r.0.bodies.Keys
  {
    if n == 0 then (s, [])
    else
      var before := DrainPrefix(s, q, draws, n - 1);
      var last := MergePair(before.0, q[n - 1], draws(n - 1));
      (last.0, before.1 + last.1)
  }

  /** The whole queue drained. */
  function Drain(s: Scene, q: seq<Pair>, draws: nat -> MergeDraws): (r: (Scene, seq<GameEvent>))
    requires ArenaOk(s)
    ensures ArenaOk(r.0)
  {
    DrainPrefix(s, q, draws, |q|)
  }

  /** Whether the j-th queued pair merged. */
  ghost predicate MergedAt(s: Scene, q: seq<Pair>, draws: nat -> MergeDraws, j: nat)
    requires ArenaOk(s) && j < |q|
  {
    Eligible(DrainPrefix(s, q, draws, j).0, q[j])
  }

  /** A body flagged merged after the first n pairs stays flagged after
      every longer prefix of the queue. */
  lemma MergedStaysMerged(s: Scene, q: seq<Pair>, draws: nat -> MergeDraws, id: BodyId, n: nat, m: nat)
    requires ArenaOk(s) && n <= m <= |q|
    requires id in DrainPrefix(s, q, draws, n).0.bodies && DrainPrefix(s, q, draws, n).0.bodies[id].isMerged
    ensures id in DrainPrefix(s, q, draws, m).0.bodies && DrainPrefix(s, q, draws, m).0.bodies[id].isMerged
  {
    var i := n;
    while i < m
      invariant n <= i <= m
      invariant id in DrainPrefix(s, q, draws, i).0.bodies && DrainPrefix(s, q, draws, i).0.bodies[id].isMerged
    {
      DrainStepKeepsMerged(s, q, draws, id, i + 1);
      i := i + 1;
    }
  }

  lemma DrainStepKeepsMerged(s: Scene, q: seq<Pair>, draws: nat -> MergeDraws, id: BodyId, m: nat)
    requires ArenaOk(s) && 0 < m <= |q|
    requires id in DrainPrefix(s, q, draws, m - 1).0.bodies && DrainPrefix(s, q, draws, m - 1).0.bodies[id].isMerged
    ensures id in DrainPrefix(s, q, draws, m).0.bodies && DrainPrefix(s, q, draws, m).0.bodies[id].isMerged
  {
  }

  /** Draining keeps every invariant of the scene. */
  lemma {:induction false} DrainKeepsSceneOk(s: Scene, q: seq<Pair>, draws: nat -> MergeDraws, n: nat)
    requires SceneOk(s) && n <= |q|
    ensures SceneOk(DrainPrefix(s, q, draws, n).0)
  {
    if n > 0 {
      DrainKeepsSceneOk(s, q, draws, n - 1);
      MergePairKeepsSceneOk(DrainPrefix(s, q, draws, n - 1).0, q[n - 1], draws(n - 1));
    }
  }

  /** Each body takes part in at most one merge per drain: once the j-th pair
      merged, no later pair that names either of its bodies merges. */
  lemma AtMostOneMergePerBody(s: Scene, q: seq<Pair>, draws: nat -> MergeDraws, j: nat, k: nat)
    requires ArenaOk(s) && j < k < |q|
    requires MergedAt(s, q, draws, j) && MergedAt(s, q, draws, k)
    ensures q[k].bodyA != q[j].bodyA && q[k].bodyA != q[j].bodyB
    ensures q[k].bodyB != q[j].bodyA && q[k].bodyB != q[j].bodyB
  {
    MergedStaysMerged(s, q, draws, q[j].bodyA, j + 1, k);
    MergedStaysMerged(s, q, draws, q[j].bodyB, j + 1, k);
  }
}
