/** The spawn gate of the game component: where a dragged fruit is placed,
    and the spam protection of beginDragFruit (a 200 ms cooldown since the
    last spawn and at most 6 spawns in a sliding 1000 ms window). */
module Spawn {
  import opened Entities
  import Fruits
  import Deadline

  /** Half the thickness of the side walls. */
  const WallHalf: real := 25.0

  /** Minimum time between two spawns, in ms. */
  const Cooldown: int := 200

  /** Length of the sliding window, in ms. */
  const Window: int := 1000

  /** Spawns allowed in one window. */
  const MaxPerWindow: int := 6

  /** clampSpawnX: x pushed right of the left wall's inner edge, then left
      of the right wall's inner edge, by the radius of the fruit. */
  function ClampSpawnX(x: real, radius: real, screenWidth: real): (c: real)
    ensures c <= screenWidth - radius - WallHalf
    ensures radius + WallHalf <= screenWidth - radius - WallHalf ==> radius + WallHalf <= c
    ensures radius + WallHalf <= x <= screenWidth - radius - WallHalf ==> c == x
  {
    var clamped := if x < radius + WallHalf then radius + WallHalf else x;
    if clamped > screenWidth - radius - WallHalf then screenWidth - radius - WallHalf else clamped
  }

  /** Clamping twice is clamping once, even when the fruit is wider than the
      gap between the walls. */
  lemma ClampIdempotent(x: real, radius: real, screenWidth: real)
    ensures ClampSpawnX(ClampSpawnX(x, radius, screenWidth), radius, screenWidth) == ClampSpawnX(x, radius, screenWidth)
  {
  }

  /** dragSpawnY: the fixed height of a dragged fruit, 30 above the line,
      whatever its radius. */
  function DragSpawnY(radius: real): (y: real)
    ensures y == Fruits.DeadlineY - 30.0
    ensures y < Fruits.DeadlineY
  {
    Fruits.DeadlineY - 30.0
  }

  /** A fruit held at the drag height while its spawning flag is set keeps
      the flag through the deadline scan and never raises GAME_OVER. */
  lemma DraggedFruitIsSafe(b: Body)
    requires b.isSpawning && b.circleRadius >= 0.0 && b.position.y == DragSpawnY(b.circleRadius)
    ensures Deadline.Settle(b) == b
    ensures !Deadline.Triggers(Deadline.Settle(b))
  {
  }

  // -------------------------------------------------------------- limiter

  /** The spam-protection state: lastSpawnRef and spawnTimestampsRef. */
  datatype Limiter = Limiter(lastSpawn: int, stamps: seq<int>)

  /** The limiter of a fresh component. */
  const Initial: Limiter := Limiter(0, [])

  /** The window filter: the timestamps less than a window old, in order. */
  function Recent(stamps: seq<int>, now: int): (r: seq<int>)
    ensures |r| <= |stamps|
    ensures forall t :: t in r <==> t in stamps && now - t < Window
    ensures forall i :: 0 <= i < |r| ==> now - r[i] < Window
    decreases |stamps|
  {
    if stamps == [] then []
    else
      var rest := Recent(stamps[..|stamps| - 1], now);
      var t := stamps[|stamps| - 1];
      assert forall u :: u in stamps <==> u in stamps[..|stamps| - 1] || u == t;
      if now - t < Window then rest + [t] else rest
  }

  /** How beginDragFruit's spam checks end. */
  datatype Admission = OnCooldown | WindowFull | Admitted

  /** The spam checks of beginDragFruit at time now, and the limiter they
      leave: a cooldown rejection leaves it as it was; the window check
      first drops the old timestamps, then rejects or records now. */
  function Admit(l: Limiter, now: int): (r: (Admission, Limiter))
    ensures r.0 == OnCooldown <==> now - l.lastSpawn < Cooldown
    ensures r.0 == OnCooldown ==> r.1 == l
    ensures r.0 == WindowFull ==> r.1 == l.(stamps := Recent(l.stamps, now)) && |r.1.stamps| >= MaxPerWindow
    ensures r.0 == Admitted ==> r.1 == Limiter(now, Recent(l.stamps, now) + [now])
    ensures r.0 == Admitted ==> |r.1.stamps| <= MaxPerWindow
    ensures r.0 == Admitted ==> forall i :: 0 <= i < |r.1.stamps| ==> now - r.1.stamps[i] < Window
  {
    if now - l.lastSpawn < Cooldown then (OnCooldown, l)
    else
      var pruned := Recent(l.stamps, now);
      if |pruned| >= MaxPerWindow then (WindowFull, l.(stamps := pruned))
      else (Admitted, Limiter(now, pruned + [now]))
  }

  /** Timestamps in increasing order, at least a cooldown apart. */
  predicate Spaced(stamps: seq<int>)
  {
    forall i, j :: 0 <= i < j < |stamps| ==> stamps[i] + Cooldown <= stamps[j]
  }

  /** What every limiter reached from the initial one satisfies: its
      timestamps are spaced and none is later than the last spawn. */
  predicate LimiterOk(l: Limiter)
  {
    Spaced(l.stamps) && forall i :: 0 <= i < |l.stamps| ==> l.stamps[i] <= l.lastSpawn
  }

  lemma InitialOk()
    ensures LimiterOk(Initial)
  {
  }

  /** The window filter keeps the order and spacing of what it keeps. */
  lemma {:induction false} RecentKeepsSpaced(stamps: seq<int>, now: int, bound: int)
    requires Spaced(stamps) && forall i :: 0 <= i < |stamps| ==> stamps[i] <= bound
    ensures Spaced(Recent(stamps, now))
    ensures forall i :: 0 <= i < |Recent(stamps, now)| ==> Recent(stamps, now)[i] <= bound
    decreases |stamps|
  {
    if stamps != [] {
      var init := stamps[..|stamps| - 1];
      var t := stamps[|stamps| - 1];
      assert Spaced(init) by {
        forall i, j | 0 <= i < j < |init| ensures init[i] + Cooldown <= init[j] {
          assert init[i] == stamps[i] && init[j] == stamps[j];
        }
      }
      RecentKeepsSpaced(init, now, bound);
      var rest := Recent(init, now);
      forall i | 0 <= i < |rest| ensures rest[i] + Cooldown <= t {
        assert rest[i] in init;
        var j :| 0 <= j < |init| && init[j] == rest[i];
        assert stamps[j] == init[j];
      }
    }
  }

  /** Every spam check keeps the limiter invariant, whatever the clock
      does: an admission needs a full cooldown since the last spawn, which
      is later than every recorded timestamp. */
  lemma AdmitKeepsOk(l: Limiter, now: int)
    requires LimiterOk(l)
    ensures LimiterOk(Admit(l, now).1)
  {
    RecentKeepsSpaced(l.stamps, now, l.lastSpawn);
  }

  /** In a spaced sequence the last timestamp is at least a cooldown per gap
      after the first. */
  lemma {:induction false} SpacedSpan(stamps: seq<int>)
    requires Spaced(stamps) && |stamps| > 0
    ensures stamps[|stamps| - 1] - stamps[0] >= Cooldown * (|stamps| - 1)
    decreases |stamps|
  {
    if |stamps| > 1 {
      var init := stamps[..|stamps| - 1];
      assert Spaced(init) by {
        forall i, j | 0 <= i < j < |init| ensures init[i] + Cooldown <= init[j] {
          assert init[i] == stamps[i] && init[j] == stamps[j];
        }
      }
      SpacedSpan(init);
      assert init[|init| - 1] == stamps[|stamps| - 2];
    }
  }

  /** When the cooldown check passes, the window keeps at most 4 timestamps:
      they are all in (now - 1000, now - 200] and 200 apart. */
  lemma AtMostFourRecent(l: Limiter, now: int)
    requires LimiterOk(l) && now - l.lastSpawn >= Cooldown
    ensures |Recent(l.stamps, now)| <= 4
  {
    var r := Recent(l.stamps, now);
    RecentKeepsSpaced(l.stamps, now, l.lastSpawn);
    if |r| > 0 {
      SpacedSpan(r);
      assert r[0] in l.stamps && r[|r| - 1] in l.stamps;
      assert now - r[0] < Window;
      assert r[|r| - 1] <= l.lastSpawn;
    }
  }

  /** So from a valid limiter the 6-per-window rejection is never reached:
      the spam checks end on the cooldown or admit the spawn. */
  lemma WindowFullUnreachable(l: Limiter, now: int)
    requires LimiterOk(l)
    ensures Admit(l, now).0 != WindowFull
  {
    if now - l.lastSpawn >= Cooldown {
      AtMostFourRecent(l, now);
    }
  }

  /** The checks over a run of spawn attempts, at the given times. */
  function AdmitAll(l: Limiter, times: seq<int>): (r: Limiter)
    decreases |times|
  {
    if times == [] then l else Admit(AdmitAll(l, times[..|times| - 1]), times[|times| - 1]).1
  }

  /** From the initial limiter, at any times, the recorded timestamps stay
      spaced a cooldown apart and the window never fills up. */
  lemma {:induction false} AdmitAllOk(times: seq<int>)
    ensures LimiterOk(AdmitAll(Initial, times))
    ensures forall now :: Admit(AdmitAll(Initial, times), now).0 != WindowFull
    decreases |times|
  {
    if times != [] {
      AdmitAllOk(times[..|times| - 1]);
      AdmitKeepsOk(AdmitAll(Initial, times[..|times| - 1]), times[|times| - 1]);
    }
    forall now ensures Admit(AdmitAll(Initial, times), now).0 != WindowFull {
      WindowFullUnreachable(AdmitAll(Initial, times), now);
    }
  }
}
