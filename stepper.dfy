/** The fixed-timestep accumulator of the tick system: elapsed frame time is
    banked, capped at 250 ms, and spent in steps of 1000/60 ms. */
module Stepper {
  import opened Options

  /** The fixed step, 1000/60 ms. */
  const Dt: real := 1000.0 / 60.0

  /** The cap on banked time, in ms. */
  const MaxAccum: real := 250.0

  /** time.delta when the game loop supplies a number, one step otherwise. */
  function Elapsed(delta: Option<real>): (e: real)
    ensures delta.Some? ==> e == delta.value
    ensures delta.None? ==> e == Dt
  {
    match delta
    case Some(d) => d
    case None => Dt
  }

  /** The accumulator after adding the elapsed time and applying the cap. */
  function Charged(acc: real, elapsed: real): (a: real)
    ensures a <= MaxAccum
    ensures a <= acc + elapsed
    ensures acc + elapsed <= MaxAccum ==> a == acc + elapsed
    ensures acc + elapsed > MaxAccum ==> a == MaxAccum
  {
    if acc + elapsed > MaxAccum then MaxAccum else acc + elapsed
  }

  /** The length of n fixed steps, in ms. The step is written out as a
      literal so that the arithmetic on it stays linear. */
  function Span(n: int): real
  {
    n as real * (1000.0 / 60.0)
  }

  /** The number of fixed steps the stepping loop takes from a banked time
      a: the whole part of a / Dt (0.06 == 1 / Dt), none below one step. */
  function StepsFor(a: real): nat
  {
    if a < Dt then 0 else (a * 0.06).Floor
  }

  /** What is left in the accumulator once the steps have been taken. */
  function Residue(a: real): real
  {
    a - Span(StepsFor(a))
  }

  /** The step count is the unique n with a == n * Dt + rest and 0 <= rest < Dt. */
  lemma StepsCharacterised(a: real, n: nat, rest: real)
    requires a == Span(n) + rest && 0.0 <= rest < Dt
    ensures StepsFor(a) == n && Residue(a) == rest
  {
    if n > 0 {
      assert a * 0.06 == n as real + rest * 0.06;
    }
  }

  /** While at least one step is still banked after k steps, the step count
      exceeds k: the stepping loop cannot run past StepsFor. */
  lemma StepsExceed(a: real, k: nat)
    requires a - Span(k) >= Dt
    ensures k + 1 <= StepsFor(a)
  {
    assert a >= Span(k + 1);
    assert a * 0.06 >= (k + 1) as real;
  }

  /** Whatever was banked, less than one step is left over, and nothing
      negative is left from a non-negative bank. */
  lemma ResidueBelowStep(a: real)
    ensures Residue(a) < Dt
    ensures a >= 0.0 ==> Residue(a) >= 0.0
  {
    if a >= Dt {
      var n := (a * 0.06).Floor;
      assert n as real <= a * 0.06 < n as real + 1.0;
    }
  }

  /** Bounds of one tick's stepping, from an accumulator in [0, Dt): at most
      15 steps; none for a non-positive elapsed time; the accumulator stays in
      [0, Dt) unless the elapsed time was negative enough to drive it below
      zero, in which case no step runs and it keeps the negative value. */
  lemma TickStepBounds(acc: real, elapsed: real)
    requires 0.0 <= acc < Dt
    ensures StepsFor(Charged(acc, elapsed)) <= 15
    ensures elapsed <= 0.0 ==> StepsFor(Charged(acc, elapsed)) == 0
    ensures acc + elapsed >= 0.0 ==> 0.0 <= Residue(Charged(acc, elapsed)) < Dt
    ensures acc + elapsed < 0.0 ==> Residue(Charged(acc, elapsed)) == acc + elapsed
    ensures Span(StepsFor(Charged(acc, elapsed))) + Residue(Charged(acc, elapsed))
            == Charged(acc, elapsed)
  {
    var a := Charged(acc, elapsed);
    if a >= Dt {
      var n := (a * 0.06).Floor;
      assert n as real <= a * 0.06 < n as real + 1.0;
      StepsCharacterised(a, n, a - Span(n));
      assert a * 0.06 <= 15.0;
    }
  }

  /** The total sum of a sequence of frame times. */
  function Sum(es: seq<real>): real
  {
    if es == [] then 0.0 else es[0] + Sum(es[1..])
  }

  /** Ticks run back to back: the total number of steps taken and the final
      accumulator. */
  function Run(acc: real, es: seq<real>): (real, nat)
    decreases |es|
  {
    if es == [] then (acc, 0)
    else
      var a := Charged(acc, es[0]);
      var (last, n) := Run(Residue(a), es[1..]);
      (last, StepsFor(a) + n)
  }

  /** Determinism under batching: as long as the cap is never reached, feeding
      the frame times one tick at a time takes exactly the steps, and leaves
      exactly the accumulator, that one tick with their sum would. */
  lemma {:induction false} BatchingInvariance(acc: real, es: seq<real>)
    requires 0.0 <= acc < Dt
    requires forall i :: 0 <= i < |es| ==> es[i] >= 0.0
    requires acc + Sum(es) <= MaxAccum
    ensures Run(acc, es) == (Residue(Charged(acc, Sum(es))), StepsFor(Charged(acc, Sum(es))))
    decreases |es|
  {
    if es != [] {
      var a := acc + es[0];
      SumNonNegative(es[1..]);
      assert Charged(acc, es[0]) == a;
      TickStepBounds(acc, es[0]);
      var r := Residue(a);
      BatchingInvariance(r, es[1..]);
      var b := r + Sum(es[1..]);
      TickStepBounds(r, Sum(es[1..]));
      assert Charged(r, Sum(es[1..])) == b;
      StepsCharacterised(a + Sum(es[1..]), StepsFor(a) + StepsFor(b), Residue(b));
    }
  }

  lemma {:induction false} SumNonNegative(es: seq<real>)
    requires forall i :: 0 <= i < |es| ==> es[i] >= 0.0
    ensures Sum(es) >= 0.0
  {
    if es != [] { SumNonNegative(es[1..]); }
  }

  /** Three 16 ms frames step the world as often as one 48 ms frame. */
  lemma ThreeFramesOrOne()
    ensures Run(0.0, [16.0, 16.0, 16.0]) == Run(0.0, [48.0])
    ensures Run(0.0, [48.0]).1 == 2
  {
    assert Sum([16.0, 16.0, 16.0]) == 48.0;
    assert Sum([48.0]) == 48.0;
    BatchingInvariance(0.0, [16.0, 16.0, 16.0]);
    BatchingInvariance(0.0, [48.0]);
    StepsCharacterised(48.0, 2, 48.0 - Span(2));
  }
}
