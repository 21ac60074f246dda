/** The quantized sampling grid (uniform_sampler.cpp). */
module UniformSampler {
  import opened Reals
  import opened Trajectory

  function Ceil(x: real): int {
    -((-x).Floor)
  }

  /** `calculate_quantized_samples`; None is the source's invalid_argument. */
  datatype Count = Samples(n: nat) | Refused

  function QuantizedSamples(duration: real, frequency: real): (c: Count)
    ensures c.Refused? <==> duration <= 0.0 || frequency <= 0.0
  {
    if duration <= 0.0 || frequency <= 0.0 then Refused
    else
      PositiveCeil(duration, frequency);
      Samples(Ceil(duration * frequency) + 1)
  }

  lemma PositiveCeil(a: real, b: real)
    requires 0.0 < a && 0.0 < b
    ensures 0 < Ceil(a * b)
  {
    MulPos(a, b);
  }

  /** The grid never has fewer than two samples, its spacing is positive and at most one period of
      the requested frequency, and one sample fewer would overshoot that period. */
  lemma QuantizedSpacing(duration: real, frequency: real)
    requires 0.0 < duration && 0.0 < frequency
    ensures var n := QuantizedSamples(duration, frequency).n;
            n >= 2 && 0.0 < duration / (n - 1) as real <= 1.0 / frequency &&
            (n > 2 ==> 1.0 / frequency < duration / (n - 2) as real)
  {
    PositiveCeil(duration, frequency);
    var n := QuantizedSamples(duration, frequency).n;
    var k := (n - 1) as real;
    var x, p := duration * frequency, 1.0 / frequency;
    assert p * frequency == 1.0;
    assert x * p == duration by { assert x * p == duration * (frequency * p); }
    DivGe(1.0, 0.0, frequency);
    assert 0.0 < p;
    assert x <= k < x + 1.0;
    DivGe(duration, 0.0, k);
    assert duration / k * k == duration;
    MulMono(x, k, p);
    DivLe(duration, p, k);
    assert k * p == p * k;
    if n > 2 {
      MulPos(x - (k - 1.0), p);
      assert (x - (k - 1.0)) * p == duration - (k - 1.0) * p;
      DivLe(duration, p, k - 1.0);
      assert (k - 1.0) * p == p * (k - 1.0);
    }
  }

  datatype NextResult = Next(sample: Sample) | Exhausted | Failed

  class Sampler {
    const numSamples: nat
    const start: real
    var nextSample: nat

    ghost predicate Valid()
      reads this
    {
      1 <= numSamples && nextSample <= numSamples
    }

    constructor (numSamples: nat, start: real)
      ensures this.numSamples == numSamples && this.start == start && nextSample == 0
    {
      this.numSamples, this.start, this.nextSample := numSamples, start, 0;
    }

    function Remaining(): nat
      requires nextSample <= numSamples
      reads this
    {
      numSamples - nextSample
    }

    /** `advance`: seek the cursor to the next grid time, if there is one. */
    method Advance(cursor: Cursor) returns (more: bool)
      requires Valid() && cursor.Valid()
      modifies this, cursor
      ensures Valid() && cursor.Valid()
      ensures more == (old(nextSample) < numSamples)
      ensures !more ==> nextSample == old(nextSample)
      ensures more ==> nextSample == old(nextSample) + 1
      ensures more ==>
                var t := GridTime(numSamples, start, Duration(cursor.points), old(nextSample));
                0.0 <= t <= Duration(cursor.points) ==> cursor.time == At(t) && cursor.Settled(t)
    {
      if nextSample == numSamples {
        return false;
      }
      var when := if nextSample == numSamples - 1 then 1.0 else nextSample as real / (numSamples - 1) as real;
      cursor.Seek(Lerp(start, cursor.points[|cursor.points| - 1].time, when));
      nextSample := nextSample + 1;
      more := true;
    }

    /** `next`: advance, then sample the cursor. A sample that cannot be taken throws. */
    method TakeNext(cursor: Cursor) returns (r: NextResult)
      requires Valid() && cursor.Valid()
      modifies this, cursor
      ensures Valid() && cursor.Valid()
      ensures r.Exhausted? <==> old(nextSample) == numSamples
      ensures r.Exhausted? ==> nextSample == old(nextSample)
      ensures !r.Exhausted? ==> nextSample == old(nextSample) + 1
      ensures !r.Exhausted? ==>
                var t := GridTime(numSamples, start, Duration(cursor.points), old(nextSample));
                Samplable(cursor.points, t) ==>
                  var state := StateFrom(PointAt(cursor.points, t), t);
                  r == Next(Sample(t, state.(s := Min(state.s, cursor.length))))
      ensures !r.Exhausted? ==>
                var t := GridTime(numSamples, start, Duration(cursor.points), old(nextSample));
                0.0 <= t <= Duration(cursor.points) ==> (r.Failed? <==> !Samplable(cursor.points, t))
    {
      var more := Advance(cursor);
      if !more {
        return Exhausted;
      }
      var sampled := cursor.GetSample();
      match sampled
      case Sampled(sample) => r := Next(sample);
      case OutOfRange => r := Failed;
    }
  }

  /** The k-th grid time over [start, duration]; the last lands exactly on the duration. */
  function GridTime(numSamples: nat, start: real, duration: real, k: nat): real
    requires k < numSamples
  {
    var when := if k == numSamples - 1 then 1.0 else k as real / (numSamples - 1) as real;
    Lerp(start, duration, when)
  }

  /** A grid of at least two samples runs from start to duration in equal steps. */
  lemma GridSteps(n: nat, start: real, duration: real, k: nat)
    requires 2 <= n && k < n && start <= duration
    ensures GridTime(n, start, duration, 0) == start
    ensures GridTime(n, start, duration, n - 1) == duration
    ensures k + 1 < n ==>
              GridTime(n, start, duration, k + 1) - GridTime(n, start, duration, k) == (duration - start) / (n - 1) as real
    ensures start <= GridTime(n, start, duration, k) <= duration
  {
    var m, span := (n - 1) as real, duration - start;
    var step := span / m;
    assert step * m == span;
    DivIs(0.0, m, 0.0);
    GridTimeIs(n, start, duration, k, step);
    if k + 1 < n {
      GridTimeIs(n, start, duration, k + 1, step);
      assert (k + 1) as real * step == k as real * step + step;
    }
    DivGe(span, 0.0, m);
    MulMono(0.0, k as real, step);
    MulMono(k as real, m, step);
  }

  lemma GridTimeIs(n: nat, start: real, duration: real, k: nat, step: real)
    requires 2 <= n && k < n && step * (n - 1) as real == duration - start
    ensures GridTime(n, start, duration, k) == start + k as real * step
  {
    var m := (n - 1) as real;
    if k < n - 1 {
      var w := k as real / m;
      assert w * m == k as real;
      assert w * (step * m) == (w * m) * step;
    }
  }
}
