/** When the soak test gives the cluster more memory or another node (test/scale/soak_policy.go). */
module SoakScaler {

  // ---------- memory steps, in Go's int64 ----------

  const MAX_INT64 := 0x7fff_ffff_ffff_ffff
  const TWO_64 := 0x1_0000_0000_0000_0000
  const STEP := 256 * 1024 * 1024

  predicate Int64(x: int) { -MAX_INT64 - 1 <= x <= MAX_INT64 }

  /** Two's complement wrap-around. */
  function Wrap(x: int): (r: int)
    ensures Int64(r) && (Int64(x) ==> r == x)
  {
    var r := x % TWO_64;
    if r > MAX_INT64 then r - TWO_64 else r
  }

  /** Go's division truncates toward zero. */
  function Quotient(x: int, d: int): int
    requires d > 0
  {
    if x >= 0 then x / d else -((-x) / d)
  }

  /** Half as much again, rounded up to a step, as the int64 arithmetic computes it. */
  function Grown(cur: int): int {
    Wrap(Quotient(Wrap(Quotient(Wrap(cur * 3), 2) + STEP - 1), STEP) * STEP)
  }

  datatype Raise = Raise(memory: int, grew: bool)

  /** nextMemory. */
  function NextMemory(cur: int, max: int): Raise {
    var grown := if Grown(cur) > max then max else Grown(cur);
    if grown <= cur then Raise(cur, false) else Raise(grown, true)
  }

  lemma DivStep(p: int, d: int)
    requires d > 0
    ensures p / d * d <= p < p / d * d + d
  {
  }

  /** Truncating to whole steps stays within the number truncated. */
  lemma WholeSteps(p: int)
    requires Int64(p)
    ensures Int64(Quotient(p, STEP) * STEP) && Quotient(p, STEP) * STEP % STEP == 0
  {
    if p >= 0 {
      assert 0 <= p / 0x1000_0000 * 0x1000_0000 <= p;
    } else {
      assert 0 <= (-p) / 0x1000_0000 * 0x1000_0000 <= -p;
    }
  }

  /** Grown lands on a whole step, even where the arithmetic wraps. */
  lemma GrownIsWholeStep(cur: int)
    ensures Grown(cur) % STEP == 0
  {
    WholeSteps(Wrap(Quotient(Wrap(cur * 3), 2) + STEP - 1));
  }

  /** The rounded-up half-again of a limit the int64 arithmetic can hold. */
  lemma GrownExact(cur: int)
    requires 0 <= cur <= MAX_INT64 / 3
    ensures Grown(cur) == (cur * 3 / 2 + STEP - 1) / STEP * STEP
    ensures cur * 3 / 2 <= Grown(cur) < cur * 3 / 2 + STEP
  {
    var h := cur * 3 / 2;
    assert Wrap(cur * 3) == cur * 3;
    assert Quotient(cur * 3, 2) == h;
    assert h + STEP - 1 <= MAX_INT64;
    DivStep(h + STEP - 1, STEP);
  }

  /** Rounding 3/2 of a number down, then up to a multiple of 2^28. */
  lemma HalfAgain(cur: int)
    requires cur >= 0
    ensures var g := (cur * 3 / 2 + 0x0fff_ffff) / 0x1000_0000 * 0x1000_0000;
            2 * g >= 3 * cur <==> 3 * cur % 0x2000_0000 != 1
  {
    var x := 3 * cur;
    var q, r := x / 0x2000_0000, x % 0x2000_0000;
    assert x == q * 0x2000_0000 + r;
    assert x / 2 == q * 0x1000_0000 + r / 2;
    if r == 0 || r == 1 {
      assert (x / 2 + 0x0fff_ffff) / 0x1000_0000 == q;
    } else {
      assert (x / 2 + 0x0fff_ffff) / 0x1000_0000 == q + 1;
    }
  }

  /** Where the product wraps, what comes out is no more than the limit. */
  lemma WrappedStays(cur: int)
    requires MAX_INT64 / 3 < cur <= MAX_INT64
    ensures Grown(cur) <= cur
  {
    var p := Wrap(Quotient(Wrap(cur * 3), 2) + STEP - 1);
    assert Wrap(cur * 3) == cur * 3 - TWO_64;
    StepsBelow(p, cur);
  }

  /** So a limit that int64 can hold but not three times it is never raised. */
  lemma WrappedIsNoRaise(cur: int, max: int)
    requires 0 <= cur <= MAX_INT64 && NextMemory(cur, max).grew
    ensures cur <= MAX_INT64 / 3
  {
    if cur > MAX_INT64 / 3 {
      WrappedStays(cur);
    }
  }

  lemma StepsBelow(p: int, cur: int)
    requires Int64(p) && p <= cur && 0 <= cur
    ensures Wrap(Quotient(p, STEP) * STEP) <= cur
  {
    WholeSteps(p);
    if p >= 0 {
      assert p / 0x1000_0000 * 0x1000_0000 <= p;
    } else {
      assert (-p) / 0x1000_0000 * 0x1000_0000 >= 0;
    }
  }

  /** An uncapped raise is by at least half, except from the odd limits whose half-again falls,
      after Go's division has dropped the half, exactly on a step. */
  lemma RaiseIsByHalf(cur: int, max: int)
    requires 0 <= cur <= MAX_INT64 && Grown(cur) <= max && NextMemory(cur, max).grew
    ensures 2 * NextMemory(cur, max).memory >= 3 * cur <==> 3 * cur % (2 * STEP) != 1
    ensures NextMemory(cur, max).memory % STEP == 0
  {
    WrappedIsNoRaise(cur, max);
    GrownExact(cur);
    GrownIsWholeStep(cur);
    HalfAgain(cur);
  }

  /** Every limit below the cap is raised: to half as much again rounded up to a step, or to the cap if
      that is less. */
  lemma RaiseIsCapped(cur: int, max: int)
    requires 0 <= cur <= MAX_INT64 / 3
    ensures var next := NextMemory(cur, max);
            && (next.grew <==> 0 < cur < max)
            && (!next.grew ==> next.memory == cur)
            && (next.grew && next.memory < max ==>
                  next.memory % STEP == 0 && cur * 3 / 2 <= next.memory < cur * 3 / 2 + STEP)
            && (next.grew ==> next.memory <= max)
            && (next.grew && next.memory == max ==> max < cur * 3 / 2 + STEP)
  {
    GrownExact(cur);
    GrownIsWholeStep(cur);
  }

  /** For instance from 178956971 bytes, where half as much again is lost to rounding. */
  lemma OddRaiseFallsShort()
    ensures NextMemory(178956971, MAX_INT64) == Raise(STEP, true)
    ensures 2 * STEP < 3 * 178956971
  {
  }

  function Pow(b: nat, k: nat): nat { if k == 0 then 1 else b * Pow(b, k - 1) }

  /** A chain of raises, none of them capped. */
  ghost predicate UncappedRaises(limits: seq<int>, max: int) {
    && limits != []
    && forall i :: 0 <= i < |limits| - 1 ==>
         && 0 <= limits[i] <= MAX_INT64 && Grown(limits[i]) <= max
         && NextMemory(limits[i], max) == Raise(limits[i + 1], true)
  }

  lemma EvenRaise(cur: int, next: int, max: int)
    requires cur % 2 == 0 && 0 <= cur <= MAX_INT64 && Grown(cur) <= max
    requires NextMemory(cur, max) == Raise(next, true)
    ensures 2 * next >= 3 * cur && next % 2 == 0
  {
    RaiseIsByHalf(cur, max);
    EvenIsNeverOdd(cur);
    WholeStepIsEven(next);
  }

  lemma WholeStepIsEven(x: int)
    requires x % STEP == 0
    ensures x % 2 == 0
  {
    var k := x / 0x1000_0000;
    assert x == k * 0x1000_0000;
    EvenProduct(x, k * 0x0800_0000);
  }

  lemma EvenProduct(x: int, h: int)
    requires x == 2 * h
    ensures x % 2 == 0
  {
  }

  /** k uncapped raises from an even limit multiply it by at least 3/2 each. */
  lemma {:induction false} RaisesCompound(limits: seq<int>, max: int)
    requires UncappedRaises(limits, max) && limits[0] % 2 == 0
    ensures Pow(2, |limits| - 1) * limits[|limits| - 1] >= Pow(3, |limits| - 1) * limits[0]
    ensures limits[|limits| - 1] % 2 == 0
  {
    var k := |limits| - 1;
    if k > 0 {
      RaisesCompound(limits[..k], max);
      EvenRaise(limits[k - 1], limits[k], max);
      CompoundStep(Pow(2, k - 1), Pow(3, k - 1), limits[k - 1], limits[k], limits[0]);
    }
  }

  lemma EvenIsNeverOdd(cur: int)
    requires cur % 2 == 0
    ensures 3 * cur % (2 * STEP) != 1
  {
    var m, j := cur / 2, 3 * cur / 0x2000_0000;
    assert 3 * cur % 0x2000_0000 == 2 * (3 * m - j * 0x1000_0000);
  }

  lemma CompoundStep(p: nat, q: nat, cur: int, next: int, first: int)
    requires 2 * next >= 3 * cur && p * cur >= q * first
    ensures 2 * p * next >= 3 * q * first
  {
    assert p * (2 * next) >= p * (3 * cur);
    assert p * (2 * next) == 2 * p * next;
    assert p * (3 * cur) == 3 * (p * cur);
    assert 3 * (q * first) == 3 * q * first;
  }

  // ---------- decisions ----------

  /** One observation of the cluster and its clients. */
  datatype Sample = Sample(at: int, clusterReady: bool, allNodesUp: bool, oomKills: int,
                           memPct: real, rate: real, errRate: real, p99: real)

  datatype Policy = Policy(targetRate: real, maxMemory: int, maxSize: int, cooldown: int, p99Limit: real,
                           minRateRatio: real, memPressure: real, memSamples: int, slowSamples: int, maxErrRate: real)
  {
    function WithDefaults(): Policy {
      this.(memPressure := if memPressure == 0.0 then 0.85 else memPressure,
            memSamples := if memSamples == 0 then 3 else memSamples,
            slowSamples := if slowSamples == 0 then 5 else slowSamples,
            minRateRatio := if minRateRatio == 0.0 then 0.9 else minRateRatio)
    }

    /** lastN slices with these counts. */
    predicate Valid() { memSamples >= 0 && slowSamples >= 0 }

    predicate UnderPressure(h: Sample) { h.memPct >= memPressure * 100.0 }

    predicate Slow(h: Sample) {
      !(h.errRate > maxErrRate && maxErrRate > 0.0) &&
      ((p99Limit > 0.0 && h.p99 > p99Limit) ||
       (targetRate > 0.0 && h.rate > 0.0 && h.rate < minRateRatio * targetRate))
    }
  }

  /** What an action rests on. */
  datatype Cause = NewOomKills | MemoryPressure | Slowness

  datatype Action = NoAction | RaiseMemory(memory: int, cause: Cause) | ScaleOut(size: int, cause: Cause)

  /** The first sample taken after `last`, or the end of the history. */
  function RecentFrom(hist: seq<Sample>, last: int): (i: nat)
    ensures i <= |hist|
    ensures forall k :: 0 <= k < i ==> hist[k].at <= last
    ensures i < |hist| ==> hist[i].at > last
  {
    if hist == [] then 0
    else if hist[0].at > last then 0
    else 1 + RecentFrom(hist[1..], last)
  }

  predicate LastN(hist: seq<Sample>, n: nat, pred: Sample -> bool) {
    |hist| >= n && forall i :: |hist| - n <= i < |hist| ==> pred(hist[i])
  }

  method CheckLastN(hist: seq<Sample>, n: nat, pred: Sample -> bool) returns (all: bool)
    ensures all <==> LastN(hist, n, pred)
  {
    if |hist| < n {
      return false;
    }
    for i := |hist| - n to |hist|
      invariant forall k :: |hist| - n <= k < i ==> pred(hist[k])
    {
      if !pred(hist[i]) {
        return false;
      }
    }
    return true;
  }

  /** Raise memory, or add a node where memory is at its cap. */
  function Grow(p: Policy, cur: Sample, memory: int, size: int, cause: Cause): Action {
    if NextMemory(memory, p.maxMemory).grew then RaiseMemory(NextMemory(memory, p.maxMemory).memory, cause)
    else if size < p.maxSize && cur.clusterReady then ScaleOut(size + 1, cause)
    else NoAction
  }

  /** The decision, given when the last action was (0 for never) and how many kills it had seen. */
  function Decision(policy: Policy, lastAction: int, oomAtAction: int,
                    now: int, hist: seq<Sample>, memory: int, size: int): Action
    requires policy.Valid()
  {
    var p := policy.WithDefaults();
    if hist == [] then NoAction
    else
      var cur, recent := hist[|hist| - 1], hist[RecentFrom(hist, lastAction)..];
      if !cur.allNodesUp then NoAction
      else if lastAction != 0 && now - lastAction < p.cooldown then NoAction
      else if cur.oomKills > oomAtAction then Grow(p, cur, memory, size, NewOomKills)
      else if LastN(recent, p.memSamples, h => p.UnderPressure(h)) then Grow(p, cur, memory, size, MemoryPressure)
      else if LastN(recent, p.slowSamples, h => p.Slow(h)) && cur.clusterReady && size < p.maxSize then
        ScaleOut(size + 1, Slowness)
      else NoAction
  }

  // ---------- the decision, in numbers ----------

  /** The memory is at 85% of the limit, or at the fraction the policy sets. */
  predicate Pressed(p: Policy, h: Sample) {
    h.memPct >= 100.0 * (if p.memPressure == 0.0 then 0.85 else p.memPressure)
  }

  /** The latency is above its limit or the rate below 90% of its target, or the fraction the policy
      sets, and not because of errors. */
  predicate Sluggish(p: Policy, h: Sample) {
    && (p.maxErrRate > 0.0 ==> h.errRate <= p.maxErrRate)
    && (|| (p.p99Limit > 0.0 && h.p99 > p.p99Limit)
        || (p.targetRate > 0.0 && 0.0 < h.rate < p.targetRate * (if p.minRateRatio == 0.0 then 0.9 else p.minRateRatio)))
  }

  /** The last n samples were all taken since the last action and all are like that. */
  predicate SinceThen(hist: seq<Sample>, last: int, n: int, like: Sample -> bool) {
    n <= |hist| - RecentFrom(hist, last) && forall i :: 0 <= i && |hist| - n <= i < |hist| ==> like(hist[i])
  }

  lemma SamplesInWords(p: Policy, h: Sample)
    ensures p.WithDefaults().UnderPressure(h) <==> Pressed(p, h)
    ensures p.WithDefaults().Slow(h) <==> Sluggish(p, h)
  {
    var ratio := if p.minRateRatio == 0.0 then 0.9 else p.minRateRatio;
    assert ratio * p.targetRate == p.targetRate * ratio;
  }

  lemma LastNSince(hist: seq<Sample>, last: int, n: nat, pred: Sample -> bool, like: Sample -> bool)
    requires forall h :: pred(h) <==> like(h)
    ensures LastN(hist[RecentFrom(hist, last)..], n, pred) <==> SinceThen(hist, last, n, like)
  {
    var k := RecentFrom(hist, last);
    var recent := hist[k..];
    if LastN(recent, n, pred) {
      forall i | 0 <= i && |hist| - n <= i < |hist| ensures like(hist[i]) {
        assert pred(recent[i - k]) && recent[i - k] == hist[i];
      }
    }
    if SinceThen(hist, last, n, like) {
      forall i | |recent| - n <= i < |recent| ensures pred(recent[i]) {
        assert like(hist[i + k]) && recent[i] == hist[i + k];
      }
    }
  }

  lemma WindowsInWords(p: Policy, hist: seq<Sample>, last: int)
    requires p.Valid()
    ensures var d, recent := p.WithDefaults(), hist[RecentFrom(hist, last)..];
            && (LastN(recent, d.memSamples, h => d.UnderPressure(h)) <==>
                  SinceThen(hist, last, if p.memSamples == 0 then 3 else p.memSamples, h => Pressed(p, h)))
            && (LastN(recent, d.slowSamples, h => d.Slow(h)) <==>
                  SinceThen(hist, last, if p.slowSamples == 0 then 5 else p.slowSamples, h => Sluggish(p, h)))
  {
    var d := p.WithDefaults();
    forall h ensures d.UnderPressure(h) <==> Pressed(p, h) { SamplesInWords(p, h); }
    forall h ensures d.Slow(h) <==> Sluggish(p, h) { SamplesInWords(p, h); }
    LastNSince(hist, last, d.memSamples, h => d.UnderPressure(h), h => Pressed(p, h));
    LastNSince(hist, last, d.slowSamples, h => d.Slow(h), h => Sluggish(p, h));
  }

  /** What a decision rests on: there is a kill since the last action, or the last samples were all
      pressed, or all sluggish. */
  datatype Signs = Signs(calm: bool, killed: bool, pressed: bool, sluggish: bool, canRaise: bool, canAdd: bool)

  /** The signs at the end of a history: whether all nodes are up and no cooldown runs, the three
      causes, and what could be done. */
  function SignsOf(p: Policy, lastAction: int, oomAtAction: int, now: int, hist: seq<Sample>, memory: int, size: int): Signs
    requires hist != []
  {
    var cur := hist[|hist| - 1];
    Signs(cur.allNodesUp && (lastAction == 0 || now - lastAction >= p.cooldown),
          cur.oomKills > oomAtAction,
          SinceThen(hist, lastAction, if p.memSamples == 0 then 3 else p.memSamples, h => Pressed(p, h)),
          SinceThen(hist, lastAction, if p.slowSamples == 0 then 5 else p.slowSamples, h => Sluggish(p, h)),
          NextMemory(memory, p.maxMemory).grew,
          size < p.maxSize && cur.clusterReady)
  }

  /** When the scaler acts, and how: never while a node is down or the cooldown runs; on kills or
      pressure it raises the memory, or adds a node if the memory is at its cap and the cluster ready;
      on sluggishness alone it only ever adds a node. */
  lemma DecidesIff(p: Policy, lastAction: int, oomAtAction: int, now: int, hist: seq<Sample>, memory: int, size: int)
    requires p.Valid()
    ensures var a := Decision(p, lastAction, oomAtAction, now, hist, memory, size);
            && (hist == [] ==> a == NoAction)
            && (hist != [] ==>
                  var s := SignsOf(p, lastAction, oomAtAction, now, hist, memory, size);
                  var urgent := s.killed || s.pressed;
                  && (a != NoAction <==> s.calm && ((urgent && (s.canRaise || s.canAdd)) || (s.sluggish && s.canAdd)))
                  && (a.RaiseMemory? <==> s.calm && urgent && s.canRaise)
                  && (a.RaiseMemory? ==> a.memory == NextMemory(memory, p.maxMemory).memory)
                  && (a.ScaleOut? ==> a.size == size + 1)
                  && (a != NoAction ==> (a.cause == NewOomKills <==> s.killed))
                  && (a != NoAction ==> (a.cause == MemoryPressure <==> !s.killed && s.pressed)))
  {
    WindowsInWords(p, hist, lastAction);
  }

  class Scaler {
    const policy: Policy
    var lastAction: int
    var oomAtAction: int

    constructor (policy: Policy)
      ensures this.policy == policy && lastAction == 0 && oomAtAction == 0
    {
      this.policy := policy;
      lastAction, oomAtAction := 0, 0;
    }

    /** recent. */
    method Recent(hist: seq<Sample>) returns (samples: seq<Sample>)
      ensures samples == hist[RecentFrom(hist, lastAction)..]
    {
      for i := 0 to |hist|
        invariant RecentFrom(hist, lastAction) == i + RecentFrom(hist[i..], lastAction)
      {
        assert hist[i..][1..] == hist[i + 1..];
        if hist[i].at > lastAction {
          return hist[i..];
        }
      }
      return [];
    }

    /** decide. */
    method Decide(now: int, hist: seq<Sample>, memory: int, size: int) returns (a: Action)
      requires policy.Valid()
      ensures a == Decision(policy, lastAction, oomAtAction, now, hist, memory, size)
    {
      var p := policy.WithDefaults();
      if |hist| == 0 {
        return NoAction;
      }
      var cur := hist[|hist| - 1];
      if !cur.allNodesUp {
        return NoAction;
      }
      if lastAction != 0 && now - lastAction < p.cooldown {
        return NoAction;
      }
      if cur.oomKills > oomAtAction {
        return Grow(p, cur, memory, size, NewOomKills);
      }
      var recent := Recent(hist);
      var pressed := CheckLastN(recent, p.memSamples, h => p.UnderPressure(h));
      if pressed {
        return Grow(p, cur, memory, size, MemoryPressure);
      }
      var slow := CheckLastN(recent, p.slowSamples, h => p.Slow(h));
      if slow {
        if !cur.clusterReady {
          return NoAction;
        }
        if size < p.maxSize {
          return ScaleOut(size + 1, Slowness);
        }
      }
      return NoAction;
    }

    /** applied. */
    method Applied(now: int, oomKills: int)
      modifies this
      ensures lastAction == now && oomAtAction == oomKills
    {
      lastAction := now;
      oomAtAction := oomKills;
    }
  }
}
