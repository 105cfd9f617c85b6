/** The discrete bookkeeping of simulation/sivaa_benchmark.py: the clocking
    accumulator, the two learning loops with their safety cap, the
    oscillation counter of the loop detector, the 18 marma points of the Sri
    Yantra (identity and priority only), the analytic Manhattan path length,
    the improvement formula and the suite that collects three results.
    The transcendental inputs (the Watts-Strogatz or logarithmic fractal path
    length and the sine-weighted adiabatic energy) are parameters. */
module SivaaBenchmark {
  import opened Common

  /** BenchmarkResult. */
  datatype BenchmarkResult = BenchmarkResult(
    name: string, standardValue: real, sivaaValue: real,
    improvementPercent: real, metricUnit: string)

  /** SimulationConfig. */
  datatype SimulationConfig = SimulationConfig(
    numNodes: int, resonanceCycles: int, targetAccuracy: real,
    omFrequency: real, goldenRatio: real)

  /** The defaults, which main passes explicitly as well. */
  const DefaultConfig := SimulationConfig(2000, 1000, 0.95, 136.1, 1.618033988749895)

  // ---------------------------------------------------------------------------
  // Improvement
  // ---------------------------------------------------------------------------

  /** (standard - sivaa) / standard * 100, or None where Python raises
      ZeroDivisionError. */
  function Improvement(standard: real, sivaa: real): (r: Option<real>)
    ensures r.None? <==> standard == 0.0
  {
    if standard == 0.0 then None else Some((standard - sivaa) / standard * 100.0)
  }

  /** The improvement determines the SIVAA value back from the standard one,
      and for a positive standard it is positive exactly when the SIVAA value
      is smaller, zero exactly when they are equal. */
  lemma ImprovementMeaning(standard: real, sivaa: real)
    requires standard != 0.0
    ensures sivaa == standard - standard * Improvement(standard, sivaa).value / 100.0
    ensures standard > 0.0 ==> (Improvement(standard, sivaa).value > 0.0 <==> sivaa < standard)
    ensures Improvement(standard, sivaa).value == 0.0 <==> sivaa == standard
  {
    var d := standard - sivaa;
    var p := Improvement(standard, sivaa).value;
    assert p == d / standard * 100.0;
    assert standard * (d / standard) == d;
    assert standard * p / 100.0 == d;
    if standard > 0.0 {
      if d > 0.0 {
        assert d / standard > 0.0;
      } else if d < 0.0 {
        assert (-d) / standard > 0.0;
        assert d / standard == -((-d) / standard);
      }
    }
  }

  // ---------------------------------------------------------------------------
  // YANTRA: the analytic Manhattan path length
  // ---------------------------------------------------------------------------

  /** int(math.sqrt(n)) on exact reals: the integer square root. */
  function IntSqrt(n: nat): (r: nat)
    ensures r * r <= n < (r + 1) * (r + 1)
  {
    if n == 0 then 0
    else
      var r := IntSqrt(n - 1);
      if (r + 1) * (r + 1) <= n then r + 1
      else r
  }

  /** The integer square root is the only root below the bracket. */
  lemma IntSqrtUnique(n: nat, s: nat)
    requires s * s <= n < (s + 1) * (s + 1)
    ensures IntSqrt(n) == s
  {
    var r := IntSqrt(n);
    if r < s {
      assert (r + 1) * (r + 1) <= s * s by {
        SquareMonotoneInt(r + 1, s);
      }
    } else if r > s {
      assert (s + 1) * (s + 1) <= r * r by {
        SquareMonotoneInt(s + 1, r);
      }
    }
  }

  lemma SquareMonotoneInt(a: nat, b: nat)
    requires a <= b
    ensures a * a <= b * b
  {
    assert b * b - a * a == (b - a) * (b + a);
  }

  /** The networkx-free branch of simulate_manhattan_grid: grid_side / 3 * 2,
      or None where math.sqrt of a negative node count raises ValueError. */
  function ManhattanGrid(numNodes: int): (d: Option<real>)
    ensures d.None? <==> numNodes < 0
    ensures d.Some? ==> 3.0 * d.value == 2.0 * (IntSqrt(numNodes) as real)
    ensures d.Some? ==> (d.value > 0.0 <==> numNodes >= 1)
  {
    if numNodes < 0 then None
    else Some((IntSqrt(numNodes) as real) / 3.0 * 2.0)
  }

  /** For the default 2000 nodes the grid side is 44 and the path 88/3. */
  lemma DefaultManhattan()
    ensures ManhattanGrid(DefaultConfig.numNodes) == Some(88.0 / 3.0)
  {
    IntSqrtUnique(2000, 44);
  }

  /** run_benchmark of YantraGeometrySimulator, with the fractal path length
      given. Python raises for a node count below 1: math.sqrt for negative
      counts, and math.log(0) and the division by a zero grid path for 0. */
  function YantraBenchmark(numNodes: int, fractalPath: real): (r: Option<BenchmarkResult>)
    ensures r.Some? <==> numNodes >= 1
    ensures r.Some? ==> r.value.name == "Signal Path Length" && r.value.metricUnit == " hops"
    ensures r.Some? ==> r.value.standardValue == ManhattanGrid(numNodes).value && r.value.sivaaValue == fractalPath
    ensures r.Some? ==> Improvement(r.value.standardValue, fractalPath) == Some(r.value.improvementPercent)
  {
    if numNodes < 1 then None
    else
      var manhattan := ManhattanGrid(numNodes).value;
      Some(BenchmarkResult("Signal Path Length", manhattan, fractalPath, Improvement(manhattan, fractalPath).value, " hops"))
  }

  // ---------------------------------------------------------------------------
  // YANTRA: the 18 marma points
  // ---------------------------------------------------------------------------

  /** One marma point; its x and y (cosines and sines) are not modelled. */
  datatype MarmaPoint = MarmaPoint(id: nat, name: string, priority: string)

  /** The layout generate_sri_yantra_coordinates produces: the bindu, a
      6-point inner ring and an 11-point outer ring, numbered in order. */
  ghost predicate MarmaLayout(points: seq<MarmaPoint>)
  {
    && |points| == 18
    && (forall k :: 0 <= k < 18 ==> points[k].id == k)
    && points[0].name == "bindu" && points[0].priority == "critical"
    && (forall k :: 1 <= k <= 6 ==> points[k].name == "inner_" + NatToString(k - 1) && points[k].priority == "high")
    && (forall k :: 7 <= k < 18 ==> points[k].name == "outer_" + NatToString(k - 7) && points[k].priority == "medium")
  }

  method GenerateSriYantraCoordinates() returns (points: seq<MarmaPoint>)
    ensures |points| == 18
    ensures forall k :: 0 <= k < 18 ==> points[k].id == k
    ensures points[0].name == "bindu" && points[0].priority == "critical"
    ensures forall k :: 1 <= k <= 6 ==> points[k].name == "inner_" + NatToString(k - 1) && points[k].priority == "high"
    ensures forall k :: 7 <= k < 18 ==> points[k].name == "outer_" + NatToString(k - 7) && points[k].priority == "medium"
    ensures MarmaLayout(points)
  {
    points := [MarmaPoint(0, "bindu", "critical")];
    for i := 0 to 6
      invariant |points| == i + 1
      invariant points[0] == MarmaPoint(0, "bindu", "critical")
      invariant forall k :: 1 <= k <= i ==> points[k] == MarmaPoint(k, "inner_" + NatToString(k - 1), "high")
    {
      points := points + [MarmaPoint(i + 1, "inner_" + NatToString(i), "high")];
    }
    for i := 0 to 11
      invariant |points| == i + 7
      invariant points[0] == MarmaPoint(0, "bindu", "critical")
      invariant forall k :: 1 <= k <= 6 ==> points[k] == MarmaPoint(k, "inner_" + NatToString(k - 1), "high")
      invariant forall k :: 7 <= k < i + 7 ==> points[k] == MarmaPoint(k, "outer_" + NatToString(k - 7), "medium")
    {
      points := points + [MarmaPoint(i + 7, "outer_" + NatToString(i), "medium")];
    }
  }

  /** Equal names with a common prefix have equal suffixes. */
  lemma SuffixOfPrefixed(p: string, s: string, t: string)
    requires p + s == p + t
    ensures s == t
  {
    assert s == (p + s)[|p|..];
    assert t == (p + t)[|p|..];
  }

  /** No two marma points share a name: the layout is a dictionary key set. */
  lemma MarmaNamesDistinct(points: seq<MarmaPoint>, i: nat, j: nat)
    requires MarmaLayout(points)
    requires i < j < 18
    ensures points[i].name != points[j].name
  {
    if i == 0 || (i <= 6 && 7 <= j) {
      assert points[i].name[0] != points[j].name[0];
    } else if j <= 6 && points[i].name == points[j].name {
      SuffixOfPrefixed("inner_", NatToString(i - 1), NatToString(j - 1));
      NatToStringInjective(i - 1, j - 1);
    } else if 7 <= i && points[i].name == points[j].name {
      SuffixOfPrefixed("outer_", NatToString(i - 7), NatToString(j - 7));
      NatToStringInjective(i - 7, j - 7);
    }
  }

  // ---------------------------------------------------------------------------
  // MANTRA: standard clocking
  // ---------------------------------------------------------------------------

  /** simulate_standard_clocking: one unit of energy for each of the
      num_cycles cycles (none for a non-positive count, as range() is then
      empty). */
  method SimulateStandardClocking(numCycles: int) returns (energy: real)
    ensures energy == if numCycles > 0 then numCycles as real else 0.0
  {
    energy := 0.0;
    var t := 0;
    while t < numCycles
      invariant 0 <= t && (t <= numCycles || t == 0)
      invariant energy == if t > 0 then t as real else 0.0
    {
      energy := energy + 1.0;
      t := t + 1;
    }
  }

  /** run_benchmark of MantraResonanceSimulator, with the adiabatic energy
      given; Python divides by zero for a non-positive cycle count. */
  method MantraBenchmark(numCycles: int, adiabaticEnergy: real) returns (r: Option<BenchmarkResult>)
    ensures r.Some? <==> numCycles >= 1
    ensures r.Some? ==> r.value.name == "Energy Consumption" && r.value.metricUnit == " J"
    ensures r.Some? ==> r.value.standardValue == numCycles as real && r.value.sivaaValue == adiabaticEnergy
    ensures r.Some? ==> Improvement(numCycles as real, adiabaticEnergy) == Some(r.value.improvementPercent)
  {
    var standardEnergy := SimulateStandardClocking(numCycles);
    var improvement := Improvement(standardEnergy, adiabaticEnergy);
    if improvement.None? {
      r := None;
    } else {
      r := Some(BenchmarkResult("Energy Consumption", standardEnergy, adiabaticEnergy, improvement.value, " J"));
    }
  }

  // ---------------------------------------------------------------------------
  // TANTRA: the two learning loops
  // ---------------------------------------------------------------------------

  /** Both loops stop once steps exceeds 10000. */
  const StepCap: nat := 10001

  /** Accuracy after k linear steps of 0.005. */
  function LinearProgress(k: nat): real
  {
    if k == 0 then 0.0 else LinearProgress(k - 1) + 0.005
  }

  /** The tantric increment taken at step k: learning_rate 0.005 times
      feedback_strength 1.05 to the power k mod 10. */
  function TantricIncrement(k: nat): real
  {
    0.005 * Power(1.05, k % 10)
  }

  /** Accuracy after k tantric steps. */
  function TantricProgress(k: nat): real
  {
    if k == 0 then 0.0 else TantricProgress(k - 1) + TantricIncrement(k - 1)
  }

  function Progress(tantric: bool, k: nat): real
  {
    if tantric then TantricProgress(k) else LinearProgress(k)
  }

  /** The step count a loop returns when it has already taken k steps:
      k if the target is reached or the cap is hit, otherwise the count from
      one step later. */
  function StepsFrom(tantric: bool, target: real, k: nat): nat
    requires k <= StepCap
    decreases StepCap - k
  {
    if Progress(tantric, k) >= target || k == StepCap then k
    else StepsFrom(tantric, target, k + 1)
  }

  /** The step count of a whole run. */
  function ConvergenceSteps(tantric: bool, target: real): nat
  {
    StepsFrom(tantric, target, 0)
  }

  /** The count from k on is the first step at or after k that reaches the
      target, or the cap if none does. */
  lemma {:induction false} StepsFromFirst(tantric: bool, target: real, k: nat)
    requires k <= StepCap
    ensures k <= StepsFrom(tantric, target, k) <= StepCap
    ensures StepsFrom(tantric, target, k) == StepCap || Progress(tantric, StepsFrom(tantric, target, k)) >= target
    ensures forall j {:trigger Progress(tantric, j)} :: k <= j < StepsFrom(tantric, target, k) ==> Progress(tantric, j) < target
    decreases StepCap - k
  {
    if !(Progress(tantric, k) >= target || k == StepCap) {
      StepsFromFirst(tantric, target, k + 1);
    }
  }

  /** Both loops return between 1 and 10001 steps for a positive target, and
      0 steps for any other. */
  lemma ConvergenceStepsBounds(tantric: bool, target: real)
    ensures target > 0.0 ==> 1 <= ConvergenceSteps(tantric, target) <= StepCap
    ensures target <= 0.0 ==> ConvergenceSteps(tantric, target) == 0
  {
    StepsFromFirst(tantric, target, 0);
    assert Progress(tantric, 0) == 0.0;
  }

  /** simulate_linear_learning. */
  method SimulateLinearLearning(target: real) returns (steps: nat)
    ensures steps == ConvergenceSteps(false, target)
  {
    var currentAccuracy := 0.0;
    var learningRate := 0.005;
    steps := 0;
    while currentAccuracy < target
      invariant steps < StepCap
      invariant currentAccuracy == LinearProgress(steps)
      invariant StepsFrom(false, target, steps) == ConvergenceSteps(false, target)
      decreases StepCap - steps
    {
      currentAccuracy := currentAccuracy + learningRate;
      steps := steps + 1;
      if steps > 10000 {
        break;
      }
    }
  }

  /** simulate_tantric_feedback. */
  method SimulateTantricFeedback(target: real) returns (steps: nat)
    ensures steps == ConvergenceSteps(true, target)
  {
    var currentAccuracy := 0.0;
    steps := 0;
    while currentAccuracy < target
      invariant steps < StepCap
      invariant currentAccuracy == TantricProgress(steps)
      invariant StepsFrom(true, target, steps) == ConvergenceSteps(true, target)
      decreases StepCap - steps
    {
      var increment := TantricIncrement(steps);
      currentAccuracy := currentAccuracy + increment;
      steps := steps + 1;
      if steps > 10000 {
        break;
      }
    }
  }

  /** Every tantric increment is at least the linear one. */
  lemma TantricIncrementAtLeastLinear(k: nat)
    ensures TantricIncrement(k) >= 0.005
  {
    PowerAtLeastOne(1.05, k % 10);
  }

  /** So after any number of steps the tantric loop is at least as far. */
  lemma {:induction false} TantricAhead(k: nat)
    ensures TantricProgress(k) >= LinearProgress(k)
  {
    if k > 0 {
      TantricAhead(k - 1);
      TantricIncrementAtLeastLinear(k - 1);
    }
  }

  /** The documented acceleration: the tantric loop never needs more steps. */
  lemma TantricNeverSlower(target: real)
    ensures ConvergenceSteps(true, target) <= ConvergenceSteps(false, target)
  {
    var lin := ConvergenceSteps(false, target);
    StepsFromFirst(false, target, 0);
    TantricAhead(lin);
    StepsFromAtMost(true, target, 0, lin);
  }

  /** A step count at or after k that reaches the target (or is the cap)
      bounds the count from k. */
  lemma {:induction false} StepsFromAtMost(tantric: bool, target: real, k: nat, m: nat)
    requires k <= m <= StepCap
    requires Progress(tantric, m) >= target || m == StepCap
    ensures StepsFrom(tantric, target, k) <= m
    decreases m - k
  {
    if !(Progress(tantric, k) >= target || k == StepCap) {
      StepsFromAtMost(tantric, target, k + 1, m);
    }
  }

  /** The result of run_benchmark of TantraLogicSimulator: the improvement is
      never negative; Python divides by zero for a non-positive target. */
  method TantraBenchmark(target: real) returns (r: Option<BenchmarkResult>)
    ensures r.Some? <==> target > 0.0
    ensures r.Some? ==> r.value.name == "Convergence Speed" && r.value.metricUnit == " cycles"
    ensures r.Some? ==> r.value.standardValue == ConvergenceSteps(false, target) as real
    ensures r.Some? ==> r.value.sivaaValue == ConvergenceSteps(true, target) as real
    ensures r.Some? ==> Improvement(r.value.standardValue, r.value.sivaaValue) == Some(r.value.improvementPercent)
    ensures r.Some? ==> 0.0 <= r.value.improvementPercent < 100.0
  {
    var linearSteps := SimulateLinearLearning(target);
    var tantraSteps := SimulateTantricFeedback(target);
    var improvement := Improvement(linearSteps as real, tantraSteps as real);
    ConvergenceImprovement(target);
    if improvement.None? {
      r := None;
    } else {
      r := Some(BenchmarkResult("Convergence Speed", linearSteps as real, tantraSteps as real, improvement.value, " cycles"));
    }
  }

  /** For a positive target the linear count is positive and the speed-up
      lies in [0, 100). */
  lemma ConvergenceImprovement(target: real)
    ensures var l, t := ConvergenceSteps(false, target) as real, ConvergenceSteps(true, target) as real;
      (l == 0.0 <==> target <= 0.0) && (target > 0.0 ==> 0.0 <= Improvement(l, t).value < 100.0)
  {
    ConvergenceStepsBounds(false, target);
    ConvergenceStepsBounds(true, target);
    TantricNeverSlower(target);
    var l, t := ConvergenceSteps(false, target) as real, ConvergenceSteps(true, target) as real;
    if target > 0.0 {
      ImprovementBounds(l, t);
    }
  }

  /** (l - t) / l * 100 lies in [0, 100) when 0 < t <= l. */
  lemma ImprovementBounds(l: real, t: real)
    requires 0.0 < t <= l
    ensures 0.0 <= Improvement(l, t).value < 100.0
  {
    QuotientFacts(l - t, l);
  }

  // ---------------------------------------------------------------------------
  // TANTRA: loop detection
  // ---------------------------------------------------------------------------

  /** How many states follow a different, truthy previous state. The first
      state has no predecessor; Python's `if prev_state` also skips the
      empty string. */
  function Oscillations(states: seq<string>): (n: nat)
    ensures |states| > 0 ==> n < |states|
  {
    if |states| <= 1 then 0
    else
      var last, previous := states[|states| - 1], states[|states| - 2];
      Oscillations(states[..|states| - 1]) + (if previous != "" && last != previous then 1 else 0)
  }

  /** A constant signal never oscillates. */
  lemma {:induction false} OscillationsConstant(states: seq<string>)
    requires forall k :: 0 < k < |states| ==> states[k] == states[k - 1]
    ensures Oscillations(states) == 0
  {
    if |states| > 1 {
      OscillationsConstant(states[..|states| - 1]);
    }
  }

  /** A signal of non-empty states that changes at every step oscillates at
      every step after the first. */
  lemma {:induction false} OscillationsAlternating(states: seq<string>)
    requires |states| > 0
    requires forall k :: 0 <= k < |states| ==> states[k] != ""
    requires forall k :: 0 < k < |states| ==> states[k] != states[k - 1]
    ensures Oscillations(states) == |states| - 1
  {
    if |states| > 1 {
      OscillationsAlternating(states[..|states| - 1]);
    }
  }

  datatype LoopDetection = LoopDetection(
    loopDetected: bool, oscillationCount: nat, resolvedState: string, action: string)

  /** The threshold of six oscillations. */
  const LoopThreshold: nat := 6

  /** The loop of simulate_loop_detection over a list of states; None where
      states[-1] raises IndexError on an empty list. */
  method DetectLoop(states: seq<string>) returns (r: Option<LoopDetection>)
    ensures r.None? <==> states == []
    ensures r.Some? ==> r.value.oscillationCount == Oscillations(states)
    ensures r.Some? ==> (r.value.loopDetected <==> Oscillations(states) >= LoopThreshold)
    ensures r.Some? ==> r.value.resolvedState == if r.value.loopDetected then "UBHAYA" else states[|states| - 1]
  {
    var oscillationCount := 0;
    var prevState: Option<string> := None;
    for k := 0 to |states|
      invariant oscillationCount == Oscillations(states[..k])
      invariant prevState == if k == 0 then None else Some(states[k - 1])
    {
      var state := states[k];
      assert states[..k + 1][..k] == states[..k];
      if prevState.Some? && prevState.value != "" && state != prevState.value {
        oscillationCount := oscillationCount + 1;
      }
      prevState := Some(state);
    }
    assert states[..|states|] == states;
    var loopDetected := oscillationCount >= LoopThreshold;
    if !loopDetected && states == [] {
      r := None;
    } else {
      var resolvedState := if loopDetected then "UBHAYA" else states[|states| - 1];
      r := Some(LoopDetection(loopDetected, oscillationCount, resolvedState,
        "Transition to ANUBHAYA (Neither) - prune this inference path"));
    }
  }

  const OscillatingStates: seq<string> := ["TRUE", "FALSE", "TRUE", "FALSE", "TRUE", "FALSE", "TRUE", "FALSE"]

  /** simulate_loop_detection on its fixed eight-state signal: seven
      oscillations, a loop, resolved to UBHAYA. */
  method SimulateLoopDetection() returns (r: LoopDetection)
    ensures r.oscillationCount == 7 && r.loopDetected && r.resolvedState == "UBHAYA"
  {
    OscillationsAlternating(OscillatingStates);
    var detection := DetectLoop(OscillatingStates);
    r := detection.value;
  }

  // ---------------------------------------------------------------------------
  // The suite
  // ---------------------------------------------------------------------------

  class SivaaBenchmarkSuite {
    var config: SimulationConfig
    var results: seq<BenchmarkResult>

    constructor(config: SimulationConfig)
      ensures this.config == config && results == []
    {
      this.config := config;
      results := [];
    }

    /** run_all: the yantra, mantra and tantra benchmarks in that order, each
        appended as it completes; ok is false where Python raises, and then
        only the benchmarks before the failing one have been appended. */
    method RunAll(fractalPath: real, adiabaticEnergy: real) returns (ok: bool)
      modifies this
      ensures config == old(config)
      ensures ok <==> config.numNodes >= 1 && config.resonanceCycles >= 1 && config.targetAccuracy > 0.0
      ensures |results| == |old(results)| + (if config.numNodes < 1 then 0 else if config.resonanceCycles < 1 then 1 else if !ok then 2 else 3)
      ensures results[..|old(results)|] == old(results)
      ensures |results| > |old(results)| ==> results[|old(results)|] == YantraBenchmark(config.numNodes, fractalPath).value
      ensures |results| > |old(results)| + 1 ==>
        var r := results[|old(results)| + 1];
        && r == BenchmarkResult("Energy Consumption", config.resonanceCycles as real, adiabaticEnergy, r.improvementPercent, " J")
        && Improvement(config.resonanceCycles as real, adiabaticEnergy) == Some(r.improvementPercent)
      ensures |results| > |old(results)| + 2 ==>
        var r := results[|old(results)| + 2];
        var standard, sivaa := ConvergenceSteps(false, config.targetAccuracy) as real, ConvergenceSteps(true, config.targetAccuracy) as real;
        && r == BenchmarkResult("Convergence Speed", standard, sivaa, r.improvementPercent, " cycles")
        && Improvement(standard, sivaa) == Some(r.improvementPercent)
        && 0.0 <= r.improvementPercent < 100.0
    {
      var yantra := YantraBenchmark(config.numNodes, fractalPath);
      if yantra.None? {
        return false;
      }
      results := results + [yantra.value];
      var mantra := MantraBenchmark(config.resonanceCycles, adiabaticEnergy);
      if mantra.None? {
        return false;
      }
      results := results + [mantra.value];
      var tantra := TantraBenchmark(config.targetAccuracy);
      if tantra.None? {
        return false;
      }
      results := results + [tantra.value];
      ok := true;
    }
  }
}
