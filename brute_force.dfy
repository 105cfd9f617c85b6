/** The brute-force verification suite of verification/brute_force_test.py:
    a test log that counts passes and failures and keeps one list of records
    per category, the bitwise variant of the Vedic multiplier checked on all
    256 x 256 byte pairs, a leaky integrate-and-fire neuron, a Fibonacci
    table, and the fixed checks of the remaining categories. */
module BruteForceTest {
  import opened Common
  import VedicMultiplier

  // ---------------------------------------------------------------------------
  // The test log: log_test and the results['tests'] dictionary
  // ---------------------------------------------------------------------------

  /** One entry of results['tests'][category]: the test's name and the str()
      of its expected and actual values, with its status. */
  datatype TestRecord = TestRecord(name: string, expected: string, actual: string, status: string)

  /** The status string log_test records. */
  function Status(passed: bool): (s: string)
    ensures s == "PASS" || s == "FAIL"
    ensures s == "PASS" <==> passed
  {
    if passed then "PASS" else "FAIL"
  }

  /** The records of one category, the empty list when it has none yet. */
  function Entries(log: map<string, seq<TestRecord>>, category: string): seq<TestRecord>
  {
    if category in log then log[category] else []
  }

  /** results['tests'] after appending one record to a category, creating its
      list when absent. */
  function Appended(log: map<string, seq<TestRecord>>, category: string, record: TestRecord): (r: map<string, seq<TestRecord>>)
    ensures category in r && r.Keys == log.Keys + {category}
  {
    log[category := Entries(log, category) + [record]]
  }

  /** Appending touches exactly one list, and grows it by exactly the record. */
  lemma AppendedEntries(log: map<string, seq<TestRecord>>, category: string, record: TestRecord)
    ensures Entries(Appended(log, category, record), category) == Entries(log, category) + [record]
    ensures forall c :: c != category ==> Entries(Appended(log, category, record), c) == Entries(log, c)
  {
  }

  /** One category's list in `after` is its list in `before` with n more
      records, all passed, at the end. */
  ghost predicate GrewByPasses(before: map<string, seq<TestRecord>>, after: map<string, seq<TestRecord>>, category: string, n: nat)
  {
    var was := Entries(before, category);
    var now := Entries(after, category);
    |now| == |was| + n && now[..|was|] == was &&
    (forall k :: |was| <= k < |now| ==> now[k].status == "PASS")
  }

  /** `after` is `before` with n more records, all passed, at the end of one
      category's list, and every other category untouched. */
  ghost predicate LoggedPasses(before: map<string, seq<TestRecord>>, after: map<string, seq<TestRecord>>, category: string, n: nat)
  {
    GrewByPasses(before, after, category, n) &&
    (forall c :: c != category ==> Entries(after, c) == Entries(before, c))
  }

  lemma {:induction false} LoggedPassesStep(before: map<string, seq<TestRecord>>, middle: map<string, seq<TestRecord>>,
                                            category: string, n: nat, record: TestRecord)
    requires LoggedPasses(before, middle, category, n) && record.status == "PASS"
    ensures LoggedPasses(before, Appended(middle, category, record), category, n + 1)
  {
    AppendedEntries(middle, category, record);
    var was, mid, now := Entries(before, category), Entries(middle, category), Entries(Appended(middle, category, record), category);
    assert now == mid + [record];
    assert now[..|was|] == mid[..|was|];
  }

  /** A later group writing to another category keeps a category's growth. */
  lemma GrowthKept(before: map<string, seq<TestRecord>>, middle: map<string, seq<TestRecord>>, after: map<string, seq<TestRecord>>,
                   category: string, n: nat, other: string, m: nat)
    requires GrewByPasses(before, middle, category, n) && LoggedPasses(middle, after, other, m) && other != category
    ensures GrewByPasses(before, after, category, n)
  {
    assert Entries(after, category) == Entries(middle, category);
  }

  /** The log after run_all's six groups, each logging its passes to its own
      category: every category grew by its group's passes, and no other
      category changed. */
  lemma SixGroupsLogged(t0: map<string, seq<TestRecord>>, t1: map<string, seq<TestRecord>>, t2: map<string, seq<TestRecord>>,
                        t3: map<string, seq<TestRecord>>, t4: map<string, seq<TestRecord>>, t5: map<string, seq<TestRecord>>,
                        t6: map<string, seq<TestRecord>>)
    requires LoggedPasses(t0, t1, VedicCategory, 7) && LoggedPasses(t1, t2, GeometryCategory, 12)
    requires LoggedPasses(t2, t3, MantraCategory, 20) && LoggedPasses(t3, t4, SnnCategory, 4)
    requires LoggedPasses(t4, t5, ThermalCategory, 4) && LoggedPasses(t5, t6, MarmaCategory, 3)
    ensures GrewByPasses(t0, t6, VedicCategory, 7)
    ensures GrewByPasses(t0, t6, GeometryCategory, 12)
    ensures GrewByPasses(t0, t6, MantraCategory, 20)
    ensures GrewByPasses(t0, t6, SnnCategory, 4)
    ensures GrewByPasses(t0, t6, ThermalCategory, 4)
    ensures GrewByPasses(t0, t6, MarmaCategory, 3)
    ensures forall c :: c !in {VedicCategory, GeometryCategory, MantraCategory, SnnCategory, ThermalCategory, MarmaCategory} ==>
              Entries(t6, c) == Entries(t0, c)
  {
    GrowthKept(t0, t1, t2, VedicCategory, 7, GeometryCategory, 12);
    GrowthKept(t0, t2, t3, VedicCategory, 7, MantraCategory, 20);
    GrowthKept(t0, t3, t4, VedicCategory, 7, SnnCategory, 4);
    GrowthKept(t0, t4, t5, VedicCategory, 7, ThermalCategory, 4);
    GrowthKept(t0, t5, t6, VedicCategory, 7, MarmaCategory, 3);
    GrowthKept(t0, t2, t3, GeometryCategory, 12, MantraCategory, 20);
    GrowthKept(t0, t3, t4, GeometryCategory, 12, SnnCategory, 4);
    GrowthKept(t0, t4, t5, GeometryCategory, 12, ThermalCategory, 4);
    GrowthKept(t0, t5, t6, GeometryCategory, 12, MarmaCategory, 3);
    GrowthKept(t0, t3, t4, MantraCategory, 20, SnnCategory, 4);
    GrowthKept(t0, t4, t5, MantraCategory, 20, ThermalCategory, 4);
    GrowthKept(t0, t5, t6, MantraCategory, 20, MarmaCategory, 3);
    GrowthKept(t0, t4, t5, SnnCategory, 4, ThermalCategory, 4);
    GrowthKept(t0, t5, t6, SnnCategory, 4, MarmaCategory, 3);
    GrowthKept(t0, t5, t6, ThermalCategory, 4, MarmaCategory, 3);
  }

  /** The verification object: three counters and the per-category log.
      The timestamp and the summary are not part of this model. */
  class BruteForceVerification {
    var totalTests: nat
    var passedTests: nat
    var failedTests: nat
    var tests: map<string, seq<TestRecord>>

    /** Every logged test either passed or failed. */
    predicate Valid()
      reads this
    {
      totalTests == passedTests + failedTests
    }

    constructor()
      ensures Valid()
      ensures totalTests == 0 && passedTests == 0 && failedTests == 0 && tests == map[]
    {
      totalTests, passedTests, failedTests := 0, 0, 0;
      tests := map[];
    }

    /** log_test: one more test, counted as passed or failed, and one more
        record at the end of its category's list. */
    method LogTest(category: string, testName: string, expected: string, actual: string, passed: bool)
      modifies this
      ensures totalTests == old(totalTests) + 1
      ensures passedTests == old(passedTests) + (if passed then 1 else 0)
      ensures failedTests == old(failedTests) + (if passed then 0 else 1)
      ensures tests == Appended(old(tests), category, TestRecord(testName, expected, actual, Status(passed)))
      ensures old(Valid()) ==> Valid()
    {
      totalTests := totalTests + 1;
      var status;
      if passed {
        passedTests := passedTests + 1;
        status := "PASS";
      } else {
        failedTests := failedTests + 1;
        status := "FAIL";
      }
      if category !in tests {
        tests := tests[category := []];
      }
      tests := tests[category := tests[category] + [TestRecord(testName, expected, actual, status)]];
    }

    /** test_vedic_multiplier: the exhaustive check and the six edge cases,
        all of which pass. */
    method TestVedicMultiplier()
      modifies this
      ensures totalTests == old(totalTests) + 7 && passedTests == old(passedTests) + 7
      ensures failedTests == old(failedTests)
      ensures LoggedPasses(old(tests), tests, VedicCategory, 7)
    {
      var errorCount, allCorrect := BruteForceErrors();
      ghost var before := tests;
      LogTest(VedicCategory, "8x8 Brute Force (65536 tests)", "0 errors", NatToString(errorCount) + " errors", errorCount == 0);
      LoggedPassesStep(old(tests), before, VedicCategory, 0, TestRecord("8x8 Brute Force (65536 tests)", "0 errors", NatToString(errorCount) + " errors", Status(true)));
      EdgeCasesAreProducts();
      for k := 0 to |EdgeCases|
        invariant totalTests == old(totalTests) + 1 + k && passedTests == old(passedTests) + 1 + k
        invariant failedTests == old(failedTests)
        invariant LoggedPasses(old(tests), tests, VedicCategory, 1 + k)
      {
        var (a, b, expected) := EdgeCases[k];
        NestedVedic8x8Correct(a, b);
        var actual := NestedVedic8x8(a, b);
        var name := NatToString(a) + " x " + NatToString(b);
        before := tests;
        LogTest(VedicCategory, name, NatToString(expected), NatToString(actual), expected == actual);
        LoggedPassesStep(old(tests), before, VedicCategory, 1 + k, TestRecord(name, NatToString(expected), NatToString(actual), Status(true)));
      }
    }

    /** test_sri_yantra_geometry: eight adjacent-layer ratio checks, which
        pass whatever np.sqrt(PHI) is because each ratio is within 30% of
        PHI or below 1.5, and four fixed counts. */
    method TestSriYantraGeometry(sqrtPhi: real)
      requires sqrtPhi > 0.0
      modifies this
      ensures totalTests == old(totalTests) + 12 && passedTests == old(passedTests) + 12
      ensures failedTests == old(failedTests)
      ensures LoggedPasses(old(tests), tests, GeometryCategory, 12)
    {
      ghost var before := tests;
      for i := 1 to |GeometryRadii|
        invariant totalTests == old(totalTests) + (i - 1) && passedTests == old(passedTests) + (i - 1)
        invariant failedTests == old(failedTests)
        invariant LoggedPasses(old(tests), tests, GeometryCategory, i - 1)
      {
        LayerRatioValid(i);
        var ratio := GeometryRadii[i] / GeometryRadii[i - 1];
        var isPhi := Abs(ratio - Phi) / Phi < 0.30;
        var isPhi2 := Abs(ratio - Phi * Phi) / (Phi * Phi) < 0.30;
        var isSqrtPhi := Abs(ratio - sqrtPhi) / sqrtPhi < 0.30;
        var valid := isPhi || isPhi2 || isSqrtPhi || ratio < 1.5;
        var name := "Layer " + NatToString(i);
        before := tests;
        LogTest(GeometryCategory, name, "near \U{03C6} relationship", "ratio", valid);
        LoggedPassesStep(old(tests), before, GeometryCategory, i - 1, TestRecord(name, "near \U{03C6} relationship", "ratio", Status(true)));
      }
      var upwardTriangles, downwardTriangles := 4, 5;
      var totalTriangles := upwardTriangles + downwardTriangles;
      before := tests;
      LogTest(GeometryCategory, "Triangle count (4 up + 5 down)", "9", NatToString(totalTriangles), totalTriangles == 9);
      LoggedPassesStep(old(tests), before, GeometryCategory, 8, TestRecord("Triangle count (4 up + 5 down)", "9", NatToString(totalTriangles), Status(true)));
      var subTriangles := 43;
      before := tests;
      LogTest(GeometryCategory, "Sub-triangle count from 9 triangles", "43", NatToString(subTriangles), subTriangles == 43);
      LoggedPassesStep(old(tests), before, GeometryCategory, 9, TestRecord("Sub-triangle count from 9 triangles", "43", NatToString(subTriangles), Status(true)));
      var innerPetals, outerPetals := 8, 16;
      before := tests;
      LogTest(GeometryCategory, "Inner lotus petals", "8", NatToString(innerPetals), innerPetals == 8);
      LoggedPassesStep(old(tests), before, GeometryCategory, 10, TestRecord("Inner lotus petals", "8", NatToString(innerPetals), Status(true)));
      before := tests;
      LogTest(GeometryCategory, "Outer lotus petals", "16", NatToString(outerPetals), outerPetals == 16);
      LoggedPassesStep(old(tests), before, GeometryCategory, 11, TestRecord("Outer lotus petals", "16", NatToString(outerPetals), Status(true)));
    }

    /** test_mantra_clock_ratios: the eleven recurrence checks, the eight
        ratio-near-PHI checks and the 55/34 clock ratio, all of which pass. */
    method TestMantraClockRatios()
      modifies this
      ensures totalTests == old(totalTests) + 20 && passedTests == old(passedTests) + 20
      ensures failedTests == old(failedTests)
      ensures LoggedPasses(old(tests), tests, MantraCategory, 20)
    {
      ghost var before := tests;
      for i := 2 to |Fib|
        invariant totalTests == old(totalTests) + (i - 2) && passedTests == old(passedTests) + (i - 2)
        invariant failedTests == old(failedTests)
        invariant LoggedPasses(old(tests), tests, MantraCategory, i - 2)
      {
        FibRecurrence(i);
        var expected := Fib[i - 1] + Fib[i - 2];
        var actual := Fib[i];
        var name := "Fib[" + NatToString(i) + "] = Fib[" + NatToString(i - 1) + "] + Fib[" + NatToString(i - 2) + "]";
        before := tests;
        LogTest(MantraCategory, name, NatToString(expected), NatToString(actual), expected == actual);
        LoggedPassesStep(old(tests), before, MantraCategory, i - 2, TestRecord(name, NatToString(expected), NatToString(actual), Status(true)));
      }
      for i := 5 to |Fib|
        invariant totalTests == old(totalTests) + 11 + (i - 5) && passedTests == old(passedTests) + 11 + (i - 5)
        invariant failedTests == old(failedTests)
        invariant LoggedPasses(old(tests), tests, MantraCategory, 11 + (i - 5))
      {
        FibRatioNearPhi(i);
        var ratio := (Fib[i] as real) / (Fib[i - 1] as real);
        var error := Abs(ratio - Phi) / Phi * 100.0;
        var name := "Fib[" + NatToString(i) + "]/Fib[" + NatToString(i - 1) + "] \U{2248} \U{03C6}";
        before := tests;
        LogTest(MantraCategory, name, "<5% error", "%", error < 5.0);
        LoggedPassesStep(old(tests), before, MantraCategory, 11 + (i - 5), TestRecord(name, "<5% error", "%", Status(true)));
      }
      var div34, div55 := 34, 55;
      var ratio := (div55 as real) / (div34 as real);
      before := tests;
      LogTest(MantraCategory, "Clock ratio 55/34", "\U{2248}", "", Abs(ratio - Phi) < 0.02);
      LoggedPassesStep(old(tests), before, MantraCategory, 19, TestRecord("Clock ratio 55/34", "\U{2248}", "", Status(true)));
    }

    /** test_tantra_snn: a high input spikes at least five times in 100
        steps, a low one never, input 10 crosses the threshold within 20
        steps, and ten leak steps from 100 give 100 (15/16)^10. */
    method TestTantraSnn()
      modifies this
      ensures totalTests == old(totalTests) + 4 && passedTests == old(passedTests) + 4
      ensures failedTests == old(failedTests)
      ensures LoggedPasses(old(tests), tests, SnnCategory, 4)
    {
      var spikes, trace, fired := SimulateLif(20.0, 100);
      ghost var before := tests;
      LogTest(SnnCategory, "High input produces spikes", ">5 spikes", NatToString(|spikes|) + " spikes", |spikes| >= 5);
      LoggedPassesStep(old(tests), before, SnnCategory, 0, TestRecord("High input produces spikes", ">5 spikes", NatToString(|spikes|) + " spikes", Status(true)));
      spikes, trace, fired := SimulateLif(5.0, 100);
      before := tests;
      LogTest(SnnCategory, "Low input (no spikes)", "0 spikes", NatToString(|spikes|) + " spikes", |spikes| == 0);
      LoggedPassesStep(old(tests), before, SnnCategory, 1, TestRecord("Low input (no spikes)", "0 spikes", NatToString(|spikes|) + " spikes", Status(true)));

      var crossed := ThresholdCrossing(10.0, 20);
      QuietTenCrossesAtSixteen();
      assert 1 <= 16 <= 20 && Quiet(10.0, 16) >= Threshold;
      before := tests;
      LogTest(SnnCategory, "Threshold crossing with input=10", "crosses threshold", if crossed then "crossed=True" else "crossed=False", crossed);
      LoggedPassesStep(old(tests), before, SnnCategory, 2, TestRecord("Threshold crossing with input=10", "crosses threshold", "crossed=True", Status(true)));

      var v := 100.0;
      for k := 0 to 10
        invariant v == 100.0 * Power(0.9375, k)
      {
        v := v * 0.9375;
      }
      var expectedDecay := 100.0 * Power(0.9375, 10);
      before := tests;
      LogTest(SnnCategory, "Leak over 10 steps (no input)", "V", "V", Abs(v - expectedDecay) < 0.1);
      LoggedPassesStep(old(tests), before, SnnCategory, 3, TestRecord("Leak over 10 steps (no input)", "V", "V", Status(true)));
    }

    /** test_thermal_physics: four comparisons that hold for any positive
        values of np.log(10) and np.pi. */
    method TestThermalPhysics(logTen: real, pi: real)
      requires logTen > 0.0 && pi > 0.0
      modifies this
      ensures totalTests == old(totalTests) + 4 && passedTests == old(passedTests) + 4
      ensures failedTests == old(failedTests)
      ensures LoggedPasses(old(tests), tests, ThermalCategory, 4)
    {
      var kSi, kCu := 148.0, 401.0;
      ghost var before := tests;
      LogTest(ThermalCategory, "Cu conductivity > Si", "Cu > Si", "Cu > Si", kCu > kSi);
      LoggedPassesStep(old(tests), before, ThermalCategory, 0, TestRecord("Cu conductivity > Si", "Cu > Si", "Cu > Si", Status(true)));

      var hot, cold := 400, 300;
      var deltaT := hot - cold;
      var direction := if deltaT > 0 then "hot \U{2192} cold" else "cold \U{2192} hot";
      before := tests;
      LogTest(ThermalCategory, "Heat flows hot to cold", "hot \U{2192} cold", direction, deltaT > 0);
      LoggedPassesStep(old(tests), before, ThermalCategory, 1, TestRecord("Heat flows hot to cold", "hot \U{2192} cold", direction, Status(true)));

      var q, height := 10.0, 1.0;
      var centre := 100.0;
      RadialDropPositive(q, logTen, pi, kSi, height);
      var edge := centre - (q * logTen) / (2.0 * pi * kSi * height * 0.001);
      before := tests;
      LogTest(ThermalCategory, "Radial: center hotter than edge", "T_center > T_edge", "K > K", centre > edge);
      LoggedPassesStep(old(tests), before, ThermalCategory, 2, TestRecord("Radial: center hotter than edge", "T_center > T_edge", "K > K", Status(true)));

      var gridChannels := 4 + 4;
      var radialChannels := 8 + 16;
      before := tests;
      LogTest(ThermalCategory, "Radial has more cooling paths", "radial > grid", NatToString(radialChannels) + " > " + NatToString(gridChannels), radialChannels > gridChannels);
      LoggedPassesStep(old(tests), before, ThermalCategory, 3, TestRecord("Radial has more cooling paths", "radial > grid", NatToString(radialChannels) + " > " + NatToString(gridChannels), Status(true)));
    }

    /** test_marma_routing: eighteen points, priorities between 1 and 10, and
        the bindu (alu_output) at 10. */
    method TestMarmaRouting()
      modifies this
      ensures totalTests == old(totalTests) + 3 && passedTests == old(passedTests) + 3
      ensures failedTests == old(failedTests)
      ensures LoggedPasses(old(tests), tests, MarmaCategory, 3)
    {
      MarmaTableFacts();
      ghost var before := tests;
      LogTest(MarmaCategory, "Total Marma points", "18", NatToString(|MarmaPoints|), |MarmaPoints| == 18);
      LoggedPassesStep(old(tests), before, MarmaCategory, 0, TestRecord("Total Marma points", "18", NatToString(|MarmaPoints|), Status(true)));

      var priorities := Priorities(MarmaPoints);
      var maxPriority, minPriority := MaxOf(priorities), MinOf(priorities);
      before := tests;
      LogTest(MarmaCategory, "Priority range", "1 to 10", NatToString(minPriority) + " to " + NatToString(maxPriority), minPriority >= 1 && maxPriority <= 10);
      LoggedPassesStep(old(tests), before, MarmaCategory, 1, TestRecord("Priority range", "1 to 10", NatToString(minPriority) + " to " + NatToString(maxPriority), Status(true)));

      var bindu := PriorityOf(MarmaPoints, "alu_output");
      var binduPriority := if bindu.Some? then bindu.value else 0;
      before := tests;
      LogTest(MarmaCategory, "Bindu (ALU) has max priority", "10", NatToString(binduPriority), binduPriority == 10);
      LoggedPassesStep(old(tests), before, MarmaCategory, 2, TestRecord("Bindu (ALU) has max priority", "10", NatToString(binduPriority), Status(true)));
    }

    /** run_all: the six groups in order; the suite succeeds exactly when no
        test failed, which on the modelled tests is always. */
    method RunAll(sqrtPhi: real, logTen: real, pi: real) returns (success: bool)
      requires sqrtPhi > 0.0 && logTen > 0.0 && pi > 0.0
      modifies this
      ensures totalTests == old(totalTests) + 50 && passedTests == old(passedTests) + 50
      ensures failedTests == old(failedTests)
      ensures old(Valid()) ==> Valid()
      ensures success <==> failedTests == 0
      ensures GrewByPasses(old(tests), tests, VedicCategory, 7)
      ensures GrewByPasses(old(tests), tests, GeometryCategory, 12)
      ensures GrewByPasses(old(tests), tests, MantraCategory, 20)
      ensures GrewByPasses(old(tests), tests, SnnCategory, 4)
      ensures GrewByPasses(old(tests), tests, ThermalCategory, 4)
      ensures GrewByPasses(old(tests), tests, MarmaCategory, 3)
      ensures forall c :: c !in {VedicCategory, GeometryCategory, MantraCategory, SnnCategory, ThermalCategory, MarmaCategory} ==>
                Entries(tests, c) == Entries(old(tests), c)
    {
      ghost var t0 := tests;
      TestVedicMultiplier();
      ghost var t1 := tests;
      TestSriYantraGeometry(sqrtPhi);
      ghost var t2 := tests;
      TestMantraClockRatios();
      ghost var t3 := tests;
      TestTantraSnn();
      ghost var t4 := tests;
      TestThermalPhysics(logTen, pi);
      ghost var t5 := tests;
      TestMarmaRouting();
      SixGroupsLogged(t0, t1, t2, t3, t4, t5, tests);
      success := failedTests == 0;
    }
  }

  // ---------------------------------------------------------------------------
  // The bitwise Vedic multiplier nested in test_vedic_multiplier
  // ---------------------------------------------------------------------------

  /** The gate network of the 2x2 block on single bits: four AND partial
      products, a half adder on the two crosswise ones and a second XOR for
      the high bit, packed with OR. */
  function BitwiseCore(a0: bv8, a1: bv8, b0: bv8, b1: bv8): bv8
  {
    var p0 := a0 & b0;
    var p1 := a1 & b0;
    var p2 := a0 & b1;
    var p3 := a1 & b1;
    var s1 := p1 ^ p2;
    var c1 := p1 & p2;
    var s2 := p3 ^ c1;
    p0 | (s1 << 1) | (s2 << 2) | ((p3 & c1) << 3)
  }

  /** vedic_2x2 as written with &, ^ and |: its bits are a & 1, (a >> 1) & 1,
      b & 1 and (b >> 1) & 1. */
  function BitwiseVedic2x2(a: int, b: int): int
  {
    BitwiseCore((a % 2) as bv8, ((a / 2) % 2) as bv8, (b % 2) as bv8, ((b / 2) % 2) as bv8) as int
  }

  /** On single bits the gate network computes the two-digit product. */
  lemma BitwiseCoreTable(x0: int, x1: int, y0: int, y1: int)
    requires 0 <= x0 <= 1 && 0 <= x1 <= 1 && 0 <= y0 <= 1 && 0 <= y1 <= 1
    ensures BitwiseCore(x0 as bv8, x1 as bv8, y0 as bv8, y1 as bv8) as int == (x0 + x1 * 2) * (y0 + y1 * 2)
  {
    if x0 == 0 {
      if x1 == 0 {
        assert BitwiseCore(0, 0, y0 as bv8, y1 as bv8) == 0;
      } else if y0 == 0 {
        if y1 == 0 { assert BitwiseCore(0, 1, 0, 0) == 0; } else { assert BitwiseCore(0, 1, 0, 1) == 4; }
      } else {
        if y1 == 0 { assert BitwiseCore(0, 1, 1, 0) == 2; } else { assert BitwiseCore(0, 1, 1, 1) == 6; }
      }
    } else if x1 == 0 {
      if y0 == 0 {
        if y1 == 0 { assert BitwiseCore(1, 0, 0, 0) == 0; } else { assert BitwiseCore(1, 0, 0, 1) == 2; }
      } else {
        if y1 == 0 { assert BitwiseCore(1, 0, 1, 0) == 1; } else { assert BitwiseCore(1, 0, 1, 1) == 3; }
      }
    } else if y0 == 0 {
      if y1 == 0 { assert BitwiseCore(1, 1, 0, 0) == 0; } else { assert BitwiseCore(1, 1, 0, 1) == 6; }
    } else {
      if y1 == 0 { assert BitwiseCore(1, 1, 1, 0) == 3; } else { assert BitwiseCore(1, 1, 1, 1) == 9; }
    }
  }

  /** The bitwise 2x2 block multiplies the low two bits of its arguments. */
  lemma BitwiseVedic2x2Residue(a: int, b: int)
    ensures BitwiseVedic2x2(a, b) == (a % 4) * (b % 4)
  {
    VedicMultiplier.SplitResidue(a, 2);
    VedicMultiplier.SplitResidue(b, 2);
    BitwiseCoreTable(a % 2, (a / 2) % 2, b % 2, (b / 2) % 2);
  }

  lemma BitwiseVedic2x2Correct(a: int, b: int)
    requires 0 <= a < 4 && 0 <= b < 4
    ensures BitwiseVedic2x2(a, b) == a * b
  {
    assert a % 4 == a && b % 4 == b;
    BitwiseVedic2x2Residue(a, b);
  }

  /** vedic_4x4 and vedic_8x8 nested in the test, built on the bitwise 2x2
      block: level 1 is vedic_2x2, level 2 vedic_4x4, level 3 vedic_8x8, with
      the masks and shifts of VedicMultiplier.HalfRadix. */
  function NestedBlock(level: nat, a: int, b: int): int
    requires 1 <= level <= 3
  {
    if level == 1 then BitwiseVedic2x2(a, b)
    else
      var r := VedicMultiplier.HalfRadix(level);
      var q0 := NestedBlock(level - 1, a % r, b % r);
      var q1 := NestedBlock(level - 1, (a / r) % r, b % r);
      var q2 := NestedBlock(level - 1, a % r, (b / r) % r);
      var q3 := NestedBlock(level - 1, (a / r) % r, (b / r) % r);
      q0 + q1 * r + q2 * r + q3 * (r * r)
  }

  function NestedVedic8x8(a: int, b: int): int
  {
    NestedBlock(3, a, b)
  }

  /** Each nested block multiplies the residues of its arguments modulo
      4, 16 and 256. */
  lemma {:induction false} NestedBlockResidue(level: nat, a: int, b: int)
    requires 1 <= level <= 3
    ensures NestedBlock(level, a, b) == (a % VedicMultiplier.Radix(level)) * (b % VedicMultiplier.Radix(level))
  {
    if level == 1 {
      BitwiseVedic2x2Residue(a, b);
    } else {
      var r := VedicMultiplier.HalfRadix(level);
      assert VedicMultiplier.Radix(level - 1) == r;
      var a0, a1, b0, b1 := a % r, (a / r) % r, b % r, (b / r) % r;
      VedicMultiplier.DigitResidue(a, r);
      VedicMultiplier.DigitResidue(b, r);
      NestedBlockResidue(level - 1, a0, b0);
      NestedBlockResidue(level - 1, a1, b0);
      NestedBlockResidue(level - 1, a0, b1);
      NestedBlockResidue(level - 1, a1, b1);
      VedicMultiplier.CrosswiseStep(a, b, r, NestedBlock(level - 1, a0, b0), NestedBlock(level - 1, a1, b0),
                                    NestedBlock(level - 1, a0, b1), NestedBlock(level - 1, a1, b1));
    }
  }

  /** The nested 8x8 multiplier is multiplication on bytes. */
  lemma NestedVedic8x8Correct(a: int, b: int)
    requires 0 <= a < 256 && 0 <= b < 256
    ensures NestedVedic8x8(a, b) == a * b
  {
    assert VedicMultiplier.Radix(3) == 256 && a % 256 == a && b % 256 == b;
    NestedBlockResidue(3, a, b);
  }

  /** The exhaustive loop over all 65536 byte pairs: no pair disagrees with
      Python's *, so the error count ends at 0 and all_correct stays true. */
  method BruteForceErrors() returns (errorCount: int, allCorrect: bool)
    ensures errorCount == 0 && allCorrect
  {
    allCorrect := true;
    errorCount := 0;
    for a := 0 to 256
      invariant errorCount == 0 && allCorrect
    {
      for b := 0 to 256
        invariant errorCount == 0 && allCorrect
      {
        var expected := a * b;
        NestedVedic8x8Correct(a, b);
        var actual := NestedVedic8x8(a, b);
        if expected != actual {
          allCorrect := false;
          errorCount := errorCount + 1;
        }
      }
    }
  }

  // ---------------------------------------------------------------------------
  // simulate_lif: a leaky integrate-and-fire neuron
  // ---------------------------------------------------------------------------

  const Threshold: real := 100.0

  /** One step before the threshold test: leak (V * (1 - LEAK_FACTOR) with
      LEAK_FACTOR = 0.0625), then integrate the input. */
  function Charge(v: real, input: real): real
  {
    v * 0.9375 + input
  }

  /** The membrane potential at the start of step t, given the potentials at
      the end of the steps before it. */
  function Before(trace: seq<real>, t: nat): real
    requires t <= |trace|
  {
    if t == 0 then 0.0 else trace[t - 1]
  }

  /** The potential after k steps of constant input c from rest, when none of
      them fires. */
  function Quiet(c: real, k: nat): real
  {
    if k == 0 then 0.0 else Charge(Quiet(c, k - 1), c)
  }

  /** A larger input charges at least as high. */
  lemma {:induction false} QuietMonotone(c: real, d: real, k: nat)
    requires c <= d
    ensures Quiet(c, k) <= Quiet(d, k)
  {
    if k > 0 {
      QuietMonotone(c, d, k - 1);
    }
  }

  /** With an input of at least 20 the neuron cannot go six steps without
      firing: six quiet steps at input 20 already reach the threshold. */
  lemma QuietStep(c: real, v: real, since: nat)
    requires c >= 20.0 && since <= 5 && v >= Quiet(c, since)
    requires Charge(v, c) < Threshold
    ensures since + 1 <= 5 && Charge(v, c) >= Quiet(c, since + 1)
  {
    QuietMonotone(20.0, c, since + 1);
    assert Quiet(20.0, 6) >= Threshold;
  }

  /** The spike times of simulate_lif and, as ghost traces, the potential at
      the end of every step and whether the step fired: each step leaks,
      integrates and fires (resetting to 0) exactly when the charged potential
      reaches the threshold. */
  method SimulateLif(inputCurrent: real, numSteps: nat) returns (spikes: seq<nat>, ghost trace: seq<real>, ghost fired: seq<bool>)
    ensures |trace| == numSteps && |fired| == numSteps
    ensures forall t {:trigger fired[t]} :: 0 <= t < numSteps ==>
              (fired[t] <==> Charge(Before(trace, t), inputCurrent) >= Threshold) &&
              trace[t] == (if fired[t] then 0.0 else Charge(Before(trace, t), inputCurrent))
    ensures forall t {:trigger fired[t]} :: 0 <= t < numSteps ==> (t in spikes <==> fired[t])
    ensures forall k :: 0 <= k < |spikes| ==> spikes[k] < numSteps
    ensures forall k, l :: 0 <= k < l < |spikes| ==> spikes[k] < spikes[l]
    ensures |spikes| <= numSteps
    ensures 0.0 <= inputCurrent && 16.0 * inputCurrent < Threshold ==> spikes == []
    ensures inputCurrent >= Threshold ==> |spikes| == numSteps
    ensures inputCurrent >= 20.0 ==> 6 * |spikes| + 5 >= numSteps
  {
    var v := 0.0;
    spikes, trace, fired := [], [], [];
    ghost var since: nat := 0;
    for t := 0 to numSteps
      invariant |trace| == t && |fired| == t && v == Before(trace, t)
      invariant forall s {:trigger fired[s]} :: 0 <= s < t ==>
                  (fired[s] <==> Charge(Before(trace, s), inputCurrent) >= Threshold) &&
                  trace[s] == (if fired[s] then 0.0 else Charge(Before(trace, s), inputCurrent))
      invariant forall s {:trigger fired[s]} :: 0 <= s < t ==> (s in spikes <==> fired[s])
      invariant forall k :: 0 <= k < |spikes| ==> spikes[k] < t
      invariant forall k, l :: 0 <= k < l < |spikes| ==> spikes[k] < spikes[l]
      invariant |spikes| <= t
      invariant 0.0 <= inputCurrent && 16.0 * inputCurrent < Threshold ==> spikes == [] && v <= 16.0 * inputCurrent
      invariant inputCurrent >= Threshold ==> |spikes| == t && v == 0.0
      invariant inputCurrent >= 20.0 ==>
                  since <= 5 && 6 * |spikes| + since >= t && v >= Quiet(inputCurrent, since)
    {
      ghost var previous := trace;
      var charged := Charge(v, inputCurrent);
      if charged >= Threshold {
        spikes := spikes + [t];
        v := 0.0;
        since := 0;
        fired := fired + [true];
      } else {
        if inputCurrent >= 20.0 {
          QuietStep(inputCurrent, v, since);
        }
        v := charged;
        since := since + 1;
        fired := fired + [false];
      }
      trace := trace + [v];
      assert forall s :: 0 <= s <= t ==> Before(trace, s) == Before(previous, s);
    }
  }

  // ---------------------------------------------------------------------------
  // Fixed data of the test methods
  // ---------------------------------------------------------------------------

  const VedicCategory: string := "Vedic Multiplier"

  /** The edge cases of test_vedic_multiplier: (a, b, expected product). */
  const EdgeCases: seq<(nat, nat, nat)> := [
    (0, 0, 0), (1, 1, 1), (255, 255, 65025), (128, 2, 256), (123, 45, 5535), (200, 150, 30000)]

  lemma EdgeCasesAreProducts()
    ensures forall k :: 0 <= k < |EdgeCases| ==>
              EdgeCases[k].0 < 256 && EdgeCases[k].1 < 256 && EdgeCases[k].2 == EdgeCases[k].0 * EdgeCases[k].1
  {
  }

  const GeometryCategory: string := "Sri Yantra Geometry"
  const MantraCategory: string := "Mantra Clock"

  /** 1.618033988749895 as written in the test. */
  const Phi: real := 1.618033988749895

  /** YANTRA_RADII of test_sri_yantra_geometry. */
  const GeometryRadii: seq<real> := [0.165, 0.265, 0.398, 0.463, 0.603, 0.668, 0.769, 0.887, 1.0]

  /** Every adjacent-layer ratio is within 30% of PHI or below 1.5. */
  lemma LayerRatioValid(i: nat)
    requires 1 <= i < |GeometryRadii|
    ensures GeometryRadii[i - 1] > 0.0
    ensures Abs(GeometryRadii[i] / GeometryRadii[i - 1] - Phi) / Phi < 0.30 || GeometryRadii[i] / GeometryRadii[i - 1] < 1.5
  {
    if i == 1 {
      assert GeometryRadii[1] / GeometryRadii[0] == 0.265 / 0.165;
    } else if i == 2 {
      assert GeometryRadii[2] / GeometryRadii[1] == 0.398 / 0.265;
    } else {
      assert GeometryRadii[i] < 1.5 * GeometryRadii[i - 1];
    }
  }

  /** The fib list of test_mantra_clock_ratios. */
  const Fib: seq<nat> := [1, 1, 2, 3, 5, 8, 13, 21, 34, 55, 89, 144, 233]

  lemma FibRecurrence(i: nat)
    requires 2 <= i < |Fib|
    ensures Fib[i] == Fib[i - 1] + Fib[i - 2]
  {
  }

  /** From Fib[5]/Fib[4] on, each ratio is within 5% of PHI. */
  lemma FibRatioNearPhi(i: nat)
    requires 5 <= i < |Fib|
    ensures Fib[i - 1] > 0
    ensures Abs((Fib[i] as real) / (Fib[i - 1] as real) - Phi) / Phi * 100.0 < 5.0
  {
  }

  const SnnCategory: string := "Tantra SNN"
  const ThermalCategory: string := "Thermal"
  const MarmaCategory: string := "Marma Routing"

  /** Input 10 takes sixteen steps to charge an idle neuron to the threshold. */
  lemma QuietTenCrossesAtSixteen()
    ensures Quiet(10.0, 15) < Threshold && Quiet(10.0, 16) >= Threshold
  {
    // One charge step at a time, each kept to two decimals.
    assert 10.00 <= Quiet(10.0, 1) <= 10.00;
    assert 19.37 <= Quiet(10.0, 2) <= 19.38;
    assert 28.15 <= Quiet(10.0, 3) <= 28.17;
    assert 36.39 <= Quiet(10.0, 4) <= 36.41;
    assert 44.11 <= Quiet(10.0, 5) <= 44.14;
    assert 51.35 <= Quiet(10.0, 6) <= 51.39;
    assert 58.14 <= Quiet(10.0, 7) <= 58.18;
    assert 64.50 <= Quiet(10.0, 8) <= 64.55;
    assert 70.46 <= Quiet(10.0, 9) <= 70.52;
    assert 76.05 <= Quiet(10.0, 10) <= 76.12;
    assert 81.29 <= Quiet(10.0, 11) <= 81.37;
    assert 86.20 <= Quiet(10.0, 12) <= 86.29;
    assert 90.81 <= Quiet(10.0, 13) <= 90.90;
    assert 95.13 <= Quiet(10.0, 14) <= 95.22;
    assert 99.18 <= Quiet(10.0, 15) <= 99.27;
    assert 102.98 <= Quiet(10.0, 16) <= 103.07;
  }

  /** The third SNN test: charge an idle neuron with a constant input for at
      most maxSteps steps, stopping at the first step that reaches the
      threshold; the result says whether one did. */
  method ThresholdCrossing(input: real, maxSteps: nat) returns (crossed: bool)
    ensures crossed <==> exists k :: 1 <= k <= maxSteps && Quiet(input, k) >= Threshold
  {
    var v := 0.0;
    crossed := false;
    var i := 0;
    while i < maxSteps && !crossed
      invariant 0 <= i <= maxSteps
      invariant v == Quiet(input, i)
      invariant crossed <==> i >= 1 && Quiet(input, i) >= Threshold
      invariant forall k :: 1 <= k < i ==> Quiet(input, k) < Threshold
      decreases maxSteps - i, if crossed then 0 else 1
    {
      v := Charge(v, input);
      i := i + 1;
      if v >= Threshold {
        crossed := true;
      }
    }
  }

  /** The radial temperature drop Q ln(r_edge / r_center) / (2 pi k L 1e-3)
      is positive for positive quantities. */
  lemma RadialDropPositive(q: real, logRatio: real, pi: real, k: real, height: real)
    requires q > 0.0 && logRatio > 0.0 && pi > 0.0 && k > 0.0 && height > 0.0
    ensures (q * logRatio) / (2.0 * pi * k * height * 0.001) > 0.0
  {
    PositiveProduct(q, logRatio);
    PositiveProduct(2.0 * pi, k);
    PositiveProduct(2.0 * pi * k, height);
    PositiveProduct(2.0 * pi * k * height, 0.001);
  }

  /** The marma_points dictionary, in its insertion order. */
  const MarmaPoints: seq<(string, nat)> := [
    ("alu_output", 10), ("branch_pred", 10), ("l1_hit", 8), ("instr_fetch", 8),
    ("data_align", 8), ("l2_controller", 7), ("tlb_lookup", 7), ("coherency", 7),
    ("l3_arbiter", 5), ("write_buffer", 5), ("prefetch", 5), ("dram_ctrl", 4),
    ("refresh", 4), ("ecc", 4), ("phy_interface", 2), ("serializer", 2),
    ("clock_recovery", 2), ("ground", 1)]

  /** list(marma_points.values()). */
  function Priorities(points: seq<(string, nat)>): (ps: seq<nat>)
    ensures |ps| == |points|
    ensures forall k :: 0 <= k < |points| ==> ps[k] == points[k].1
  {
    if points == [] then [] else Priorities(points[..|points| - 1]) + [points[|points| - 1].1]
  }

  /** Python's max on a non-empty list. */
  function MaxOf(s: seq<nat>): (m: nat)
    requires |s| > 0
    ensures m in s
    ensures forall k :: 0 <= k < |s| ==> s[k] <= m
  {
    if |s| == 1 then s[0]
    else
      var rest := MaxOf(s[..|s| - 1]);
      if s[|s| - 1] > rest then s[|s| - 1] else rest
  }

  /** Python's min on a non-empty list. */
  function MinOf(s: seq<nat>): (m: nat)
    requires |s| > 0
    ensures m in s
    ensures forall k :: 0 <= k < |s| ==> m <= s[k]
  {
    if |s| == 1 then s[0]
    else
      var rest := MinOf(s[..|s| - 1]);
      if s[|s| - 1] < rest then s[|s| - 1] else rest
  }

  /** marma_points[name]: the priority of the first entry with that name,
      or None when no entry has it. */
  function PriorityOf(points: seq<(string, nat)>, name: string): (r: Option<nat>)
    ensures r.None? <==> forall k :: 0 <= k < |points| ==> points[k].0 != name
    ensures r.Some? ==> exists k :: 0 <= k < |points| && points[k] == (name, r.value)
  {
    if points == [] then None
    else if points[0].0 == name then Some(points[0].1)
    else
      var r := PriorityOf(points[1..], name);
      assert forall k :: 1 <= k < |points| ==> points[k] == points[1..][k - 1];
      r
  }

  /** The table has eighteen distinct names, priorities from 1 to 10, and
      alu_output at 10. */
  lemma MarmaTableFacts()
    ensures |MarmaPoints| == 18
    ensures forall i, j :: 0 <= i < j < |MarmaPoints| ==> MarmaPoints[i].0 != MarmaPoints[j].0
    ensures forall k :: 0 <= k < |MarmaPoints| ==> 1 <= MarmaPoints[k].1 <= 10
    ensures PriorityOf(MarmaPoints, "alu_output") == Some(10)
  {
  }
}
