/** The HotSpot-style thermal engine of simulation/sivaa_hotspot_thermal.py:
    the layer table of the radial ("yantra") floorplan, the two power maps,
    the rectangular grid of copper channels, the in-place Gauss-Seidel solver
    with Dirichlet edges, the interior statistics and the comparison
    percentages. Temperatures are exact reals; radii are compared by squares. */
module HotspotThermal {
  import opened Common
  import opened FieldStats

  // ---------------------------------------------------------------------------
  // Materials and the layer table
  // ---------------------------------------------------------------------------

  /** Thermal conductivities in W/(m K). */
  const Silicon: real := 148.0
  const Copper: real := 401.0

  /** Normalised outer radii of bindu, l1_cache, l2_cache, l3_cache, mem_ctrl,
      hbm_phy, io_ring, pdn and boundary, in the table's own order. */
  const LayerRadii: seq<real> := [0.165, 0.265, 0.398, 0.463, 0.603, 0.668, 0.769, 0.887, 1.0]

  /** Power density of the same nine layers, in W/mm^2. */
  const PowerDensity: seq<real> := [1.2, 0.8, 0.5, 0.3, 0.6, 0.4, 0.3, 0.1, 0.05]

  /** The radii that the lookup chain actually tests: all but 'boundary'. */
  const LookupRadii: seq<real> := LayerRadii[..8]

  /** Index of the first bound that x does not exceed (|bounds| when there is none). */
  function FirstCovering(bounds: seq<real>, x: real): (k: nat)
    ensures k <= |bounds|
    ensures k < |bounds| ==> x <= bounds[k]
    ensures forall j :: 0 <= j < k ==> bounds[j] < x
  {
    if bounds == [] then 0
    else if x <= bounds[0] then 0
    else 1 + FirstCovering(bounds[1..], x)
  }

  /** _get_yantra_power: the if-chain over the layer table. Its result is the
      density of the first layer, in table order, whose radius is at least r;
      past 'pdn' it is the boundary density. */
  function YantraPower(r: real): (p: real)
    ensures p == PowerDensity[FirstCovering(LookupRadii, r)]
  {
    if r <= LayerRadii[0] then PowerDensity[0]
    else if r <= LayerRadii[1] then PowerDensity[1]
    else if r <= LayerRadii[2] then PowerDensity[2]
    else if r <= LayerRadii[3] then PowerDensity[3]
    else if r <= LayerRadii[4] then PowerDensity[4]
    else if r <= LayerRadii[5] then PowerDensity[5]
    else if r <= LayerRadii[6] then PowerDensity[6]
    else if r <= LayerRadii[7] then PowerDensity[7]
    else PowerDensity[8]
  }

  /** On a strictly increasing list, the first bound covering bounds[k] is k itself. */
  lemma FirstCoveringAt(bounds: seq<real>, k: nat)
    requires k < |bounds|
    requires forall a, b :: 0 <= a < b < |bounds| ==> bounds[a] < bounds[b]
    ensures FirstCovering(bounds, bounds[k]) == k
  {
    var m := FirstCovering(bounds, bounds[k]);
    assert m <= k;
  }

  /** A radius exactly on a layer boundary belongs to the inner layer. */
  lemma YantraPowerOnBoundary(k: nat)
    requires k < 8
    ensures YantraPower(LayerRadii[k]) == PowerDensity[k]
  {
    FirstCoveringAt(LookupRadii, k);
  }

  lemma YantraPowerBeyondPdn(r: real)
    requires r > LayerRadii[7]
    ensures YantraPower(r) == 0.05
  {
  }

  // ---------------------------------------------------------------------------
  // Comparing radii by their squares
  // ---------------------------------------------------------------------------

  function Squares(s: seq<real>): (q: seq<real>)
    ensures |q| == |s|
  {
    if s == [] then [] else [s[0] * s[0]] + Squares(s[1..])
  }

  const SquaredLookupRadii: seq<real> := Squares(LookupRadii)

  lemma {:induction false} SquaresAt(s: seq<real>, k: nat)
    requires k < |s|
    ensures Squares(s)[k] == s[k] * s[k]
  {
    if k > 0 {
      SquaresAt(s[1..], k - 1);
    }
  }

  /** Two lists that every bound of which x and y pass or fail alike have the
      same first covering index. */
  lemma {:induction false} CoveringTransfer(bounds: seq<real>, other: seq<real>, x: real, y: real)
    requires |other| == |bounds|
    requires forall k :: 0 <= k < |bounds| ==> (x <= bounds[k] <==> y <= other[k])
    ensures FirstCovering(other, y) == FirstCovering(bounds, x)
  {
    if bounds != [] {
      CoveringTransfer(bounds[1..], other[1..], x, y);
    }
  }

  /** For non-negative bounds and x, the first covering bound is the same whether
      x is compared with the bounds or x*x with their squares. */
  lemma CoveringBySquares(bounds: seq<real>, x: real)
    requires forall k :: 0 <= k < |bounds| ==> bounds[k] >= 0.0
    requires x >= 0.0
    ensures FirstCovering(Squares(bounds), x * x) == FirstCovering(bounds, x)
  {
    forall k | 0 <= k < |bounds|
      ensures x <= bounds[k] <==> x * x <= Squares(bounds)[k]
    {
      SquaresAt(bounds, k);
      BoundBySquare(bounds[k], Squares(bounds)[k], x);
    }
    CoveringTransfer(bounds, Squares(bounds), x, x * x);
  }

  lemma BoundBySquare(b: real, sq: real, x: real)
    requires sq == b * b && b >= 0.0 && x >= 0.0
    ensures x <= b <==> x * x <= sq
  {
    SquareMonotone(x, b);
  }

  /** The layer density of a cell whose squared normalised radius is r2. */
  function LayerPowerOfSquare(r2: real): (p: real)
    ensures p in PowerDensity && p > 0.0
  {
    PowerDensity[FirstCovering(SquaredLookupRadii, r2)]
  }

  /** Looking up the square agrees with the source's lookup on the radius. */
  lemma LayerPowerOfSquareAgrees(r: real)
    requires r >= 0.0
    ensures LayerPowerOfSquare(r * r) == YantraPower(r)
  {
    CoveringBySquares(LookupRadii, r);
  }

  // ---------------------------------------------------------------------------
  // Power maps
  // ---------------------------------------------------------------------------

  /** Any layout name other than 'yantra' selects the rectangular branch. */
  datatype Layout = Yantra | Rectangular

  function AbsInt(x: int): nat
  {
    if x < 0 then -x else x
  }

  /** Square of the radius of cell (i, j) about centre n/2, normalised by n/2. */
  function NormRadiusSq(n: nat, i: int, j: int): (r2: real)
    requires n >= 2
    ensures r2 >= 0.0
  {
    var c := n / 2;
    var dx := ((i - c) as real) / (c as real);
    var dy := ((j - c) as real) / (c as real);
    dx * dx + dy * dy
  }

  /** The four core anchors of the rectangular floorplan, in the source's order. */
  function CoreAnchors(n: nat): (anchors: seq<(int, int)>)
    ensures |anchors| == 4
  {
    var cx, cy, cs := n / 2, n / 2, n / 4;
    [(cx - cs, cy - cs), (cx - cs, cy + cs / 2), (cx + cs / 2, cy - cs), (cx + cs / 2, cy + cs / 2)]
  }

  predicate InCore(anchor: (int, int), half: int, i: int, j: int)
  {
    AbsInt(i - anchor.0) < half && AbsInt(j - anchor.1) < half
  }

  /** The scan over the core list that returns on the first core containing (i, j). */
  function HitsCore(anchors: seq<(int, int)>, half: int, i: int, j: int): (hit: bool)
    ensures hit <==> exists k :: 0 <= k < |anchors| && InCore(anchors[k], half, i, j)
  {
    if anchors == [] then false
    else InCore(anchors[0], half, i, j) || HitsCore(anchors[1..], half, i, j)
  }

  /** Strictly inside the central square of half-width n/3. */
  predicate InCacheSquare(n: nat, i: int, j: int)
  {
    var cx, cy := n / 2, n / 2;
    cx - n / 3 < i < cx + n / 3 && cy - n / 3 < j < cy + n / 3
  }

  /** _get_rectangular_power: core 1.2, else cache 0.5, else periphery 0.2. */
  function RectangularPower(n: nat, i: int, j: int): (p: real)
    ensures p == 1.2 || p == 0.5 || p == 0.2
    ensures p == 1.2 <==> exists k :: 0 <= k < 4 && InCore(CoreAnchors(n)[k], (n / 4) / 2, i, j)
    ensures p == 0.5 <==> (forall k :: 0 <= k < 4 ==> !InCore(CoreAnchors(n)[k], (n / 4) / 2, i, j)) && InCacheSquare(n, i, j)
    ensures p == 0.2 <==> (forall k :: 0 <= k < 4 ==> !InCore(CoreAnchors(n)[k], (n / 4) / 2, i, j)) && !InCacheSquare(n, i, j)
  {
    if HitsCore(CoreAnchors(n), (n / 4) / 2, i, j) then 1.2
    else if InCacheSquare(n, i, j) then 0.5
    else 0.2
  }

  /** The value _create_power_map stores at (i, j). */
  function CellPower(n: nat, layout: Layout, i: int, j: int): real
    requires n >= 2
  {
    match layout
    case Yantra => LayerPowerOfSquare(NormRadiusSq(n, i, j))
    case Rectangular => RectangularPower(n, i, j)
  }

  /** Every cell of the radial map holds one of the nine layer densities and is positive. */
  lemma YantraMapValues(n: nat, i: int, j: int)
    requires n >= 2
    ensures CellPower(n, Yantra, i, j) in PowerDensity
    ensures CellPower(n, Yantra, i, j) > 0.0
  {
  }

  /** _create_power_map: fills the map cell by cell, row-major. */
  method CreatePowerMap(n: nat, layout: Layout) returns (power: array2<real>)
    requires n >= 2
    ensures IsSquare(power, n)
    ensures forall i, j :: 0 <= i < n && 0 <= j < n ==> power[i, j] == CellPower(n, layout, i, j)
  {
    power := new real[n, n]((i, j) => 0.0);
    for i := 0 to n
      invariant forall a, b :: 0 <= a < i && 0 <= b < n ==> power[a, b] == CellPower(n, layout, a, b)
    {
      for j := 0 to n
        invariant forall a, b :: 0 <= a < i && 0 <= b < n ==> power[a, b] == CellPower(n, layout, a, b)
        invariant forall b :: 0 <= b < j ==> power[i, b] == CellPower(n, layout, i, b)
      {
        if layout == Yantra {
          power[i, j] := LayerPowerOfSquare(NormRadiusSq(n, i, j));
        } else {
          power[i, j] := RectangularPower(n, i, j);
        }
        assert power[i, j] == CellPower(n, layout, i, j);
      }
    }
  }

  // ---------------------------------------------------------------------------
  // Rectangular conductivity map
  // ---------------------------------------------------------------------------

  /** s is one of the loop's channel starts below lim (a multiple of step). */
  predicate ChannelStart(step: nat, lim: int, s: int)
    requires step > 0
  {
    0 <= s < lim && s % step == 0
  }

  /** Row or column x lies in a slice [s, s+2) of some channel start s < lim. */
  predicate Covered(step: nat, lim: int, x: int)
    requires step > 0
  {
    ChannelStart(step, lim, x) || ChannelStart(step, lim, x - 1)
  }

  predicate OnChannel(n: nat, x: int)
    requires n >= 5
  {
    Covered(n / 5, n, x)
  }

  function RectangularConductivity(n: nat, a: int, b: int): real
    requires n >= 5
  {
    if OnChannel(n, a) || OnChannel(n, b) then Copper else Silicon
  }

  /** Two multiples of step less than step apart are equal. */
  lemma MultiplesApart(step: nat, i: int, s: int)
    requires step > 0 && i % step == 0 && s % step == 0 && i <= s < i + step
    ensures s == i
  {
    assert i == (i / step) * step;
    DivModUnique(s, step, i / step, s - i);
  }

  lemma CoveredStep(step: nat, i: int, x: int)
    requires step > 0 && i >= 0 && i % step == 0
    ensures Covered(step, i + step, x) <==> Covered(step, i, x) || x == i || x == i + 1
  {
    if ChannelStart(step, i + step, x) && !ChannelStart(step, i, x) {
      MultiplesApart(step, i, x);
    }
    if ChannelStart(step, i + step, x - 1) && !ChannelStart(step, i, x - 1) {
      MultiplesApart(step, i, x - 1);
    }
  }

  /** _create_thermal_conductivity_map, rectangular branch: silicon everywhere,
      then rows i, i+1 and columns i, i+1 copper for i = 0, n/5, 2(n/5), ... < n.
      Python's range needs a non-zero step, so n >= 5. */
  method CreateConductivityMapRectangular(n: nat) returns (kMap: array2<real>)
    requires n >= 5
    ensures IsSquare(kMap, n)
    ensures forall a, b :: 0 <= a < n && 0 <= b < n ==> kMap[a, b] == RectangularConductivity(n, a, b)
  {
    kMap := new real[n, n]((a, b) => Silicon);
    var step := n / 5;
    var i := 0;
    while i < n
      invariant i >= 0 && i % step == 0
      invariant forall a, b :: 0 <= a < n && 0 <= b < n ==>
                  kMap[a, b] == if Covered(step, i, a) || Covered(step, i, b) then Copper else Silicon
    {
      forall a, b | 0 <= a < n && 0 <= b < n && (a == i || a == i + 1) {
        kMap[a, b] := Copper;
      }
      forall a, b | 0 <= a < n && 0 <= b < n && (b == i || b == i + 1) {
        kMap[a, b] := Copper;
      }
      forall x ensures Covered(step, i + step, x) <==> Covered(step, i, x) || x == i || x == i + 1 {
        CoveredStep(step, i, x);
      }
      assert i == (i / step) * step;
      DivModUnique(i + step, step, i / step + 1, 0);
      i := i + step;
    }
    forall x | 0 <= x < n ensures Covered(step, i, x) == OnChannel(n, x) {
    }
  }

  /** Which rows carry a channel, in closed form: those whose residue modulo n/5 is 0 or 1. */
  lemma OnChannelClosedForm(n: nat, x: int)
    requires n >= 5 && 0 <= x < n
    ensures OnChannel(n, x) <==> x % (n / 5) < 2
  {
    var step := n / 5;
    var q, r := x / step, x % step;
    assert x == q * step + r;
    if r >= 1 {
      DivModUnique(x - 1, step, q, r - 1);
    }
  }

  /** Every conductivity is silicon or copper. */
  lemma RectangularConductivityValues(n: nat, a: int, b: int)
    requires n >= 5
    ensures RectangularConductivity(n, a, b) == Silicon || RectangularConductivity(n, a, b) == Copper
    ensures RectangularConductivity(n, a, b) > 0.0
  {
  }

  // ---------------------------------------------------------------------------
  // Steady-state solver (in-place Gauss-Seidel)
  // ---------------------------------------------------------------------------

  predicate Interior(n: int, i: int, j: int)
  {
    1 <= i < n - 1 && 1 <= j < n - 1
  }

  predicate OnBoundary(n: int, i: int, j: int)
  {
    0 <= i < n && 0 <= j < n && (i == 0 || i == n - 1 || j == 0 || j == n - 1)
  }

  /** One relaxation step: T = 0.25 * (four neighbours + q dx^2 / k), with
      q = power * 1e6 converting W/mm^2 to W/m^2. */
  function Stencil(down: real, up: real, right: real, left: real, power: real, k: real, dx: real): real
    requires k != 0.0
  {
    0.25 * (down + up + right + left + (power * 1000000.0 * (dx * dx)) / k)
  }

  /** One sweep over the interior in row-major order, updating T in place: the
      neighbours above and to the left already hold this sweep's values, those
      below and to the right still hold the previous sweep's. Only interior
      cells are written. */
  method GaussSeidelSweep(T: array2<real>, P: array2<real>, K: array2<real>, dx: real)
    requires IsSquare(T, T.Length0) && IsSquare(P, T.Length0) && IsSquare(K, T.Length0)
    requires T != P && T != K
    requires forall i, j :: Interior(T.Length0, i, j) ==> K[i, j] > 0.0
    modifies T
    ensures forall i, j :: 0 <= i < T.Length0 && 0 <= j < T.Length1 && !Interior(T.Length0, i, j) ==>
              T[i, j] == old(T[i, j])
    ensures forall i, j :: Interior(T.Length0, i, j) ==>
              T[i, j] == Stencil(old(T[i + 1, j]), T[i - 1, j], old(T[i, j + 1]), T[i, j - 1], P[i, j], K[i, j], dx)
  {
    var n := T.Length0;
    var i := 1;
    while i < n - 1
      invariant 1 <= i && (n >= 2 ==> i <= n - 1)
      invariant forall a, b :: 0 <= a < n && 0 <= b < n && (a >= i || !Interior(n, a, b)) ==>
                  T[a, b] == old(T[a, b])
      invariant forall a, b :: Interior(n, a, b) && a < i ==>
                  T[a, b] == Stencil(old(T[a + 1, b]), T[a - 1, b], old(T[a, b + 1]), T[a, b - 1], P[a, b], K[a, b], dx)
    {
      var j := 1;
      while j < n - 1
        invariant 1 <= j <= n - 1
        invariant forall a, b :: 0 <= a < n && 0 <= b < n && (a > i || (a == i && b >= j) || !Interior(n, a, b)) ==>
                    T[a, b] == old(T[a, b])
        invariant forall a, b :: Interior(n, a, b) && (a < i || (a == i && b < j)) ==>
                    T[a, b] == Stencil(old(T[a + 1, b]), T[a - 1, b], old(T[a, b + 1]), T[a, b - 1], P[a, b], K[a, b], dx)
      {
        T[i, j] := Stencil(T[i + 1, j], T[i - 1, j], T[i, j + 1], T[i, j - 1], P[i, j], K[i, j], dx);
        j := j + 1;
      }
      i := i + 1;
    }
  }

  /** One sweep on values: cells off the interior keep their values, and each
      interior cell is the stencil of the updated cells above and to the left
      and the previous values below and to the right. */
  ghost predicate GaussSeidelStep(before: Grid, after: Grid, P: array2<real>, K: array2<real>, dx: real)
    reads P, K
  {
    var n := P.Length0;
    && IsGrid(before, n) && IsGrid(after, n) && IsSquare(P, n) && IsSquare(K, n)
    && (forall i, j :: 0 <= i < n && 0 <= j < n && !Interior(n, i, j) ==> after[i][j] == before[i][j])
    && (forall i, j {:trigger K[i, j]} :: Interior(n, i, j) ==>
          K[i, j] != 0.0 &&
          after[i][j] == Stencil(before[i + 1][j], after[i - 1][j], before[i][j + 1], after[i][j - 1], P[i, j], K[i, j], dx))
  }

  /** What GaussSeidelSweep establishes, stated on snapshots of the copy taken
      before the sweep and of the field after it. */
  lemma GaussSeidelStepOf(Told: array2<real>, T: array2<real>, P: array2<real>, K: array2<real>, dx: real)
    requires IsSquare(T, T.Length0) && IsSquare(Told, T.Length0) && IsSquare(P, T.Length0) && IsSquare(K, T.Length0)
    requires forall i, j :: Interior(T.Length0, i, j) ==> K[i, j] > 0.0
    requires forall i, j :: 0 <= i < T.Length0 && 0 <= j < T.Length1 && !Interior(T.Length0, i, j) ==>
               T[i, j] == Told[i, j]
    requires forall i, j :: Interior(T.Length0, i, j) ==>
               T[i, j] == Stencil(Told[i + 1, j], T[i - 1, j], Told[i, j + 1], T[i, j - 1], P[i, j], K[i, j], dx)
    ensures GaussSeidelStep(Snapshot(Told), Snapshot(T), P, K, dx)
  {
  }

  /** The sweeps of solve_steady_state as values: fields[k + 1] is one sweep of
      fields[k], and changes[k] is the largest cell-wise change of that sweep.
      Stated sweep by sweep from the last one; TraceStep gives any sweep k. */
  ghost predicate GaussSeidelTrace(fields: seq<Grid>, changes: seq<real>, P: array2<real>, K: array2<real>, dx: real)
    reads P, K
    decreases |changes|
  {
    && |fields| == |changes| + 1
    && (|changes| > 0 ==>
          var k := |changes| - 1;
          && GaussSeidelTrace(fields[..k + 1], changes[..k], P, K, dx)
          && GaussSeidelStep(fields[k], fields[k + 1], P, K, dx)
          && IsMaxChange(fields[k], fields[k + 1], P.Length0, changes[k]))
  }

  /** Every sweep k of a trace is a Gauss-Seidel sweep with its largest change. */
  lemma {:induction false} TraceStep(fields: seq<Grid>, changes: seq<real>, P: array2<real>, K: array2<real>, dx: real, k: nat)
    requires GaussSeidelTrace(fields, changes, P, K, dx) && k < |changes|
    ensures GaussSeidelStep(fields[k], fields[k + 1], P, K, dx)
    ensures IsMaxChange(fields[k], fields[k + 1], P.Length0, changes[k])
    decreases |changes|
  {
    var m := |changes| - 1;
    if k < m {
      TraceStep(fields[..m + 1], changes[..m], P, K, dx, k);
      assert fields[..m + 1][k] == fields[k] && fields[..m + 1][k + 1] == fields[k + 1] && changes[..m][k] == changes[k];
    }
  }

  /** One more sweep extends a trace. */
  lemma TraceExtend(fields: seq<Grid>, changes: seq<real>, next: Grid, e: real, P: array2<real>, K: array2<real>, dx: real)
    requires GaussSeidelTrace(fields, changes, P, K, dx)
    requires GaussSeidelStep(fields[|changes|], next, P, K, dx) && IsMaxChange(fields[|changes|], next, P.Length0, e)
    ensures GaussSeidelTrace(fields + [next], changes + [e], P, K, dx)
    ensures (fields + [next])[0] == fields[0] && (fields + [next])[|changes| + 1] == next
  {
    assert (fields + [next])[..|changes| + 1] == fields;
    assert (changes + [e])[..|changes|] == changes;
  }

  /** The loop's stopping rule: at most maxIter sweeps, and the run ends at the
      first sweep whose largest change is below tolerance. */
  predicate StopsAtFirstSmallChange(changes: seq<real>, maxIter: nat, tolerance: real)
  {
    && |changes| <= maxIter
    && (forall k :: 0 <= k < |changes| - 1 ==> changes[k] >= tolerance)
    && (|changes| < maxIter ==> |changes| > 0 && changes[|changes| - 1] < tolerance)
  }

  /** When the loop ends, by reaching maxIter or by a small change, its sweeps follow the stopping rule. */
  lemma StopRuleAtExit(changes: seq<real>, maxIter: nat, tolerance: real, converged: bool)
    requires |changes| <= maxIter && (converged || |changes| == maxIter)
    requires converged <==> |changes| > 0 && changes[|changes| - 1] < tolerance
    requires |changes| > 0 ==> AllAtLeast(changes[..|changes| - 1], tolerance)
    ensures StopsAtFirstSmallChange(changes, maxIter, tolerance)
    ensures converged <==> |changes| > 0 && changes[|changes| - 1] < tolerance
  {
    AllButLastAtLeast(changes, tolerance);
  }

  /** A whole run of solve_steady_state: it starts from the ambient field, sweeps
      and stops by the rule above. */
  ghost predicate GaussSeidelRun(fields: seq<Grid>, changes: seq<real>, P: array2<real>, K: array2<real>,
                                 ambient: real, dx: real, maxIter: nat, tolerance: real)
    reads P, K
  {
    && GaussSeidelTrace(fields, changes, P, K, dx)
    && fields[0] == ConstantGrid(P.Length0, ambient)
    && StopsAtFirstSmallChange(changes, maxIter, tolerance)
  }

  /** Every field of a run keeps the ambient boundary it started with. */
  lemma {:induction false} TraceKeepsBoundary(fields: seq<Grid>, changes: seq<real>, P: array2<real>, K: array2<real>,
                                              ambient: real, dx: real, k: nat)
    requires GaussSeidelTrace(fields, changes, P, K, dx) && fields[0] == ConstantGrid(P.Length0, ambient)
    requires k < |fields|
    ensures IsGrid(fields[k], P.Length0)
    ensures forall i, j :: OnBoundary(P.Length0, i, j) ==> fields[k][i][j] == ambient
  {
    if k > 0 {
      TraceKeepsBoundary(fields, changes, P, K, ambient, dx, k - 1);
      TraceStep(fields, changes, P, K, dx, k - 1);
    }
  }

  /** What the early stop means for the field: when the run stops early, no
      cell moved by tolerance or more in the last sweep; in every earlier sweep
      some cell did. */
  lemma EarlyStopMeaning(fields: seq<Grid>, changes: seq<real>, P: array2<real>, K: array2<real>,
                         ambient: real, dx: real, maxIter: nat, tolerance: real)
    requires GaussSeidelRun(fields, changes, P, K, ambient, dx, maxIter, tolerance)
    ensures |changes| < maxIter ==>
              forall i, j :: 0 <= i < P.Length0 && 0 <= j < P.Length0 ==>
                Abs(fields[|changes|][i][j] - fields[|changes| - 1][i][j]) < tolerance
    ensures forall k {:trigger fields[k]} :: 0 <= k < |changes| - 1 ==>
              IsGrid(fields[k], P.Length0) && IsGrid(fields[k + 1], P.Length0) &&
              exists i, j :: 0 <= i < P.Length0 && 0 <= j < P.Length0 && Abs(fields[k + 1][i][j] - fields[k][i][j]) >= tolerance
  {
    if |changes| < maxIter {
      var k := |changes| - 1;
      TraceStep(fields, changes, P, K, dx, k);
      IsMaxChangeIff(fields[k], fields[k + 1], P.Length0, changes[k]);
    }
    forall k {:trigger fields[k]} | 0 <= k < |changes| - 1
      ensures IsGrid(fields[k], P.Length0) && IsGrid(fields[k + 1], P.Length0) &&
              exists i, j :: 0 <= i < P.Length0 && 0 <= j < P.Length0 && Abs(fields[k + 1][i][j] - fields[k][i][j]) >= tolerance
    {
      TraceStep(fields, changes, P, K, dx, k);
      IsMaxChangeIff(fields[k], fields[k + 1], P.Length0, changes[k]);
    }
  }

  /** The body of one iteration: copy, sweep in place, and measure the largest
      change against the copy. */
  method RelaxOnce(T: array2<real>, P: array2<real>, K: array2<real>, dx: real) returns (error: real)
    requires T.Length0 >= 1 && IsSquare(T, T.Length0) && IsSquare(P, T.Length0) && IsSquare(K, T.Length0)
    requires T != P && T != K
    requires forall i, j :: Interior(T.Length0, i, j) ==> K[i, j] > 0.0
    modifies T
    ensures GaussSeidelStep(old(Snapshot(T)), Snapshot(T), P, K, dx)
    ensures IsMaxChange(old(Snapshot(T)), Snapshot(T), T.Length0, error)
  {
    var old_T := CopyField(T);
    SnapshotsEqual(old_T, T);
    GaussSeidelSweep(T, P, K, dx);
    GaussSeidelStepOf(old_T, T, P, K, dx);
    error := MaxAbsDiff(T, old_T);
    MaxChangeOfSnapshots(old_T, T, error);
  }

  /** solve_steady_state's iteration on given maps: start from ambient everywhere,
      pin the edges, sweep at most maxIter times and stop early as soon as the
      largest change of a sweep is below tolerance. Besides the field it reports
      how many sweeps ran and whether the early stop fired; the ghost sequences
      hold the field after each sweep and each sweep's largest change. */
  method SolveField(P: array2<real>, K: array2<real>, ambient: real, dx: real, maxIter: nat, tolerance: real)
    returns (T: array2<real>, sweeps: nat, converged: bool, ghost fields: seq<Grid>, ghost changes: seq<real>)
    requires P.Length0 >= 1 && IsSquare(P, P.Length0) && IsSquare(K, P.Length0)
    requires forall i, j :: Interior(P.Length0, i, j) ==> K[i, j] > 0.0
    ensures IsSquare(T, P.Length0)
    ensures GaussSeidelRun(fields, changes, P, K, ambient, dx, maxIter, tolerance)
    ensures sweeps == |changes| && Snapshot(T) == fields[sweeps]
    ensures forall i, j :: OnBoundary(P.Length0, i, j) ==> T[i, j] == ambient
    ensures converged <==> sweeps > 0 && changes[sweeps - 1] < tolerance
    ensures !converged ==> sweeps == maxIter
  {
    T := AmbientField(P.Length0, ambient);
    sweeps, converged, fields, changes := Relax(T, P, K, dx, maxIter, tolerance, ConstantGrid(P.Length0, ambient));
    FinalFieldBoundary(T, fields, changes, P, K, ambient, dx);
  }

  /** The iteration loop of solve_steady_state: sweep until the largest change
      drops below tolerance or maxIter sweeps are done. */
  method Relax(T: array2<real>, P: array2<real>, K: array2<real>, dx: real, maxIter: nat, tolerance: real, ghost start: Grid)
    returns (sweeps: nat, converged: bool, ghost fields: seq<Grid>, ghost changes: seq<real>)
    requires T.Length0 >= 1 && IsSquare(T, T.Length0) && IsSquare(P, T.Length0) && IsSquare(K, T.Length0)
    requires T != P && T != K
    requires forall i, j :: Interior(T.Length0, i, j) ==> K[i, j] > 0.0
    requires Snapshot(T) == start
    modifies T
    ensures GaussSeidelTrace(fields, changes, P, K, dx) && fields[0] == start
    ensures StopsAtFirstSmallChange(changes, maxIter, tolerance)
    ensures sweeps == |changes| && Snapshot(T) == fields[sweeps]
    ensures converged <==> sweeps > 0 && changes[sweeps - 1] < tolerance
    ensures !converged ==> sweeps == maxIter
  {
    sweeps, converged, fields, changes := 0, false, [start], [];
    while sweeps < maxIter
      invariant sweeps <= maxIter && |changes| == sweeps && !converged
      invariant GaussSeidelTrace(fields, changes, P, K, dx) && fields[0] == start
      invariant Snapshot(T) == fields[sweeps]
      invariant AllAtLeast(changes, tolerance)
    {
      var error;
      ghost var before := changes;
      error, fields, changes := TracedSweep(T, P, K, dx, fields, changes);
      sweeps := sweeps + 1;
      assert changes[..sweeps - 1] == before;
      if error < tolerance {
        converged := true;
        break;
      }
    }
    StopRuleAtExit(changes, maxIter, tolerance, converged);
  }

  /** One sweep of the loop together with its record in the trace. */
  method TracedSweep(T: array2<real>, P: array2<real>, K: array2<real>, dx: real, ghost fields: seq<Grid>, ghost changes: seq<real>)
    returns (error: real, ghost fields': seq<Grid>, ghost changes': seq<real>)
    requires T.Length0 >= 1 && IsSquare(T, T.Length0) && IsSquare(P, T.Length0) && IsSquare(K, T.Length0)
    requires T != P && T != K
    requires forall i, j :: Interior(T.Length0, i, j) ==> K[i, j] > 0.0
    requires GaussSeidelTrace(fields, changes, P, K, dx) && Snapshot(T) == fields[|changes|]
    modifies T
    ensures GaussSeidelTrace(fields', changes', P, K, dx) && Snapshot(T) == fields'[|changes'|]
    ensures fields' == fields + [Snapshot(T)] && changes' == changes + [error]
    ensures fields'[0] == fields[0]
  {
    error := RelaxOnce(T, P, K, dx);
    TraceExtend(fields, changes, Snapshot(T), error, P, K, dx);
    fields', changes' := fields + [Snapshot(T)], changes + [error];
  }

  /** The array holding the last field of a run has the ambient boundary. */
  lemma FinalFieldBoundary(T: array2<real>, fields: seq<Grid>, changes: seq<real>, P: array2<real>, K: array2<real>,
                           ambient: real, dx: real)
    requires GaussSeidelTrace(fields, changes, P, K, dx) && fields[0] == ConstantGrid(P.Length0, ambient)
    requires IsSquare(T, P.Length0) && Snapshot(T) == fields[|changes|]
    ensures forall i, j :: OnBoundary(P.Length0, i, j) ==> T[i, j] == ambient
  {
    TraceKeepsBoundary(fields, changes, P, K, ambient, dx, |changes|);
  }

  /** The starting field: ambient everywhere, with the edges set to ambient
      once more as the source does. */
  method AmbientField(n: nat, ambient: real) returns (T: array2<real>)
    ensures fresh(T) && IsSquare(T, n)
    ensures Snapshot(T) == ConstantGrid(n, ambient)
  {
    T := new real[n, n]((i, j) => ambient);
    forall i, j | 0 <= i < n && 0 <= j < n && OnBoundary(n, i, j) {
      T[i, j] := ambient;
    }
    SnapshotIs(T, ConstantGrid(n, ambient));
  }

  // ---------------------------------------------------------------------------
  // The simulator object
  // ---------------------------------------------------------------------------

  class YantraThermalSimulator {
    const dieSize: real      // metres
    const gridSize: nat
    const ambientTemp: real  // kelvin
    const dx: real
    var T: array2<real>
    var power: array2<real>
    var kMap: array2<real>

    ghost predicate Valid()
      reads this
    {
      IsSquare(T, gridSize) && IsSquare(power, gridSize) && IsSquare(kMap, gridSize)
    }

    /** The die size is given in millimetres and kept in metres; dx = die / grid. */
    constructor (dieSizeMm: real, gridSize: nat, ambientTemp: real)
      requires gridSize >= 1
      ensures Valid()
      ensures this.dieSize == dieSizeMm * 0.001 && this.gridSize == gridSize && this.ambientTemp == ambientTemp
      ensures dx == this.dieSize / (gridSize as real)
      ensures forall i, j :: 0 <= i < gridSize && 0 <= j < gridSize ==>
                T[i, j] == ambientTemp && power[i, j] == 0.0 && kMap[i, j] == Silicon
    {
      dieSize := dieSizeMm * 0.001;
      this.gridSize := gridSize;
      this.ambientTemp := ambientTemp;
      dx := (dieSizeMm * 0.001) / (gridSize as real);
      T := new real[gridSize, gridSize]((i, j) => ambientTemp);
      power := new real[gridSize, gridSize]((i, j) => 0.0);
      kMap := new real[gridSize, gridSize]((i, j) => Silicon);
    }

    /** solve_steady_state once its maps exist: stores the maps, solves, stores
        and returns the field. */
    method SolveSteadyState(newPower: array2<real>, newK: array2<real>, maxIter: nat, tolerance: real)
      returns (result: array2<real>, ghost fields: seq<Grid>, ghost changes: seq<real>)
      requires Valid()
      requires gridSize >= 1 && IsSquare(newPower, gridSize) && IsSquare(newK, gridSize)
      requires forall i, j :: Interior(gridSize, i, j) ==> newK[i, j] > 0.0
      modifies this
      ensures Valid()
      ensures power == newPower && kMap == newK && T == result
      ensures GaussSeidelRun(fields, changes, power, kMap, ambientTemp, dx, maxIter, tolerance)
      ensures Snapshot(result) == fields[|changes|]
      ensures forall i, j :: OnBoundary(gridSize, i, j) ==> result[i, j] == ambientTemp
    {
      power := newPower;
      kMap := newK;
      var sweeps, converged;
      result, sweeps, converged, fields, changes := SolveField(power, kMap, ambientTemp, dx, maxIter, tolerance);
      T := result;
    }

    /** solve_steady_state('rectangular'): both rectangular maps, then the solve. */
    method SolveRectangular(maxIter: nat, tolerance: real)
      returns (result: array2<real>, ghost fields: seq<Grid>, ghost changes: seq<real>)
      requires Valid() && gridSize >= 5
      modifies this
      ensures Valid()
      ensures forall i, j :: 0 <= i < gridSize && 0 <= j < gridSize ==>
                power[i, j] == RectangularPower(gridSize, i, j) &&
                kMap[i, j] == RectangularConductivity(gridSize, i, j)
      ensures T == result
      ensures GaussSeidelRun(fields, changes, power, kMap, ambientTemp, dx, maxIter, tolerance)
      ensures Snapshot(result) == fields[|changes|]
      ensures forall i, j :: OnBoundary(gridSize, i, j) ==> result[i, j] == ambientTemp
    {
      var p := CreatePowerMap(gridSize, Rectangular);
      var k := CreateConductivityMapRectangular(gridSize);
      forall i, j | Interior(gridSize, i, j) ensures k[i, j] > 0.0 {
        RectangularConductivityValues(gridSize, i, j);
      }
      result, fields, changes := SolveSteadyState(p, k, maxIter, tolerance);
    }

    /** solve_steady_state('yantra') with the radial conductivity map supplied by
        the caller (its trigonometric builder is not part of this model). */
    method SolveYantra(radialK: array2<real>, maxIter: nat, tolerance: real)
      returns (result: array2<real>, ghost fields: seq<Grid>, ghost changes: seq<real>)
      requires Valid() && gridSize >= 2 && IsSquare(radialK, gridSize)
      requires forall i, j :: Interior(gridSize, i, j) ==> radialK[i, j] > 0.0
      modifies this
      ensures Valid()
      ensures forall i, j :: 0 <= i < gridSize && 0 <= j < gridSize ==>
                power[i, j] == CellPower(gridSize, Yantra, i, j) && power[i, j] in PowerDensity
      ensures kMap == radialK && T == result
      ensures GaussSeidelRun(fields, changes, power, kMap, ambientTemp, dx, maxIter, tolerance)
      ensures Snapshot(result) == fields[|changes|]
      ensures forall i, j :: OnBoundary(gridSize, i, j) ==> result[i, j] == ambientTemp
    {
      var p := CreatePowerMap(gridSize, Yantra);
      result, fields, changes := SolveSteadyState(p, radialK, maxIter, tolerance);
    }
  }

  // ---------------------------------------------------------------------------
  // Interior statistics (analyze_results)
  // ---------------------------------------------------------------------------

  /** The metrics of one layout. The standard deviation needs a square root and
      is supplied by the caller; everything else is computed here. */
  datatype Metrics = Metrics(
    peakTemp: real,
    avgTemp: real,
    minTemp: real,
    stdDev: real,
    hotspotCount: nat,
    tempRange: real,
    uniformityPct: real)

  /** 90% of the way from the minimum to the peak. */
  function HotspotThreshold(minTemp: real, peakTemp: real): (t: real)
    requires minTemp <= peakTemp
    ensures minTemp <= t <= peakTemp
    ensures t == peakTemp <==> minTemp == peakTemp
  {
    minTemp + 0.9 * (peakTemp - minTemp)
  }

  /** The uniformity percentage, guarded against a zero temperature range. */
  function UniformityPct(stdDev: real, peakTemp: real, minTemp: real): (u: real)
    ensures peakTemp <= minTemp ==> u == 100.0
    ensures peakTemp > minTemp && stdDev == 0.0 ==> u == 100.0
  {
    if peakTemp > minTemp then (1.0 - stdDev / (peakTemp - minTemp)) * 100.0 else 100.0
  }

  /** analyze_results on a field of side n >= 11: the statistics range over the
      window [5, n-5)^2 only. */
  function AnalyzeResults(T: array2<real>, stdDev: real): (m: Metrics)
    reads T
    requires T.Length0 == T.Length1 && T.Length0 >= 11
    ensures forall a, b :: 5 <= a < T.Length0 - 5 && 5 <= b < T.Length0 - 5 ==>
              m.minTemp <= T[a, b] <= m.peakTemp
    ensures exists a, b :: 5 <= a < T.Length0 - 5 && 5 <= b < T.Length0 - 5 && T[a, b] == m.peakTemp
    ensures exists a, b :: 5 <= a < T.Length0 - 5 && 5 <= b < T.Length0 - 5 && T[a, b] == m.minTemp
    ensures m.minTemp <= m.avgTemp <= m.peakTemp
    ensures m.tempRange == m.peakTemp - m.minTemp && m.tempRange >= 0.0
    ensures m.hotspotCount <= (T.Length0 - 10) * (T.Length0 - 10)
    ensures m.peakTemp == m.minTemp ==> m.hotspotCount == 0 && m.uniformityPct == 100.0
    ensures m.peakTemp > m.minTemp ==> m.hotspotCount >= 1
  {
    var n := T.Length0;
    var s := Window(T, 5, n - 5);
    WindowCells(T, 5, n - 5);
    var peak := SeqMax(s);
    var low := SeqMin(s);
    MeanBetween(s);
    var threshold := HotspotThreshold(low, peak);
    var hot := CountAbove(s, threshold);
    HotspotsWhenFlat(s, peak, low, threshold);
    Metrics(peak, Sum(s) / (|s| as real), low, stdDev, hot, peak - low, UniformityPct(stdDev, peak, low))
  }

  lemma HotspotsWhenFlat(s: seq<real>, peak: real, low: real, threshold: real)
    requires |s| > 0 && peak == SeqMax(s) && low == SeqMin(s) && low <= peak
    requires threshold == HotspotThreshold(low, peak)
    ensures peak == low ==> CountAbove(s, threshold) == 0
    ensures peak > low ==> CountAbove(s, threshold) >= 1
  {
    if peak == low {
      CountAboveNone(s, threshold);
    } else {
      var k :| 0 <= k < |s| && s[k] == peak;
      CountAboveSome(s, threshold, k);
    }
  }

  // ---------------------------------------------------------------------------
  // Comparison (run_comparison)
  // ---------------------------------------------------------------------------

  function Max1(x: nat): (m: nat)
    ensures m >= 1
  {
    if x > 1 then x else 1
  }

  /** Hotspot reduction in percent; max(1, ...) keeps the division defined. */
  function HotspotReductionPct(rectCount: nat, yantraCount: nat): real
  {
    ((rectCount - yantraCount) as real) / (Max1(rectCount) as real) * 100.0
  }

  lemma HotspotReductionFacts(rectCount: nat, yantraCount: nat)
    ensures HotspotReductionPct(rectCount, yantraCount) <= 100.0
    ensures HotspotReductionPct(rectCount, yantraCount) == 100.0 <==> yantraCount == 0 && rectCount > 0
    ensures HotspotReductionPct(rectCount, yantraCount) == 0.0 <==> rectCount == yantraCount
    ensures rectCount == 0 ==> HotspotReductionPct(rectCount, yantraCount) == -100.0 * (yantraCount as real)
  {
    var d := (rectCount - yantraCount) as real;
    var m := Max1(rectCount) as real;
    QuotientFacts(d, m);
  }

  datatype Improvement = Improvement(peakReductionPct: real, uniformityImprovementPct: real, hotspotReductionPct: real)

  /** The three improvement percentages. The peak and uniformity formulas divide
      unguarded, so a zero denominator raises and no report is produced (None). */
  function CompareLayouts(rect: Metrics, yantra: Metrics, ambientTemp: real): (r: Option<Improvement>)
    ensures r.Some? <==> rect.peakTemp != ambientTemp && rect.stdDev != 0.0
    ensures r.Some? ==> r.value.hotspotReductionPct == HotspotReductionPct(rect.hotspotCount, yantra.hotspotCount)
    ensures r.Some? && rect.peakTemp == yantra.peakTemp ==> r.value.peakReductionPct == 0.0
    ensures r.Some? && rect.stdDev == yantra.stdDev ==> r.value.uniformityImprovementPct == 0.0
  {
    if rect.peakTemp - ambientTemp == 0.0 || rect.stdDev == 0.0 then None
    else
      Some(Improvement(
        (rect.peakTemp - yantra.peakTemp) / (rect.peakTemp - ambientTemp) * 100.0,
        (rect.stdDev - yantra.stdDev) / rect.stdDev * 100.0,
        HotspotReductionPct(rect.hotspotCount, yantra.hotspotCount)))
  }

  // ---------------------------------------------------------------------------
  // verify_golden_ratio
  // ---------------------------------------------------------------------------

  /** Ratios of consecutive radii, skipping any pair whose inner radius is not positive. */
  function RatioList(radii: seq<real>): seq<real>
  {
    if |radii| < 2 then []
    else
      RatioList(radii[..|radii| - 1]) +
      (if radii[|radii| - 2] > 0.0 then [radii[|radii| - 1] / radii[|radii| - 2]] else [])
  }

  lemma {:induction false} RatioListAllPositive(radii: seq<real>)
    requires forall k :: 0 <= k < |radii| ==> radii[k] > 0.0
    ensures |radii| >= 1 ==> |RatioList(radii)| == |radii| - 1
    ensures forall k :: 0 <= k < |RatioList(radii)| ==> RatioList(radii)[k] == radii[k + 1] / radii[k]
  {
    if |radii| >= 2 {
      RatioListAllPositive(radii[..|radii| - 1]);
    }
  }

  method VerifyGoldenRatio() returns (ratios: seq<real>)
    ensures |ratios| == 8
    ensures forall k :: 0 <= k < 8 ==> ratios[k] == LayerRadii[k + 1] / LayerRadii[k]
  {
    var radii := LayerRadii;
    ratios := [];
    for i := 1 to |radii|
      invariant ratios == RatioList(radii[..i])
    {
      assert radii[..i + 1][..i] == radii[..i];
      if radii[i - 1] > 0.0 {
        ratios := ratios + [radii[i] / radii[i - 1]];
      }
    }
    assert radii[..|radii|] == radii;
    RatioListAllPositive(radii);
  }
}
