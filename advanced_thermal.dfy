/** The vectorised thermal engine of Y769_Emp/Emp_2_Advanced_Thermal_Sim.py:
    power and conductivity maps built by sequential masked overwrites over
    meshgrid coordinates, a double-buffered (Jacobi) solver that re-pins the
    edges after each sweep and tests convergence every 100 sweeps, and the
    guards of the metrics. Radii are compared by squares: R < r is
    r > 0 && R^2 < r^2, and R >= r is its negation. */
module AdvancedThermal {
  import opened Common
  import opened FieldStats

  const SiliconConductivity: real := 148.0
  const CopperConductivity: real := 401.0
  const AmbientTemp: real := 300.0
  const DieSizeMm: real := 20.0
  const PowerDensityWmm2: real := 0.5

  /** Normalised radii; the yantra power map uses the first six. */
  const YantraRadii: seq<real> := [0.165, 0.265, 0.398, 0.463, 0.603, 0.668, 0.769, 0.887]

  // ---------------------------------------------------------------------------
  // Coordinates: x = linspace(-die/2, die/2, n); X[i, j] = x[j], Y[i, j] = x[i]
  // ---------------------------------------------------------------------------

  function Coord(n: nat, die: real, k: int): real
    requires n >= 1
  {
    if n == 1 then -die / 2.0 else -die / 2.0 + (k as real) * (die / ((n - 1) as real))
  }

  /** Bounds of linspace: the first coordinate is -die/2, the last die/2. */
  lemma CoordEnds(n: nat, die: real)
    requires n >= 2
    ensures Coord(n, die, 0) == -die / 2.0
    ensures Coord(n, die, n - 1) == die / 2.0
  {
    var step := die / ((n - 1) as real);
    assert ((n - 1) as real) * step == die;
  }

  function CellX(n: nat, die: real, i: int, j: int): real
    requires n >= 1
  {
    Coord(n, die, j)
  }

  function CellY(n: nat, die: real, i: int, j: int): real
    requires n >= 1
  {
    Coord(n, die, i)
  }

  /** R^2 of a point. */
  function RadiusSq(x: real, y: real): (r2: real)
    ensures r2 >= 0.0
  {
    x * x + y * y
  }

  /** R < r for R = sqrt(r2). */
  predicate Below(r2: real, r: real)
  {
    r > 0.0 && r2 < r * r
  }

  /** R > r for R = sqrt(r2). */
  predicate Beyond(r2: real, r: real)
  {
    r < 0.0 || r2 > r * r
  }

  lemma AbsSquare(x: real)
    ensures Abs(x) * Abs(x) == x * x
  {
  }

  /** |x| < c gives x^2 < c^2. */
  lemma SquareBelow(x: real, c: real)
    requires Abs(x) < c
    ensures x * x < c * c
  {
    AbsSquare(x);
    SquareMonotone(c, Abs(x));
  }

  // ---------------------------------------------------------------------------
  // Rectangular power map
  // ---------------------------------------------------------------------------

  const SatellitePositions: seq<(real, real)> := [(-5.0, -5.0), (-5.0, 5.0), (5.0, -5.0), (5.0, 5.0)]

  predicate InCentralCore(x: real, y: real)
  {
    Abs(x) < 3.0 && Abs(y) < 3.0
  }

  predicate InSatellite(pos: (real, real), x: real, y: real)
  {
    Abs(x - pos.0) < 2.0 && Abs(y - pos.1) < 2.0
  }

  predicate InCacheBox(x: real, y: real)
  {
    Abs(x) < 7.0 && Abs(y) < 7.0
  }

  predicate InIoRing(x: real, y: real, die: real)
  {
    Beyond(RadiusSq(x, y), die * 0.4)
  }

  predicate InAnySatellite(x: real, y: real)
  {
    exists s :: 0 <= s < |SatellitePositions| && InSatellite(SatellitePositions[s], x, y)
  }

  /** The value a cell ends with, read from the last mask that covers it: the
      I/O ring, then the cache box minus the last satellite only (the mask
      variable still holds the last loop iteration's satellite), then any
      satellite, then the central core, else zero. */
  function RectangularPowerAt(x: real, y: real, die: real): (p: real)
    ensures p == 0.05 || p == 0.2 || p == 0.6 || p == 1.0 || p == 0.0
  {
    if InIoRing(x, y, die) then PowerDensityWmm2 * 0.1
    else if InCacheBox(x, y) && !InSatellite(SatellitePositions[3], x, y) then PowerDensityWmm2 * 0.4
    else if InAnySatellite(x, y) then PowerDensityWmm2 * 1.2
    else if InCentralCore(x, y) then PowerDensityWmm2 * 2.0
    else 0.0
  }

  /** generate_power_map_rectangular: zeros, then the central core, the four
      satellites in order, the cache box and the I/O ring, each overwriting
      the cells its mask selects. */
  method GeneratePowerMapRectangular(n: nat, die: real) returns (P: array2<real>)
    requires n >= 1
    ensures IsSquare(P, n)
    ensures forall i, j :: 0 <= i < n && 0 <= j < n ==>
              P[i, j] == RectangularPowerAt(CellX(n, die, i, j), CellY(n, die, i, j), die)
  {
    P := new real[n, n]((i, j) => 0.0);
    forall i, j | 0 <= i < n && 0 <= j < n && InCentralCore(CellX(n, die, i, j), CellY(n, die, i, j)) {
      P[i, j] := PowerDensityWmm2 * 2.0;
    }
    for s := 0 to |SatellitePositions|
      invariant forall i, j :: 0 <= i < n && 0 <= j < n ==>
                  P[i, j] == (if exists t :: 0 <= t < s && InSatellite(SatellitePositions[t], CellX(n, die, i, j), CellY(n, die, i, j))
                              then PowerDensityWmm2 * 1.2
                              else if InCentralCore(CellX(n, die, i, j), CellY(n, die, i, j)) then PowerDensityWmm2 * 2.0
                              else 0.0)
    {
      var pos := SatellitePositions[s];
      forall i, j | 0 <= i < n && 0 <= j < n && InSatellite(pos, CellX(n, die, i, j), CellY(n, die, i, j)) {
        P[i, j] := PowerDensityWmm2 * 1.2;
      }
    }
    var lastCore := SatellitePositions[|SatellitePositions| - 1];
    forall i, j | 0 <= i < n && 0 <= j < n && InCacheBox(CellX(n, die, i, j), CellY(n, die, i, j)) &&
                  !InSatellite(lastCore, CellX(n, die, i, j), CellY(n, die, i, j)) {
      P[i, j] := PowerDensityWmm2 * 0.4;
    }
    forall i, j | 0 <= i < n && 0 <= j < n && InIoRing(CellX(n, die, i, j), CellY(n, die, i, j), die) {
      P[i, j] := PowerDensityWmm2 * 0.1;
    }
  }

  /** Every point farther than 8 mm from the centre of the 20 mm die ends in the I/O ring. */
  lemma IoRingWins(x: real, y: real)
    requires RadiusSq(x, y) > 64.0
    ensures RectangularPowerAt(x, y, DieSizeMm) == 0.05
  {
  }

  /** The central core is overwritten by the cache value. */
  lemma CentralCoreOverwritten(x: real, y: real)
    requires InCentralCore(x, y)
    ensures RectangularPowerAt(x, y, DieSizeMm) == 0.2
  {
    SquareBelow(x, 3.0);
    SquareBelow(y, 3.0);
  }

  /** Inside the cache box, within 8 mm and outside the last satellite, a cell is cache. */
  lemma CacheBoxValue(x: real, y: real)
    requires InCacheBox(x, y) && !InSatellite(SatellitePositions[3], x, y) && RadiusSq(x, y) <= 64.0
    ensures RectangularPowerAt(x, y, DieSizeMm) == 0.2
  {
  }

  /** The last satellite keeps its core value (where it is within 8 mm). */
  lemma LastSatelliteSurvives(x: real, y: real)
    requires InSatellite(SatellitePositions[3], x, y) && RadiusSq(x, y) <= 64.0
    ensures RectangularPowerAt(x, y, DieSizeMm) == 0.6
  {
  }

  /** The other three satellites lie inside the cache box and lose their core
      value: to the cache value, or to the I/O ring beyond 8 mm. */
  lemma OtherSatellitesOverwritten(x: real, y: real)
    requires InAnySatellite(x, y) && !InSatellite(SatellitePositions[3], x, y)
    ensures RectangularPowerAt(x, y, DieSizeMm) != 0.6
    ensures RadiusSq(x, y) <= 64.0 ==> RectangularPowerAt(x, y, DieSizeMm) == 0.2
  {
    var s :| 0 <= s < |SatellitePositions| && InSatellite(SatellitePositions[s], x, y);
    assert InCacheBox(x, y);
  }

  /** As written, no cell of the map holds the central-core value 1.0. */
  lemma NoCellAtCoreValue(x: real, y: real, die: real)
    ensures RectangularPowerAt(x, y, die) != 1.0
  {
  }

  /** The evidently intended map: the cache box excludes every core. */
  function IntendedRectangularPowerAt(x: real, y: real, die: real): (p: real)
    ensures p == 0.05 || p == 0.2 || p == 0.6 || p == 1.0 || p == 0.0
  {
    if InIoRing(x, y, die) then PowerDensityWmm2 * 0.1
    else if InCacheBox(x, y) && !InCentralCore(x, y) && !InAnySatellite(x, y) then PowerDensityWmm2 * 0.4
    else if InAnySatellite(x, y) then PowerDensityWmm2 * 1.2
    else if InCentralCore(x, y) then PowerDensityWmm2 * 2.0
    else 0.0
  }

  /** With the intended cache mask every core keeps its own density. */
  lemma IntendedCoresKept(x: real, y: real)
    ensures InCentralCore(x, y) ==> IntendedRectangularPowerAt(x, y, DieSizeMm) == 1.0
    ensures InAnySatellite(x, y) && RadiusSq(x, y) <= 64.0 ==> IntendedRectangularPowerAt(x, y, DieSizeMm) == 0.6
  {
    if InCentralCore(x, y) {
      SquareBelow(x, 3.0);
      SquareBelow(y, 3.0);
      assert !InAnySatellite(x, y);
    }
  }

  // ---------------------------------------------------------------------------
  // Yantra power map: half-open bands [r_{k-1}, r_k)
  // ---------------------------------------------------------------------------

  /** Bindu, L1/L2, L3, memory controller, HBM, I/O. */
  const BandValues: seq<real> := [
    PowerDensityWmm2 * 2.5, PowerDensityWmm2 * 1.0, PowerDensityWmm2 * 0.5,
    PowerDensityWmm2 * 0.6, PowerDensityWmm2 * 0.3, PowerDensityWmm2 * 0.15]

  /** Outer radius of band k in mm. */
  function BandRadius(die: real, k: nat): real
    requires k < 6
  {
    die * YantraRadii[k] / 2.0
  }

  /** Band k's mask: R >= r_{k-1} (none for the bindu) and R < r_k. */
  predicate InBand(r2: real, die: real, k: nat)
    requires k < 6
  {
    (k == 0 || !Below(r2, BandRadius(die, k - 1))) && Below(r2, BandRadius(die, k))
  }

  /** The first band whose outer radius exceeds R; 6 when there is none. */
  function FirstBand(r2: real, die: real, k: nat): (b: nat)
    requires k <= 6
    ensures k <= b <= 6
    ensures b < 6 ==> Below(r2, BandRadius(die, b))
    ensures forall m :: k <= m < b ==> !Below(r2, BandRadius(die, m))
    decreases 6 - k
  {
    if k == 6 then 6
    else if Below(r2, BandRadius(die, k)) then k
    else FirstBand(r2, die, k + 1)
  }

  /** The band value of a point, zero outside the last band. */
  function YantraPowerAt(r2: real, die: real): real
  {
    var b := FirstBand(r2, die, 0);
    if b < 6 then BandValues[b] else 0.0
  }

  /** A point inside band k's radius is inside every outer band's radius. */
  lemma BandsNested(r2: real, die: real, k: nat)
    requires k < 5
    ensures Below(r2, BandRadius(die, k)) ==> Below(r2, BandRadius(die, k + 1))
  {
    if BandRadius(die, k) > 0.0 {
      SquareMonotone(BandRadius(die, k), BandRadius(die, k + 1));
    }
  }

  lemma {:induction false} BelowFromFirst(r2: real, die: real, k: nat)
    requires FirstBand(r2, die, 0) <= k < 6
    ensures Below(r2, BandRadius(die, k))
    decreases k
  {
    if FirstBand(r2, die, 0) < k {
      BelowFromFirst(r2, die, k - 1);
      BandsNested(r2, die, k - 1);
    }
  }

  /** Band k's mask selects exactly the points whose first band is k. */
  lemma InBandIffFirst(r2: real, die: real, k: nat)
    requires k < 6
    ensures InBand(r2, die, k) <==> FirstBand(r2, die, 0) == k
  {
    var b := FirstBand(r2, die, 0);
    if b < k {
      BelowFromFirst(r2, die, k - 1);
    }
  }

  /** generate_power_map_yantra: zeros, then six band masks in order. */
  method GeneratePowerMapYantra(n: nat, die: real) returns (P: array2<real>)
    requires n >= 1
    ensures IsSquare(P, n)
    ensures forall i, j :: 0 <= i < n && 0 <= j < n ==>
              P[i, j] == YantraPowerAt(RadiusSq(CellX(n, die, i, j), CellY(n, die, i, j)), die)
  {
    P := new real[n, n]((i, j) => 0.0);
    forall i, j | 0 <= i < n && 0 <= j < n && InBand(RadiusSq(CellX(n, die, i, j), CellY(n, die, i, j)), die, 0) {
      P[i, j] := BandValues[0];
    }
    forall i, j | 0 <= i < n && 0 <= j < n && InBand(RadiusSq(CellX(n, die, i, j), CellY(n, die, i, j)), die, 1) {
      P[i, j] := BandValues[1];
    }
    forall i, j | 0 <= i < n && 0 <= j < n && InBand(RadiusSq(CellX(n, die, i, j), CellY(n, die, i, j)), die, 2) {
      P[i, j] := BandValues[2];
    }
    forall i, j | 0 <= i < n && 0 <= j < n && InBand(RadiusSq(CellX(n, die, i, j), CellY(n, die, i, j)), die, 3) {
      P[i, j] := BandValues[3];
    }
    forall i, j | 0 <= i < n && 0 <= j < n && InBand(RadiusSq(CellX(n, die, i, j), CellY(n, die, i, j)), die, 4) {
      P[i, j] := BandValues[4];
    }
    forall i, j | 0 <= i < n && 0 <= j < n && InBand(RadiusSq(CellX(n, die, i, j), CellY(n, die, i, j)), die, 5) {
      P[i, j] := BandValues[5];
    }
    forall i, j | 0 <= i < n && 0 <= j < n
      ensures P[i, j] == YantraPowerAt(RadiusSq(CellX(n, die, i, j), CellY(n, die, i, j)), die)
    {
      var r2 := RadiusSq(CellX(n, die, i, j), CellY(n, die, i, j));
      InBandIffFirst(r2, die, 0);
      InBandIffFirst(r2, die, 1);
      InBandIffFirst(r2, die, 2);
      InBandIffFirst(r2, die, 3);
      InBandIffFirst(r2, die, 4);
      InBandIffFirst(r2, die, 5);
    }
  }

  /** A point at distance rad with r_{k-1} <= rad < r_k gets band k's value; in
      particular a radius on a boundary belongs to the outer band. */
  lemma YantraPowerInBand(rad: real, die: real, k: nat)
    requires rad >= 0.0 && die > 0.0 && k < 6
    requires k > 0 ==> BandRadius(die, k - 1) <= rad
    requires rad < BandRadius(die, k)
    ensures YantraPowerAt(rad * rad, die) == BandValues[k]
  {
    SquareMonotone(BandRadius(die, k), rad);
    if k > 0 {
      SquareMonotone(rad, BandRadius(die, k - 1));
      assert !Below(rad * rad, BandRadius(die, k - 1));
    }
    assert InBand(rad * rad, die, k);
    InBandIffFirst(rad * rad, die, k);
  }

  /** Beyond the I/O band's outer radius the map stays zero. */
  lemma YantraPowerOutside(rad: real, die: real)
    requires rad >= 0.0 && rad >= BandRadius(die, 5)
    ensures YantraPowerAt(rad * rad, die) == 0.0
  {
    if BandRadius(die, 5) > 0.0 {
      SquareMonotone(BandRadius(die, 5), rad);
    }
    assert !Below(rad * rad, BandRadius(die, 5));
    assert !InBand(rad * rad, die, 5);
    InBandIffFirst(rad * rad, die, 5);
    var b := FirstBand(rad * rad, die, 0);
    if b < 5 {
      BelowFromFirst(rad * rad, die, 5);
    }
  }

  // ---------------------------------------------------------------------------
  // Rectangular conductivity map
  // ---------------------------------------------------------------------------

  /** np.linspace(-8, 8, 5). */
  const ChannelPositions: seq<real> := [-8.0, -4.0, 0.0, 4.0, 8.0]

  predicate NearChannel(c: real, count: nat)
    requires count <= |ChannelPositions|
  {
    exists q :: 0 <= q < count && Abs(c - ChannelPositions[q]) < 0.3
  }

  /** Copper wherever a vertical or a horizontal channel passes within 0.3 mm. */
  function ChannelConductivity(x: real, y: real): (k: real)
    ensures k == CopperConductivity || k == SiliconConductivity
    ensures k == CopperConductivity <==> NearChannel(x, 5) || NearChannel(y, 5)
  {
    if NearChannel(x, 5) || NearChannel(y, 5) then CopperConductivity else SiliconConductivity
  }

  /** create_thermal_conductivity_map_rectangular: silicon, then the vertical
      channels, then the horizontal ones. */
  method CreateConductivityMapRectangular(n: nat, die: real) returns (K: array2<real>)
    requires n >= 1
    ensures IsSquare(K, n)
    ensures forall i, j :: 0 <= i < n && 0 <= j < n ==>
              K[i, j] == ChannelConductivity(CellX(n, die, i, j), CellY(n, die, i, j))
  {
    K := new real[n, n]((i, j) => SiliconConductivity);
    for q := 0 to |ChannelPositions|
      invariant forall i, j :: 0 <= i < n && 0 <= j < n ==>
                  K[i, j] == if NearChannel(CellX(n, die, i, j), q) then CopperConductivity else SiliconConductivity
    {
      var xPos := ChannelPositions[q];
      forall i, j | 0 <= i < n && 0 <= j < n && Abs(CellX(n, die, i, j) - xPos) < 0.3 {
        K[i, j] := CopperConductivity;
      }
    }
    for q := 0 to |ChannelPositions|
      invariant forall i, j :: 0 <= i < n && 0 <= j < n ==>
                  K[i, j] == if NearChannel(CellX(n, die, i, j), 5) || NearChannel(CellY(n, die, i, j), q)
                             then CopperConductivity else SiliconConductivity
    {
      var yPos := ChannelPositions[q];
      forall i, j | 0 <= i < n && 0 <= j < n && Abs(CellY(n, die, i, j) - yPos) < 0.3 {
        K[i, j] := CopperConductivity;
      }
    }
  }

  // ---------------------------------------------------------------------------
  // Jacobi solver
  // ---------------------------------------------------------------------------

  predicate Interior(n: int, i: int, j: int)
  {
    1 <= i < n - 1 && 1 <= j < n - 1
  }

  predicate OnEdge(n: int, i: int, j: int)
  {
    0 <= i < n && 0 <= j < n && !Interior(n, i, j)
  }

  /** (next - 2 centre + prev) / dx^2. */
  function SecondDifference(next: real, centre: real, prev: real, dx: real): real
    requires dx != 0.0
  {
    (next - 2.0 * centre + prev) / (dx * dx)
  }

  /** The explicit update of one interior cell from the previous sweep's values:
      centre plus a quarter of the two second differences, plus q/k * 0.01 with
      q = power * 1e6. */
  function JacobiValue(centre: real, down: real, up: real, right: real, left: real,
                       power: real, k: real, dx: real): real
    requires k != 0.0 && dx != 0.0
  {
    centre + 0.25 * (SecondDifference(down, centre, up, dx) + SecondDifference(right, centre, left, dx))
      + (power * 1000000.0) / k * 0.01
  }

  /** One sweep: every interior cell of T is computed from Told alone, then
      the four edges are set to the ambient temperature. */
  method JacobiSweep(T: array2<real>, Told: array2<real>, P: array2<real>, K: array2<real>, dx: real)
    requires IsSquare(T, T.Length0) && IsSquare(Told, T.Length0) && IsSquare(P, T.Length0) && IsSquare(K, T.Length0)
    requires T != Told && T != P && T != K
    requires dx != 0.0
    requires forall i, j :: Interior(T.Length0, i, j) ==> K[i, j] > 0.0
    modifies T
    ensures forall i, j {:trigger T[i, j]} :: Interior(T.Length0, i, j) ==>
              T[i, j] == JacobiValue(Told[i, j], Told[i + 1, j], Told[i - 1, j], Told[i, j + 1], Told[i, j - 1],
                                     P[i, j], K[i, j], dx)
    ensures forall i, j :: OnEdge(T.Length0, i, j) ==> T[i, j] == AmbientTemp
  {
    var n := T.Length0;
    var i := 1;
    while i < n - 1
      invariant 1 <= i && (n >= 2 ==> i <= n - 1)
      invariant forall a, b {:trigger T[a, b]} :: Interior(n, a, b) && a < i ==>
                  T[a, b] == JacobiValue(Told[a, b], Told[a + 1, b], Told[a - 1, b], Told[a, b + 1], Told[a, b - 1],
                                         P[a, b], K[a, b], dx)
    {
      var j := 1;
      while j < n - 1
        invariant 1 <= j <= n - 1
        invariant forall a, b {:trigger T[a, b]} :: Interior(n, a, b) && (a < i || (a == i && b < j)) ==>
                    T[a, b] == JacobiValue(Told[a, b], Told[a + 1, b], Told[a - 1, b], Told[a, b + 1], Told[a, b - 1],
                                           P[a, b], K[a, b], dx)
      {
        T[i, j] := JacobiValue(Told[i, j], Told[i + 1, j], Told[i - 1, j], Told[i, j + 1], Told[i, j - 1],
                               P[i, j], K[i, j], dx);
        j := j + 1;
      }
      i := i + 1;
    }
    forall i, j | 0 <= i < n && 0 <= j < n && OnEdge(n, i, j) {
      T[i, j] := AmbientTemp;
    }
  }

  /** One Jacobi sweep as values: every interior cell of after is computed
      from before alone, and the edges of after are ambient. */
  ghost predicate JacobiStep(before: Grid, after: Grid, P: array2<real>, K: array2<real>, dx: real)
    reads P, K
  {
    var n := P.Length0;
    && IsGrid(before, n) && IsGrid(after, n) && IsSquare(P, n) && IsSquare(K, n)
    && (forall i, j :: OnEdge(n, i, j) ==> after[i][j] == AmbientTemp)
    && (forall i, j {:trigger K[i, j]} :: Interior(n, i, j) ==>
          && K[i, j] != 0.0 && dx != 0.0
          && after[i][j] == JacobiValue(before[i][j], before[i + 1][j], before[i - 1][j], before[i][j + 1], before[i][j - 1],
                                        P[i, j], K[i, j], dx))
  }

  /** The fields of solve_heat_equation, one per sweep: fields[k + 1] is a
      Jacobi sweep of fields[k]. Stated from the last sweep back. */
  ghost predicate JacobiTrace(fields: seq<Grid>, P: array2<real>, K: array2<real>, dx: real)
    reads P, K
    decreases |fields|
  {
    && |fields| >= 1
    && (|fields| > 1 ==>
          && JacobiTrace(fields[..|fields| - 1], P, K, dx)
          && JacobiStep(fields[|fields| - 2], fields[|fields| - 1], P, K, dx))
  }

  lemma {:induction false} JacobiTraceStep(fields: seq<Grid>, P: array2<real>, K: array2<real>, dx: real, k: nat)
    requires JacobiTrace(fields, P, K, dx) && k + 1 < |fields|
    ensures JacobiStep(fields[k], fields[k + 1], P, K, dx)
    decreases |fields|
  {
    if k + 2 < |fields| {
      var prefix := fields[..|fields| - 1];
      JacobiTraceStep(prefix, P, K, dx, k);
      assert prefix[k] == fields[k] && prefix[k + 1] == fields[k + 1];
    }
  }

  /** One more sweep extends a trace. */
  lemma JacobiTraceExtend(fields: seq<Grid>, next: Grid, P: array2<real>, K: array2<real>, dx: real)
    requires JacobiTrace(fields, P, K, dx) && JacobiStep(fields[|fields| - 1], next, P, K, dx)
    ensures JacobiTrace(fields + [next], P, K, dx)
    ensures (fields + [next])[0] == fields[0] && (fields + [next])[|fields|] == next
  {
    assert (fields + [next])[..|fields|] == fields;
  }

  /** checks[c] is the largest cell-wise change of sweep 100 c, the one that
      turns fields[100 c] into fields[100 c + 1]. Stated from the last check back. */
  ghost predicate ChecksOf(fields: seq<Grid>, checks: seq<real>, n: nat)
    decreases |checks|
  {
    |checks| > 0 ==>
      var c := |checks| - 1;
      && ChecksOf(fields, checks[..c], n)
      && 100 * c + 1 < |fields|
      && IsMaxChange(fields[100 * c], fields[100 * c + 1], n, checks[c])
  }

  lemma {:induction false} ChecksOfStep(fields: seq<Grid>, checks: seq<real>, n: nat, c: nat)
    requires ChecksOf(fields, checks, n) && c < |checks|
    ensures 100 * c + 1 < |fields| && IsMaxChange(fields[100 * c], fields[100 * c + 1], n, checks[c])
    decreases |checks|
  {
    if c + 1 < |checks| {
      var prefix := checks[..|checks| - 1];
      ChecksOfStep(fields, prefix, n, c);
      assert prefix[c] == checks[c];
    }
  }

  /** More sweeps do not disturb the checks already made. */
  lemma {:induction false} ChecksOfGrow(fields: seq<Grid>, next: Grid, checks: seq<real>, n: nat)
    requires ChecksOf(fields, checks, n)
    ensures ChecksOf(fields + [next], checks, n)
    decreases |checks|
  {
    if |checks| > 0 {
      var c := |checks| - 1;
      ChecksOfGrow(fields, next, checks[..c], n);
      assert (fields + [next])[100 * c] == fields[100 * c] && (fields + [next])[100 * c + 1] == fields[100 * c + 1];
    }
  }

  /** A check of the next hundredth sweep extends the checks. */
  lemma ChecksExtend(fields: seq<Grid>, checks: seq<real>, e: real, n: nat)
    requires ChecksOf(fields, checks, n) && 100 * |checks| + 1 < |fields|
    requires IsMaxChange(fields[100 * |checks|], fields[100 * |checks| + 1], n, e)
    ensures ChecksOf(fields, checks + [e], n)
  {
    assert (checks + [e])[..|checks|] == checks;
  }

  /** A whole run of solve_heat_equation: it starts from the ambient field, each
      field is a sweep of the one before, and checks[c] measures sweep 100 c. */
  ghost predicate HeatRun(fields: seq<Grid>, checks: seq<real>, P: array2<real>, K: array2<real>, dx: real)
    reads P, K
  {
    |fields| >= 1 && HeatProgress(fields, checks, ConstantGrid(P.Length0, AmbientTemp), |fields| - 1, P, K, dx)
  }

  /** The first sweeps sweeps of a run from start: the fields they produced and
      the checks they made. */
  ghost predicate HeatProgress(fields: seq<Grid>, checks: seq<real>, start: Grid, sweeps: nat,
                               P: array2<real>, K: array2<real>, dx: real)
    reads P, K
  {
    && JacobiTrace(fields, P, K, dx)
    && fields[0] == start && |fields| == sweeps + 1
    && ChecksOf(fields, checks, P.Length0)
    && |checks| == NumChecks(sweeps)
  }

  /** What a check below 0.1 means for the field: in the sweep it measured,
      no cell moved by 0.1 K or more. */
  lemma ConvergedCheckMeaning(fields: seq<Grid>, checks: seq<real>, P: array2<real>, K: array2<real>, dx: real, c: nat)
    requires HeatRun(fields, checks, P, K, dx) && c < |checks| && checks[c] < 0.1
    ensures 100 * c + 1 < |fields| && IsGrid(fields[100 * c], P.Length0) && IsGrid(fields[100 * c + 1], P.Length0)
    ensures forall i, j :: 0 <= i < P.Length0 && 0 <= j < P.Length0 ==>
              Abs(fields[100 * c + 1][i][j] - fields[100 * c][i][j]) < 0.1
  {
    ChecksOfStep(fields, checks, P.Length0, c);
    IsMaxChangeIff(fields[100 * c], fields[100 * c + 1], P.Length0, checks[c]);
  }

  /** solve_heat_equation: start at ambient, run at most numIterations sweeps,
      and on sweeps 0, 100, 200, ... compare with the previous field, stopping
      when the largest change is below 0.1 K. The ghost fields are the field
      after each sweep, the ghost checks the largest change of each check made. */
  method SolveHeatEquation(P: array2<real>, K: array2<real>, die: real, numIterations: nat)
    returns (T: array2<real>, sweeps: nat, converged: bool, ghost fields: seq<Grid>, ghost checks: seq<real>)
    requires P.Length0 >= 1 && IsSquare(P, P.Length0) && IsSquare(K, P.Length0)
    requires die != 0.0
    requires forall i, j :: Interior(P.Length0, i, j) ==> K[i, j] > 0.0
    ensures IsSquare(T, P.Length0)
    ensures HeatRun(fields, checks, P, K, (die / (P.Length0 as real)) * 0.001)
    ensures |fields| == sweeps + 1 && Snapshot(T) == fields[sweeps]
    ensures forall i, j :: OnEdge(P.Length0, i, j) ==> T[i, j] == AmbientTemp
    ensures sweeps <= numIterations
    ensures !converged ==> sweeps == numIterations
    ensures converged ==> sweeps >= 1 && (sweeps - 1) % 100 == 0
    ensures converged <==> |checks| > 0 && checks[|checks| - 1] < 0.1
    ensures forall c :: 0 <= c < |checks| - 1 ==> checks[c] >= 0.1
  {
    var n := P.Length0;
    var dx := (die / (n as real)) * 0.001;
    T := AmbientStart(n);
    sweeps, converged, fields, checks := Iterate(T, P, K, dx, numIterations, ConstantGrid(n, AmbientTemp));
    FinalEdges(T, fields, P, K, dx);
    AllButLastAtLeast(checks, 0.1);
  }

  /** np.ones_like(T) * AMBIENT_TEMP. */
  method AmbientStart(n: nat) returns (T: array2<real>)
    ensures fresh(T) && IsSquare(T, n)
    ensures Snapshot(T) == ConstantGrid(n, AmbientTemp)
  {
    T := new real[n, n]((i, j) => AmbientTemp);
    SnapshotIs(T, ConstantGrid(n, AmbientTemp));
  }

  /** The iteration loop of solve_heat_equation. */
  method Iterate(T: array2<real>, P: array2<real>, K: array2<real>, dx: real, numIterations: nat, ghost start: Grid)
    returns (sweeps: nat, converged: bool, ghost fields: seq<Grid>, ghost checks: seq<real>)
    requires T.Length0 >= 1 && IsSquare(T, T.Length0) && IsSquare(P, T.Length0) && IsSquare(K, T.Length0)
    requires T != P && T != K
    requires dx != 0.0
    requires forall i, j :: Interior(T.Length0, i, j) ==> K[i, j] > 0.0
    requires Snapshot(T) == start
    modifies T
    ensures HeatProgress(fields, checks, start, sweeps, P, K, dx) && Snapshot(T) == fields[sweeps]
    ensures sweeps <= numIterations
    ensures !converged ==> sweeps == numIterations
    ensures converged ==> sweeps >= 1 && (sweeps - 1) % 100 == 0
    ensures converged <==> |checks| > 0 && checks[|checks| - 1] < 0.1
    ensures |checks| > 0 ==> AllAtLeast(checks[..|checks| - 1], 0.1)
  {
    sweeps, converged, fields, checks := 0, false, [start], [];
    while sweeps < numIterations
      invariant sweeps <= numIterations && !converged
      invariant HeatProgress(fields, checks, start, sweeps, P, K, dx) && Snapshot(T) == fields[sweeps]
      invariant AllAtLeast(checks, 0.1)
    {
      ghost var previous := checks;
      var checked, maxChange;
      checked, maxChange, sweeps, fields, checks := TracedIteration(T, P, K, dx, sweeps, start, fields, checks);
      StopStep(previous, checks, checked, maxChange);
      if checked && maxChange < 0.1 {
        converged := true;
        break;
      }
    }
  }

  /** The stopping rule of solve_heat_equation over one iteration: a check
      that stops the run is the last check, and every other check so far was
      at least 0.1. */
  lemma StopStep(previous: seq<real>, checks: seq<real>, checked: bool, maxChange: real)
    requires AllAtLeast(previous, 0.1)
    requires checks == if checked then previous + [maxChange] else previous
    ensures checked && maxChange < 0.1 ==>
              |checks| > 0 && checks[|checks| - 1] < 0.1 && AllAtLeast(checks[..|checks| - 1], 0.1)
    ensures !(checked && maxChange < 0.1) ==> AllAtLeast(checks, 0.1)
  {
    if checked {
      assert checks[..|checks| - 1] == previous;
    }
  }

  /** One iteration of the loop together with its record in the trace. */
  method TracedIteration(T: array2<real>, P: array2<real>, K: array2<real>, dx: real, iteration: nat,
                         ghost start: Grid, ghost fields: seq<Grid>, ghost checks: seq<real>)
    returns (checked: bool, maxChange: real, next: nat, ghost fields': seq<Grid>, ghost checks': seq<real>)
    requires T.Length0 >= 1 && IsSquare(T, T.Length0) && IsSquare(P, T.Length0) && IsSquare(K, T.Length0)
    requires T != P && T != K
    requires dx != 0.0
    requires forall i, j :: Interior(T.Length0, i, j) ==> K[i, j] > 0.0
    requires HeatProgress(fields, checks, start, iteration, P, K, dx) && Snapshot(T) == fields[iteration]
    modifies T
    ensures next == iteration + 1
    ensures checked <==> (next - 1) % 100 == 0
    ensures HeatProgress(fields', checks', start, next, P, K, dx) && Snapshot(T) == fields'[next]
    ensures fields' == fields + [Snapshot(T)]
    ensures checks' == if checked then checks + [maxChange] else checks
  {
    checked, maxChange := SweepAndCheck(T, P, K, dx, iteration);
    next := iteration + 1;
    fields', checks' := fields + [Snapshot(T)], if checked then checks + [maxChange] else checks;
    RecordIteration(fields, checks, start, Snapshot(T), checked, maxChange, iteration, P, K, dx);
  }

  /** The record of one iteration: its sweep joins the trace, and when it was a
      checked iteration, its largest change joins the checks. */
  lemma RecordIteration(fields: seq<Grid>, checks: seq<real>, start: Grid, next: Grid, checked: bool, maxChange: real,
                        iteration: nat, P: array2<real>, K: array2<real>, dx: real)
    requires HeatProgress(fields, checks, start, iteration, P, K, dx)
    requires JacobiStep(fields[iteration], next, P, K, dx)
    requires checked <==> iteration % 100 == 0
    requires checked ==> IsMaxChange(fields[iteration], next, P.Length0, maxChange)
    ensures HeatProgress(fields + [next], if checked then checks + [maxChange] else checks, start, iteration + 1, P, K, dx)
    ensures (fields + [next])[iteration + 1] == next
  {
    JacobiTraceExtend(fields, next, P, K, dx);
    ChecksOfGrow(fields, next, checks, P.Length0);
    CheckCount(iteration);
    if checked {
      ChecksExtend(fields + [next], checks, maxChange, P.Length0);
    }
  }

  /** The edges of the array holding the last field of a run are ambient. */
  lemma FinalEdges(T: array2<real>, fields: seq<Grid>, P: array2<real>, K: array2<real>, dx: real)
    requires JacobiTrace(fields, P, K, dx) && fields[0] == ConstantGrid(P.Length0, AmbientTemp)
    requires IsSquare(T, P.Length0) && Snapshot(T) == fields[|fields| - 1]
    ensures forall i, j :: OnEdge(P.Length0, i, j) ==> T[i, j] == AmbientTemp
  {
    if |fields| > 1 {
      JacobiTraceStep(fields, P, K, dx, |fields| - 2);
    }
  }

  /** The body of one iteration: copy, sweep, and on every hundredth iteration
      measure the largest change against the copy. */
  method SweepAndCheck(T: array2<real>, P: array2<real>, K: array2<real>, dx: real, iteration: nat)
    returns (checked: bool, maxChange: real)
    requires T.Length0 >= 1 && IsSquare(T, T.Length0) && IsSquare(P, T.Length0) && IsSquare(K, T.Length0)
    requires T != P && T != K
    requires dx != 0.0
    requires forall i, j :: Interior(T.Length0, i, j) ==> K[i, j] > 0.0
    modifies T
    ensures checked <==> iteration % 100 == 0
    ensures forall i, j {:trigger T[i, j]} :: Interior(T.Length0, i, j) ==>
              T[i, j] == JacobiValue(old(T[i, j]), old(T[i + 1, j]), old(T[i - 1, j]), old(T[i, j + 1]), old(T[i, j - 1]),
                                     P[i, j], K[i, j], dx)
    ensures forall i, j :: OnEdge(T.Length0, i, j) ==> T[i, j] == AmbientTemp
    ensures JacobiStep(old(Snapshot(T)), Snapshot(T), P, K, dx)
    ensures checked ==> IsMaxChange(old(Snapshot(T)), Snapshot(T), T.Length0, maxChange)
  {
    var old_T := CopyField(T);
    SnapshotsEqual(old_T, T);
    JacobiSweep(T, old_T, P, K, dx);
    JacobiStepOf(old_T, T, P, K, dx);
    checked, maxChange := iteration % 100 == 0, 0.0;
    if checked {
      maxChange := MaxAbsDiff(T, old_T);
      MaxChangeOfSnapshots(old_T, T, maxChange);
    }
  }

  /** The array-level facts of a sweep are a JacobiStep of the snapshots. */
  lemma JacobiStepOf(Told: array2<real>, T: array2<real>, P: array2<real>, K: array2<real>, dx: real)
    requires IsSquare(T, T.Length0) && IsSquare(Told, T.Length0) && IsSquare(P, T.Length0) && IsSquare(K, T.Length0)
    requires dx != 0.0
    requires forall i, j :: Interior(T.Length0, i, j) ==> K[i, j] > 0.0
    requires forall i, j {:trigger T[i, j]} :: Interior(T.Length0, i, j) ==>
               T[i, j] == JacobiValue(Told[i, j], Told[i + 1, j], Told[i - 1, j], Told[i, j + 1], Told[i, j - 1],
                                      P[i, j], K[i, j], dx)
    requires forall i, j :: OnEdge(T.Length0, i, j) ==> T[i, j] == AmbientTemp
    ensures JacobiStep(Snapshot(Told), Snapshot(T), P, K, dx)
  {
  }

  /** The number of checks made in the first sweeps sweeps: one for each
      iteration below sweeps that is a multiple of 100. */
  function NumChecks(sweeps: nat): nat
    decreases sweeps
  {
    if sweeps == 0 then 0 else NumChecks(sweeps - 1) + (if (sweeps - 1) % 100 == 0 then 1 else 0)
  }

  /** Sweep it (counting from 0) adds a check exactly when it is a multiple of
      100, and the checks before sweep 100 c number c. */
  lemma CheckCount(it: nat)
    ensures NumChecks(it + 1) == NumChecks(it) + (if it % 100 == 0 then 1 else 0)
    ensures it % 100 == 0 ==> NumChecks(it) * 100 == it
  {
    NumChecksClosed(it);
  }

  /** The closed form: ceil(sweeps / 100). */
  lemma {:induction false} NumChecksClosed(sweeps: nat)
    ensures NumChecks(sweeps) == (sweeps + 99) / 100
    decreases sweeps
  {
    if sweeps > 0 {
      var it := sweeps - 1;
      NumChecksClosed(it);
      var q, r := it / 100, it % 100;
      assert it == q * 100 + r;
      if r == 0 {
        DivModUnique(it + 99, 100, q, 99);
        DivModUnique(it + 100, 100, q + 1, 0);
      } else {
        DivModUnique(it + 99, 100, q + 1, r - 1);
        DivModUnique(it + 100, 100, q + 1, r);
      }
    }
  }

  // ---------------------------------------------------------------------------
  // Metrics (guards and ranges)
  // ---------------------------------------------------------------------------

  const KelvinOffset: real := 273.15

  /** Per-layout metrics; temperatures in Celsius as the source reports them.
      The standard deviation needs a square root and is supplied by the caller. */
  datatype LayoutMetrics = LayoutMetrics(
    maxTempC: real,
    minTempC: real,
    avgTempC: real,
    stdTemp: real,
    tempRange: real,
    hotspotCount: nat)

  function AnalyzeLayout(T: array2<real>, stdTemp: real): (m: LayoutMetrics)
    reads T
    requires T.Length0 == T.Length1 && T.Length0 >= 1
    ensures m.tempRange == m.maxTempC - m.minTempC && m.tempRange >= 0.0
    ensures m.minTempC <= m.avgTempC <= m.maxTempC
    ensures forall a, b :: 0 <= a < T.Length0 && 0 <= b < T.Length0 ==>
              m.minTempC <= T[a, b] - KelvinOffset <= m.maxTempC
    ensures exists a, b :: 0 <= a < T.Length0 && 0 <= b < T.Length0 && T[a, b] - KelvinOffset == m.maxTempC
    ensures exists a, b :: 0 <= a < T.Length0 && 0 <= b < T.Length0 && T[a, b] - KelvinOffset == m.minTempC
    ensures m.hotspotCount <= T.Length0 * T.Length0
  {
    var n := T.Length0;
    var s := Window(T, 0, n);
    WindowCells(T, 0, n);
    MeanBetween(s);
    var mean := Sum(s) / (|s| as real);
    LayoutMetrics(
      SeqMax(s) - KelvinOffset,
      SeqMin(s) - KelvinOffset,
      mean - KelvinOffset,
      stdTemp,
      SeqMax(s) - SeqMin(s),
      CountAbove(s, mean + 2.0 * stdTemp))
  }

  /** The hotspot reduction, guarded so that a rectangular count of 0 gives 0. */
  function HotspotReductionPct(rectCount: nat, yantraCount: nat): real
  {
    if rectCount > 0 then ((rectCount - yantraCount) as real) / (rectCount as real) * 100.0 else 0.0
  }

  lemma HotspotReductionFacts(rectCount: nat, yantraCount: nat)
    ensures rectCount == 0 ==> HotspotReductionPct(rectCount, yantraCount) == 0.0
    ensures HotspotReductionPct(rectCount, yantraCount) <= 100.0
    ensures rectCount > 0 ==> (HotspotReductionPct(rectCount, yantraCount) == 100.0 <==> yantraCount == 0)
    ensures rectCount > 0 ==> (HotspotReductionPct(rectCount, yantraCount) == 0.0 <==> yantraCount == rectCount)
  {
    if rectCount > 0 {
      QuotientFacts((rectCount - yantraCount) as real, rectCount as real);
    }
  }

  /** A percentage whose unguarded float64 division gives inf or nan (None) on a zero base. */
  function RelativePct(base: real, other: real): (r: Option<real>)
    ensures r.None? <==> base == 0.0
    ensures r.Some? && other == base ==> r.value == 0.0
  {
    if base == 0.0 then None else Some((base - other) / base * 100.0)
  }

  datatype ImprovementMetrics = ImprovementMetrics(
    maxTempReductionC: real,
    maxTempReductionPct: Option<real>,
    uniformityImprovementPct: Option<real>,
    rangeReductionPct: Option<real>,
    hotspotReductionPct: real)

  function CompareLayouts(rect: LayoutMetrics, yantra: LayoutMetrics): (r: ImprovementMetrics)
    ensures r.maxTempReductionC == rect.maxTempC - yantra.maxTempC
    ensures r.maxTempReductionPct.None? <==> rect.maxTempC == 0.0
    ensures r.uniformityImprovementPct.None? <==> rect.stdTemp == 0.0
    ensures r.rangeReductionPct.None? <==> rect.tempRange == 0.0
    ensures rect.hotspotCount == 0 ==> r.hotspotReductionPct == 0.0
    ensures r.hotspotReductionPct <= 100.0
  {
    HotspotReductionFacts(rect.hotspotCount, yantra.hotspotCount);
    ImprovementMetrics(
      rect.maxTempC - yantra.maxTempC,
      RelativePct(rect.maxTempC, yantra.maxTempC),
      RelativePct(rect.stdTemp, yantra.stdTemp),
      RelativePct(rect.tempRange, yantra.tempRange),
      HotspotReductionPct(rect.hotspotCount, yantra.hotspotCount))
  }
}
