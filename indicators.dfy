/** The status bands of the dashboard: the PUE grades of the home page and of
    the PUE page, the hydrogen safety threshold, and the quality bands of the
    data-quality cards. Each grade is characterised by how many of the band
    limits a value has passed, which makes "a worse value never gets a better
    grade" a statement about counting. */
module Indicators {
  import opened Series

  /** The number of limits that `x` has reached (`limit <= x`). */
  function Reached(limits: seq<real>, x: real): (r: nat)
    ensures r <= |limits|
  {
    if limits == [] then 0
    else (if limits[0] <= x then 1 else 0) + Reached(limits[1..], x)
  }

  /** The number of limits that `x` lies strictly above (`limit < x`). */
  function Exceeded(limits: seq<real>, x: real): (r: nat)
    ensures r <= |limits|
  {
    if limits == [] then 0
    else (if limits[0] < x then 1 else 0) + Exceeded(limits[1..], x)
  }

  /** Counting over three limits, written out. */
  lemma PassedThree(a: real, b: real, c: real, x: real)
    ensures Reached([a, b, c], x) == (if a <= x then 1 else 0) + (if b <= x then 1 else 0) + (if c <= x then 1 else 0)
    ensures Exceeded([a, b, c], x) == (if a < x then 1 else 0) + (if b < x then 1 else 0) + (if c < x then 1 else 0)
  {
    assert [a, b, c][1..] == [b, c] && [b, c][1..] == [c] && [c][1..] == [];
    assert Reached([c], x) == (if c <= x then 1 else 0) + Reached([], x);
    assert Reached([b, c], x) == (if b <= x then 1 else 0) + Reached([c], x);
    assert Reached([a, b, c], x) == (if a <= x then 1 else 0) + Reached([b, c], x);
    assert Exceeded([c], x) == (if c < x then 1 else 0) + Exceeded([], x);
    assert Exceeded([b, c], x) == (if b < x then 1 else 0) + Exceeded([c], x);
    assert Exceeded([a, b, c], x) == (if a < x then 1 else 0) + Exceeded([b, c], x);
  }

  /** Passing limits is monotone: a larger value passes at least as many. */
  lemma {:induction false} PassedMonotone(limits: seq<real>, x: real, y: real)
    requires x <= y
    ensures Reached(limits, x) <= Reached(limits, y)
    ensures Exceeded(limits, x) <= Exceeded(limits, y)
  {
    if limits != [] {
      PassedMonotone(limits[1..], x, y);
    }
  }

  // ---------------------------------------------------------------- PUE

  /** Limits of the PUE page's grades: excellent below 1.5, good below 1.6,
      fair below 1.8, poor from 1.8 on. */
  const PueLimits: seq<real> := [1.5, 1.6, 1.8]

  /** The four grades of the PUE page, best first. */
  datatype PueGrade = Excellent | Good | Fair | Poor

  /** Position of a grade, 0 for the best. */
  function GradeRank(g: PueGrade): nat {
    match g
    case Excellent => 0
    case Good => 1
    case Fair => 2
    case Poor => 3
  }

  /** The grade of the PUE page for its latest PUE: its rank is the number
      of PUE limits the value has reached. */
  function PueGradeOf(pue: real): (g: PueGrade)
    ensures GradeRank(g) == Reached(PueLimits, pue)
  {
    PassedThree(1.5, 1.6, 1.8, pue);
    if pue < 1.5 then Excellent
    else if pue < 1.6 then Good
    else if pue < 1.8 then Fair
    else Poor
  }

  /** A higher PUE never gets a better grade. */
  lemma PueGradeMonotone(p: real, q: real)
    requires p <= q
    ensures GradeRank(PueGradeOf(p)) <= GradeRank(PueGradeOf(q))
  {
    PassedMonotone(PueLimits, p, q);
  }

  /** The three statuses of the home page's PUE card. */
  datatype HomePueStatus = HomeExcellent | HomeGood | NeedsAttention

  function HomeRank(s: HomePueStatus): nat {
    match s
    case HomeExcellent => 0
    case HomeGood => 1
    case NeedsAttention => 2
  }

  /** The home page's status: the PUE page's grades with fair and poor
      merged into "needs attention". */
  function HomePueStatusOf(pue: real): (s: HomePueStatus)
    ensures HomeRank(s) == if Reached(PueLimits, pue) <= 2 then Reached(PueLimits, pue) else 2
    ensures s == NeedsAttention <==> PueGradeOf(pue) in {Fair, Poor}
  {
    PassedThree(1.5, 1.6, 1.8, pue);
    if pue < 1.5 then HomeExcellent else if pue < 1.6 then HomeGood else NeedsAttention
  }

  /** The home page's PUE card: the latest non-zero PUE with its status, or
      "no data" (None) when the series has no non-zero reading. */
  function HomePueCard(pue: seq<real>): (r: Option<(real, HomePueStatus)>)
    ensures r.None? <==> !AnyNonZero(pue)
    ensures r.Some? ==> IsLatestReading(pue, r.value.0) && r.value.1 == HomePueStatusOf(r.value.0)
  {
    match LatestReading(pue)
    case None => None
    case Some(latest) => Some((latest, HomePueStatusOf(latest)))
  }

  /** What the PUE page shows below its chart: the statistics and the grade. */
  datatype PueReport = PueReport(stats: Stats, grade: PueGrade)

  /** The PUE page: statistics of the non-zero PUE readings and the grade of
      the latest one, or "no data" when there is none. */
  function PuePage(pue: seq<real>): (r: Option<PueReport>)
    ensures r.None? <==> !AnyNonZero(pue)
    ensures r.Some? ==> IsLatestReading(pue, r.value.stats.latest)
    ensures r.Some? ==> GradeRank(r.value.grade) == Reached(PueLimits, r.value.stats.latest)
    ensures r.Some? ==> r.value.stats.minimum in pue && r.value.stats.maximum in pue
    ensures r.Some? ==> r.value.stats.minimum != 0.0 && r.value.stats.maximum != 0.0
    ensures r.Some? ==> forall j :: 0 <= j < |pue| && pue[j] != 0.0 ==>
              r.value.stats.minimum <= pue[j] <= r.value.stats.maximum
  {
    match SeriesStats(pue)
    case None => None
    case Some(stats) => Some(PueReport(stats, PueGradeOf(stats.latest)))
  }

  // ----------------------------------------------------------- hydrogen

  /** Hydrogen concentrations from this value on (in ppm) are unsafe. */
  const HydrogenLimit: real := 50.0

  datatype HydrogenStatus = Safe | Caution

  /** The reading at the last non-zero position is unique. */
  lemma LatestReadingUnique(s: seq<real>, x: real, y: real)
    requires IsLatestReading(s, x) && IsLatestReading(s, y)
    ensures x == y
  {
    var i :| 0 <= i < |s| && s[i] == x && x != 0.0 && forall j' :: i < j' < |s| ==> s[j'] == 0.0;
    var k :| 0 <= k < |s| && s[k] == y && y != 0.0 && forall j' :: k < j' < |s| ==> s[j'] == 0.0;
    assert !(i < k) && !(k < i);
  }

  /** The hydrogen status shown on the home page and the hydrogen page:
      "safe" exactly when the latest non-zero reading is below 50 ppm, and
      "no data" (None) when there is no non-zero reading. */
  function HydrogenSafety(hydrogen: seq<real>): (r: Option<HydrogenStatus>)
    ensures r.None? <==> !AnyNonZero(hydrogen)
    ensures forall x :: IsLatestReading(hydrogen, x) ==> (r == Some(Safe) <==> x < HydrogenLimit)
  {
    match LatestReading(hydrogen)
    case None => None
    case Some(latest) =>
      forall x | IsLatestReading(hydrogen, x) ensures x == latest {
        LatestReadingUnique(hydrogen, x, latest);
      }
      Some(if latest < HydrogenLimit then Safe else Caution)
  }

  // -------------------------------------------------------- data quality

  /** Limits of the quality bands, a rate being a percentage: excellent
      above 90, good above 70, fair above 50, poor otherwise. */
  const QualityLimits: seq<real> := [50.0, 70.0, 90.0]

  datatype QualityBand = QualityExcellent | QualityGood | QualityFair | QualityPoor

  /** Position of a band, 0 for the worst. */
  function BandLevel(b: QualityBand): nat {
    match b
    case QualityPoor => 0
    case QualityFair => 1
    case QualityGood => 2
    case QualityExcellent => 3
  }

  /** The band of the completeness and valid-rate cards: its level is the
      number of quality limits the rate lies strictly above. */
  function QualityBandOf(rate: real): (b: QualityBand)
    ensures BandLevel(b) == Exceeded(QualityLimits, rate)
  {
    PassedThree(50.0, 70.0, 90.0, rate);
    if rate > 90.0 then QualityExcellent
    else if rate > 70.0 then QualityGood
    else if rate > 50.0 then QualityFair
    else QualityPoor
  }

  /** A higher rate never gets a worse band. */
  lemma QualityBandMonotone(a: real, b: real)
    requires a <= b
    ensures BandLevel(QualityBandOf(a)) <= BandLevel(QualityBandOf(b))
  {
    PassedMonotone(QualityLimits, a, b);
  }
}
