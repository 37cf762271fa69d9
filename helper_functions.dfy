/** The labelling functions of the penguin sensor pipeline: each maps a
    month, a date or a reading to a categorical label (helper_functions.py).
    Readings are exact rationals (`real`); Python's floor division `//` on a
    non-negative reading is `.Floor` of the quotient. */
module HelperFunctions {
  import opened Decimal

  datatype Option<T> = None | Some(value: T)

  /** The fields of a Python `datetime` that the labels read. */
  datatype DateTime = DateTime(year: int, month: int, day: int)

  predicate IsLeapYear(year: int) {
    year % 4 == 0 && (year % 100 != 0 || year % 400 == 0)
  }

  function DaysInMonth(year: int, month: int): (n: int)
    requires 1 <= month <= 12
    ensures 28 <= n <= 31
  {
    if month == 2 then (if IsLeapYear(year) then 29 else 28)
    else if month in {4, 6, 9, 11} then 30
    else 31
  }

  /** What Python's `datetime` guarantees of every value it builds. */
  predicate ValidDate(d: DateTime) {
    1 <= d.year <= 9999 && 1 <= d.month <= 12 && 1 <= d.day <= DaysInMonth(d.year, d.month)
  }

  // ---------------------------------------------------------------------
  // season

  datatype Season = Autumn | Winter | Spring | Summer

  /** The string the source returns for each season. */
  function SeasonName(s: Season): string {
    match s
    case Autumn => "AUTUMN"
    case Winter => "WINTER"
    case Spring => "SPRING"
    case Summer => "SUMMER"
  }

  /** Seasons in calendar order, starting with the one that holds December. */
  function QuarterSeason(q: int): Season
    requires 0 <= q < 4
  {
    [Summer, Autumn, Winter, Spring][q]
  }

  function NextSeason(s: Season): Season {
    match s
    case Summer => Autumn
    case Autumn => Winter
    case Winter => Spring
    case Spring => Summer
  }

  /** Southern-hemisphere season of a date's month; None for a month outside
      1..12. A month lies in the season of its three-month quarter counted
      from December. */
  function SeasonOf(d: DateTime): (r: Option<Season>)
    ensures r.None? <==> !(1 <= d.month <= 12)
    ensures 1 <= d.month <= 12 ==> r == Some(QuarterSeason((d.month % 12) / 3))
  {
    if d.month >= 3 && d.month <= 5 then Some(Autumn)
    else if d.month >= 6 && d.month <= 8 then Some(Winter)
    else if d.month >= 9 && d.month <= 11 then Some(Spring)
    else if (d.month >= 1 && d.month <= 2) || d.month == 12 then Some(Summer)
    else None
  }

  /** season: the string the source returns, or None. */
  function SeasonLabel(d: DateTime): (r: Option<string>)
    ensures r.None? <==> !(1 <= d.month <= 12)
    ensures 3 <= d.month <= 5 ==> r == Some("AUTUMN")
    ensures 6 <= d.month <= 8 ==> r == Some("WINTER")
    ensures 9 <= d.month <= 11 ==> r == Some("SPRING")
    ensures d.month in {12, 1, 2} ==> r == Some("SUMMER")
  {
    match SeasonOf(d)
    case None => None
    case Some(s) => Some(SeasonName(s))
  }

  /** Every date Python can build gets a season. */
  lemma SeasonOfValidDate(d: DateTime)
    requires ValidDate(d)
    ensures SeasonOf(d).Some?
  {
  }

  /** The seasons are contiguous: moving to the next month of the year
      either keeps the season or moves to the next one. */
  lemma SeasonAdvancesByAtMostOne(d: DateTime, e: DateTime)
    requires 1 <= d.month <= 12 && e.month == d.month % 12 + 1
    ensures SeasonOf(d).Some? && SeasonOf(e).Some?
    ensures SeasonOf(e) == SeasonOf(d) || SeasonOf(e) == Some(NextSeason(SeasonOf(d).value))
  {
  }

  /** Every season covers exactly three months of any year. */
  lemma {:induction false} SeasonHasThreeMonths(s: Season, year: int)
    ensures |set m | 1 <= m <= 12 && SeasonOf(DateTime(year, m, 1)) == Some(s)| == 3
  {
    var months := set m | 1 <= m <= 12 && SeasonOf(DateTime(year, m, 1)) == Some(s);
    match s
    case Summer => assert months == {12, 1, 2};
    case Autumn => assert months == {3, 4, 5};
    case Winter => assert months == {6, 7, 8};
    case Spring => assert months == {9, 10, 11};
  }

  // ---------------------------------------------------------------------
  // fixed-width bins

  lemma MulPreservesLess(u: real, v: real, w: real)
    requires u < v && w > 0.0
    ensures u * w < v * w
  {
  }

  lemma MulPreservesAtMost(u: real, v: real, w: real)
    requires u <= v && w > 0.0
    ensures u * w <= v * w
  {
  }

  lemma MulCancelAtMost(u: real, v: real, w: real)
    requires u * w <= v * w && w > 0.0
    ensures u <= v
  {
  }

  lemma MulCancelLess(u: real, v: real, w: real)
    requires u * w < v * w && w > 0.0
    ensures u < v
  {
  }

  /** Index of the width-wide bin that holds x: Python's `x // width` on a
      reading, so that the bin is [k * width, (k + 1) * width). */
  function BinIndex(x: real, width: real): (k: int)
    requires width > 0.0
    ensures k as real * width <= x < (k + 1) as real * width
  {
    var q := x / width;
    var k := q.Floor;
    assert q * width == x;
    assert k as real <= q < (k + 1) as real;
    MulPreservesAtMost(k as real, q, width);
    MulPreservesLess(q, (k + 1) as real, width);
    assert k as real * width <= x;
    assert x < (k + 1) as real * width;
    k
  }

  /** The bins do not overlap: a reading lies in exactly one of them. */
  lemma BinIndexUnique(x: real, width: real, a: int)
    requires width > 0.0 && a as real * width <= x < (a + 1) as real * width
    ensures BinIndex(x, width) == a
  {
    var q := x / width;
    assert q * width == x;
    MulCancelAtMost(a as real, q, width);
    MulCancelLess(q, (a + 1) as real, width);
  }

  /** A larger reading never falls in a lower bin. */
  lemma BinIndexMonotone(x: real, y: real, width: real)
    requires width > 0.0 && x <= y
    ensures BinIndex(x, width) <= BinIndex(y, width)
  {
    var p, q := x / width, y / width;
    assert p * width == x && q * width == y;
    MulCancelAtMost(p, q, width);
  }

  /** "<prefix><lo>-<hi>", as the source's "{0:.0f}-{1:.0f}" format prints
      two whole, non-negative bounds. */
  function RangeLabel(prefix: string, lo: nat, hi: nat): string {
    prefix + NatToString(lo) + "-" + NatToString(hi)
  }

  /** Splits a string at its first '-': the part before it and the part
      after it. */
  function SplitAtDash(s: string): (string, string) {
    if s == [] then ([], [])
    else if s[0] == '-' then ([], s[1..])
    else
      var (before, after) := SplitAtDash(s[1..]);
      ([s[0]] + before, after)
  }

  /** Splitting "<A>-<B>" at its first dash gives back A and B when A holds
      no dash. */
  lemma {:induction false} SplitAtDashJoined(A: string, B: string)
    requires '-' !in A
    ensures SplitAtDash(A + "-" + B) == (A, B)
  {
    var s := A + "-" + B;
    if A == [] {
      assert s == ['-'] + B;
    } else {
      assert s[0] == A[0] && s[1..] == A[1..] + "-" + B;
      SplitAtDashJoined(A[1..], B);
      assert [A[0]] + A[1..] == A;
    }
  }

  /** A range label determines both of its bounds. */
  lemma RangeLabelInjective(prefix: string, a: nat, b: nat, c: nat, d: nat)
    ensures RangeLabel(prefix, a, b) == RangeLabel(prefix, c, d) ==> a == c && b == d
  {
    var s, t := RangeLabel(prefix, a, b), RangeLabel(prefix, c, d);
    var sa, sb, sc, sd := NatToString(a), NatToString(b), NatToString(c), NatToString(d);
    assert s[|prefix|..] == sa + "-" + sb;
    assert t[|prefix|..] == sc + "-" + sd;
    NatToStringHasNoDash(a);
    NatToStringHasNoDash(c);
    SplitAtDashJoined(sa, sb);
    SplitAtDashJoined(sc, sd);
  }

  /** A range label contains a '-'; the open-ended labels used here do not. */
  lemma RangeLabelHasDash(prefix: string, lo: nat, hi: nat)
    ensures '-' in RangeLabel(prefix, lo, hi)
  {
    assert RangeLabel(prefix, lo, hi)[|prefix| + |NatToString(lo)|] == '-';
  }

  // ---------------------------------------------------------------------
  // temp_bucket

  /** The bin a temperature (degrees C) falls in. */
  datatype TempBand = TempBelowZero | TempRange(lo: int) | TempHundredPlus

  function TempBandOf(t: real): (b: TempBand)
    ensures b == TempBelowZero <==> t < 0.0
    ensures b == TempHundredPlus <==> t >= 100.0
    ensures b.TempRange? ==> 0 <= b.lo <= 90 && b.lo % 10 == 0
    ensures b.TempRange? ==> b.lo as real <= t < (b.lo + 10) as real
  {
    if t < 0.0 then TempBelowZero
    else if t >= 100.0 then TempHundredPlus
    else TempRange(BinIndex(t, 10.0) * 10)
  }

  function TempLabel(b: TempBand): string
    requires b.TempRange? ==> b.lo >= 0
  {
    match b
    case TempBelowZero => "temp_<0"
    case TempHundredPlus => "temp_100+"
    case TempRange(lo) => RangeLabel("temp_", lo, lo + 10)
  }

  /** temp_bucket: the label of a temperature's 10-degree bin, with
      open-ended bins below 0 and from 100 up. */
  function TempBucket(t: real): (name: string)
    ensures name == "temp_<0" <==> t < 0.0
    ensures name == "temp_100+" <==> t >= 100.0
    ensures 0.0 <= t < 100.0 ==>
      exists lo: nat :: lo <= 90 && lo % 10 == 0 && lo as real <= t < (lo + 10) as real &&
        name == TempLabel(TempRange(lo))
  {
    var b := TempBandOf(t);
    assert '-' !in "temp_<0" && '-' !in "temp_100+";
    if b.TempRange? then
      RangeLabelHasDash("temp_", b.lo, b.lo + 10);
      TempLabel(b)
    else
      TempLabel(b)
  }

  /** Distinct temperature bins carry distinct labels. */
  lemma TempLabelInjective(a: TempBand, b: TempBand)
    requires a.TempRange? ==> a.lo >= 0
    requires b.TempRange? ==> b.lo >= 0
    ensures TempLabel(a) == TempLabel(b) <==> a == b
  {
    if a.TempRange? {
      RangeLabelHasDash("temp_", a.lo, a.lo + 10);
      if b.TempRange? {
        RangeLabelInjective("temp_", a.lo, a.lo + 10, b.lo, b.lo + 10);
      }
    }
    if b.TempRange? {
      RangeLabelHasDash("temp_", b.lo, b.lo + 10);
    }
    assert '-' !in "temp_<0" && '-' !in "temp_100+";
  }

  /** Every reading in [lo, lo + 10) with lo a multiple of 10 in 0..90 gets
      the bin labelled lo: the bins cover 0..100 with no overlap. */
  lemma TempBucketOfBin(t: real, lo: nat)
    requires lo <= 90 && lo % 10 == 0 && lo as real <= t < (lo + 10) as real
    ensures TempBucket(t) == RangeLabel("temp_", lo, lo + 10)
  {
    var k := lo / 10;
    assert k as real * 10.0 == lo as real && (k + 1) as real * 10.0 == (lo + 10) as real;
    BinIndexUnique(t, 10.0, k);
    assert TempBandOf(t) == TempRange(lo);
  }

  /** Order of the temperature bins, lowest first. */
  function TempRank(b: TempBand): int {
    match b
    case TempBelowZero => 0
    case TempRange(lo) => lo / 10 + 1
    case TempHundredPlus => 11
  }

  /** A warmer reading never falls in a lower temperature bin. */
  lemma TempBandMonotone(x: real, y: real)
    requires x <= y
    ensures TempRank(TempBandOf(x)) <= TempRank(TempBandOf(y))
  {
    if 0.0 <= x && y < 100.0 {
      BinIndexMonotone(x, y, 10.0);
    }
  }

  lemma TempRangeLabelsRendered()
    ensures RangeLabel("temp_", 20, 30) == "temp_20-30"
    ensures RangeLabel("temp_", 90, 100) == "temp_90-100"
  {
    assert NatToString(20) == "20" && NatToString(30) == "30";
    assert NatToString(90) == "90" && NatToString(100) == "100";
  }

  /** The readings -5, 23, 99.999 and 100 get the labels "temp_<0",
      "temp_20-30", "temp_90-100" and "temp_100+". */
  lemma TempBucketExamples()
    ensures TempBucket(-5.0) == "temp_<0"
    ensures TempBucket(23.0) == "temp_20-30"
    ensures TempBucket(99.999) == "temp_90-100"
    ensures TempBucket(100.0) == "temp_100+"
  {
    TempBucketOfBin(23.0, 20);
    TempBucketOfBin(99.999, 90);
    TempRangeLabelsRendered();
  }

  // ---------------------------------------------------------------------
  // humidity_bucket

  /** The bin a relative humidity (percent) falls in. */
  datatype HumidityBand = HumidityBelowTwenty | HumidityRange(lo: int) | HumidityOneSixtyPlus

  function HumidityBandOf(h: real): (b: HumidityBand)
    ensures b == HumidityBelowTwenty <==> h < 20.0
    ensures b == HumidityOneSixtyPlus <==> h >= 160.0
    ensures b.HumidityRange? ==> 20 <= b.lo <= 140 && b.lo % 20 == 0
    ensures b.HumidityRange? ==> b.lo as real <= h < (b.lo + 20) as real
  {
    if h < 20.0 then HumidityBelowTwenty
    else if h >= 160.0 then HumidityOneSixtyPlus
    else HumidityRange(BinIndex(h, 20.0) * 20)
  }

  function HumidityLabel(b: HumidityBand): string
    requires b.HumidityRange? ==> b.lo >= 0
  {
    match b
    case HumidityBelowTwenty => "RH%_<20"
    case HumidityOneSixtyPlus => "RH%_160+"
    case HumidityRange(lo) => RangeLabel("RH%_", lo, lo + 20)
  }

  /** humidity_bucket: the label of a humidity's 20-point bin, with
      open-ended bins below 20 and from 160 up. */
  function HumidityBucket(h: real): (name: string)
    ensures name == "RH%_<20" <==> h < 20.0
    ensures name == "RH%_160+" <==> h >= 160.0
    ensures 20.0 <= h < 160.0 ==>
      exists lo: nat :: 20 <= lo <= 140 && lo % 20 == 0 && lo as real <= h < (lo + 20) as real &&
        name == HumidityLabel(HumidityRange(lo))
  {
    var b := HumidityBandOf(h);
    assert '-' !in "RH%_<20" && '-' !in "RH%_160+";
    if b.HumidityRange? then
      RangeLabelHasDash("RH%_", b.lo, b.lo + 20);
      HumidityLabel(b)
    else
      HumidityLabel(b)
  }

  /** Distinct humidity bins carry distinct labels. */
  lemma HumidityLabelInjective(a: HumidityBand, b: HumidityBand)
    requires a.HumidityRange? ==> a.lo >= 0
    requires b.HumidityRange? ==> b.lo >= 0
    ensures HumidityLabel(a) == HumidityLabel(b) <==> a == b
  {
    if a.HumidityRange? {
      RangeLabelHasDash("RH%_", a.lo, a.lo + 20);
      if b.HumidityRange? {
        RangeLabelInjective("RH%_", a.lo, a.lo + 20, b.lo, b.lo + 20);
      }
    }
    if b.HumidityRange? {
      RangeLabelHasDash("RH%_", b.lo, b.lo + 20);
    }
    assert '-' !in "RH%_<20" && '-' !in "RH%_160+";
  }

  /** Every reading in [lo, lo + 20) with lo a multiple of 20 in 20..140
      gets the bin labelled lo. */
  lemma HumidityBucketOfBin(h: real, lo: nat)
    requires 20 <= lo <= 140 && lo % 20 == 0 && lo as real <= h < (lo + 20) as real
    ensures HumidityBucket(h) == RangeLabel("RH%_", lo, lo + 20)
  {
    var k := lo / 20;
    assert k as real * 20.0 == lo as real && (k + 1) as real * 20.0 == (lo + 20) as real;
    BinIndexUnique(h, 20.0, k);
    assert HumidityBandOf(h) == HumidityRange(lo);
  }

  /** The "0-20" bin the source's comment mentions is never produced. */
  lemma HumidityNeverZeroToTwenty(h: real)
    ensures HumidityBucket(h) != "RH%_0-20"
  {
    assert "RH%_0-20" == RangeLabel("RH%_", 0, 20);
    var b := HumidityBandOf(h);
    if b.HumidityRange? {
      RangeLabelInjective("RH%_", b.lo, b.lo + 20, 0, 20);
    }
  }

  /** Order of the humidity bins, lowest first. */
  function HumidityRank(b: HumidityBand): int {
    match b
    case HumidityBelowTwenty => 0
    case HumidityRange(lo) => lo / 20
    case HumidityOneSixtyPlus => 8
  }

  /** A more humid reading never falls in a lower humidity bin. */
  lemma HumidityBandMonotone(x: real, y: real)
    requires x <= y
    ensures HumidityRank(HumidityBandOf(x)) <= HumidityRank(HumidityBandOf(y))
  {
    if 20.0 <= x && y < 160.0 {
      BinIndexMonotone(x, y, 20.0);
    }
  }

  lemma HumidityRangeLabelRendered()
    ensures RangeLabel("RH%_", 40, 60) == "RH%_40-60"
  {
    assert NatToString(40) == "40" && NatToString(60) == "60";
  }

  /** The readings 15, 45 and 200 get the labels "RH%_<20", "RH%_40-60"
      and "RH%_160+". */
  lemma HumidityBucketExamples()
    ensures HumidityBucket(15.0) == "RH%_<20"
    ensures HumidityBucket(45.0) == "RH%_40-60"
    ensures HumidityBucket(200.0) == "RH%_160+"
  {
    HumidityBucketOfBin(45.0, 40);
    HumidityRangeLabelRendered();
  }

  // ---------------------------------------------------------------------
  // average_activity_phase

  datatype Phase = Moulting | NestBuilding | Laying | Incubating | Rearing | Fledging | PostFledging | Unknown

  /** The string the source returns for each phase. */
  function PhaseName(p: Phase): string {
    match p
    case Moulting => "moulting"
    case NestBuilding => "nest building"
    case Laying => "laying"
    case Incubating => "incubating"
    case Rearing => "rearing"
    case Fledging => "fledging"
    case PostFledging => "post-fledging"
    case Unknown => "unknown"
  }

  /** average_activity_phase as written. Its second test reads
      `month >= 4 and month >= 5`, so every month from 5 on is nest
      building, month 4 falls through to unknown, and none of the later
      branches (laying .. post-fledging) can be reached. The August test
      compares dates of the same year and month, which is a test of the day. */
  function ActivityPhase(ts: Option<DateTime>): (r: Option<Phase>)
    ensures r.None? <==> ts.None?
    ensures ts.Some? ==> (r == Some(Moulting) <==> 1 <= ts.value.month <= 3)
    ensures ts.Some? ==> (r == Some(NestBuilding) <==> ts.value.month >= 5)
    ensures ts.Some? ==> (r == Some(Unknown) <==> ts.value.month == 4 || ts.value.month < 1)
    ensures r !in {Some(Laying), Some(Incubating), Some(Rearing), Some(Fledging), Some(PostFledging)}
  {
    match ts
    case None => None
    case Some(d) =>
      if d.month >= 1 && d.month <= 3 then Some(Moulting)
      else if d.month >= 4 && d.month >= 5 then Some(NestBuilding)
      else if d.month == 6 then Some(Laying)
      else if d.month == 7 then Some(Incubating)
      else if d.month == 8 && d.day <= 7 then Some(Incubating)
      else if d.month == 8 && d.day > 7 then Some(Rearing)
      else if d.month >= 9 then Some(Rearing)
      else if d.month >= 10 then Some(Fledging)
      else if d.month == 11 || d.month == 12 then Some(PostFledging)
      else Some(Unknown)
  }

  /** average_activity_phase: the string the source returns, or None. */
  function ActivityPhaseLabel(ts: Option<DateTime>): (r: Option<string>)
    ensures r.None? <==> ts.None?
    ensures ts.Some? && 1 <= ts.value.month <= 3 ==> r == Some("moulting")
    ensures ts.Some? && ts.value.month >= 5 ==> r == Some("nest building")
    ensures ts.Some? && (ts.value.month == 4 || ts.value.month < 1) ==> r == Some("unknown")
    ensures r !in {Some("laying"), Some("incubating"), Some("rearing"), Some("fledging"), Some("post-fledging")}
  {
    match ActivityPhase(ts)
    case None => None
    case Some(p) => Some(PhaseName(p))
  }

  /** The breeding calendar of the function's documentation: moulting
      January to March, nest building April and May, laying June,
      incubating 1 July to 7 August, rearing 8 August to 30 September,
      fledging October, post-fledging November and December. */
  function IntendedActivityPhase(ts: Option<DateTime>): (r: Option<Phase>)
    ensures r.None? <==> ts.None?
    ensures ts.Some? && 1 <= ts.value.month <= 12 ==> r != Some(Unknown)
  {
    match ts
    case None => None
    case Some(d) =>
      if 1 <= d.month <= 3 then Some(Moulting)
      else if 4 <= d.month <= 5 then Some(NestBuilding)
      else if d.month == 6 then Some(Laying)
      else if d.month == 7 || (d.month == 8 && d.day <= 7) then Some(Incubating)
      else if d.month == 8 || d.month == 9 then Some(Rearing)
      else if d.month == 10 then Some(Fledging)
      else if d.month == 11 || d.month == 12 then Some(PostFledging)
      else Some(Unknown)
  }

  /** Position of a phase in the breeding season. */
  function PhaseIndex(p: Phase): nat {
    match p
    case Moulting => 0
    case NestBuilding => 1
    case Laying => 2
    case Incubating => 3
    case Rearing => 4
    case Fledging => 5
    case PostFledging => 6
    case Unknown => 7
  }

  predicate SameYearNotAfter(d: DateTime, e: DateTime) {
    d.month < e.month || (d.month == e.month && d.day <= e.day)
  }

  /** The documented calendar runs through the phases in order over a year. */
  lemma IntendedPhaseInCalendarOrder(d: DateTime, e: DateTime)
    requires ValidDate(d) && ValidDate(e) && SameYearNotAfter(d, e)
    ensures PhaseIndex(IntendedActivityPhase(Some(d)).value) <= PhaseIndex(IntendedActivityPhase(Some(e)).value)
  {
  }

  /** Every phase of the documented calendar is reached by some date. */
  lemma IntendedPhaseReachesEveryPhase(p: Phase, year: int)
    requires 1 <= year <= 9999 && p != Unknown
    ensures exists d: DateTime :: ValidDate(d) && IntendedActivityPhase(Some(d)) == Some(p)
  {
    var d := match p
      case Moulting => DateTime(year, 1, 1)
      case NestBuilding => DateTime(year, 4, 1)
      case Laying => DateTime(year, 6, 1)
      case Incubating => DateTime(year, 7, 1)
      case Rearing => DateTime(year, 8, 8)
      case Fledging => DateTime(year, 10, 1)
      case _ => DateTime(year, 11, 1);
    assert ValidDate(d) && IntendedActivityPhase(Some(d)) == Some(p);
  }

  /** The code as written agrees with the documented calendar exactly in
      January, February, March and May. */
  lemma ActivityPhaseAgreesWithIntendedOnlyIn(d: DateTime)
    requires ValidDate(d)
    ensures ActivityPhase(Some(d)) == IntendedActivityPhase(Some(d)) <==> d.month in {1, 2, 3, 5}
  {
  }

  /** 15 June: the code says nest building, the documented calendar laying. */
  lemma ActivityPhaseJuneCounterexample()
    ensures ValidDate(DateTime(2020, 6, 15))
    ensures ActivityPhase(Some(DateTime(2020, 6, 15))) == Some(NestBuilding)
    ensures IntendedActivityPhase(Some(DateTime(2020, 6, 15))) == Some(Laying)
  {
  }
}
