/**
 * The pit-stop what-if calculator: given one driver's laps (ordered by lap
 * number) and pit stops (ordered by lap) for one race, it estimates the
 * finishing position the driver would have had with a stop on another lap,
 * the time lost and gained by that stop, a confidence score, a
 * recommendation and an auxiliary tyre analysis.
 *
 * Every helper of the calculator is a pure function of its inputs; the two
 * repository reads that feed it are parameters here.
 */
module PitStop {
  import opened Wrappers

  // ---------------------------------------------------------------------
  // Data model
  // ---------------------------------------------------------------------

  /** One lap of one driver: lap number, lap time in seconds, running
      position at the end of the lap, tyre compound and tyre age. */
  datatype Lap = Lap(lapNumber: int, lapTime: real, position: int, tireCompound: string, tireAge: int)

  /** One recorded pit stop of one driver. */
  datatype PitStopRecord = PitStopRecord(stopNumber: int, lap: int, duration: real)

  /** What makes a simulation fail. */
  datatype CalcError =
    | NoLapData(driverId: int, raceId: int)  // no laps for this driver in this race
    | DivisionByZero                          // degradation percentage over a first lap time of 0

  /** The three recommendation templates, with the numbers each embeds. */
  datatype Recommendation =
    | Recommended(lap: int, gain: int, confidence: real)  // "could gain N positions (confidence: C%)"
    | Similar(lap: int)                                   // "offers similar results"
    | NotRecommended(lap: int, cost: int)                 // "could cost N positions"

  /** Tyre compound on the last lap at or before a stop and on the first lap after it. */
  datatype TireTransition = TireTransition(before: string, after: string)
  {
    /** The label `before → after`: it starts with the compound before the
        stop and ends with the compound after it, joined by the separator. */
    function Label(): (t: string)
      ensures |t| == |before| + |Separator| + |after|
      ensures t[..|before|] == before
      ensures t[|before|..|before| + |Separator|] == Separator
      ensures t[|t| - |after|..] == after
    {
      before + Separator + after
    }
  }

  /** The tyre-degradation summary: empty for fewer than two laps. */
  datatype Degradation =
    | NoDegradation
    | Degradation(firstLapTime: real, lastLapTime: real, seconds: real, percentage: real)

  datatype Analysis = Analysis(
    totalLaps: nat,
    originalTireStrategy: string,
    alternativeTireStrategy: string,
    tireDegradation: Degradation,
    competitiveContext: string)

  /** The result of one simulation. */
  datatype Simulation = Simulation(
    driverId: int,
    raceId: int,
    scenarioName: string,
    originalStopLap: int,
    alternativeStopLap: int,
    originalPositionFinal: int,
    alternativePositionFinal: int,
    positionGain: int,
    timeLossAtStop: real,
    timeGainAfterStop: real,
    confidenceScore: real,
    recommendation: Recommendation,
    detailedAnalysis: Analysis)

  // ---------------------------------------------------------------------
  // The constants of the heuristic
  // ---------------------------------------------------------------------

  const GridSize: int := 20                   // worst position, and the cap after a stop
  const PositionsLostAtStop: int := 2
  const PositionsRecoveredOnFreshTires: int := 1
  const PitLaneBaseLoss: real := 22.0          // seconds
  const PitLaneLapFraction: real := 0.15       // share of an average lap lost in the pit lane
  const FreshTireImprovement: real := 0.025    // per-lap gain of fresh tyres
  const LapsWithFreshTireGain: int := 15
  const ConfidencePerPosition: int := 25
  const MaxConfidence: int := 100
  const NeutralTimeConfidence: real := 50.0
  const Unknown: string := "Unknown"
  /** The separator of a tyre label, kept exactly as the source spells it
      (a UTF-8 right arrow decoded as Windows-1252), as an opaque constant. */
  const Separator: string := " \U{E2}\U{2020}\U{2019} "
  const ScenarioName: string := "Pit Stop Strategy"
  const CompetitiveContext: string := "Lahir simulation vs 1 pit stop leader"

  /** The order in which the repository returns a driver's laps. */
  predicate OrderedByLapNumber(laps: seq<Lap>)
  {
    forall i, j :: 0 <= i < j < |laps| ==> laps[i].lapNumber <= laps[j].lapNumber
  }

  /** Lap `i` is the last lap, scanning from the end, whose number is at most `target`. */
  predicate IsLastAtOrBefore(laps: seq<Lap>, target: int, i: int)
  {
    0 <= i < |laps| && laps[i].lapNumber <= target
    && forall j :: i < j < |laps| ==> laps[j].lapNumber > target
  }

  /** Lap `i` is the first lap whose number is greater than `stop`. */
  predicate IsFirstAfter(laps: seq<Lap>, stop: int, i: int)
  {
    0 <= i < |laps| && laps[i].lapNumber > stop
    && forall j :: 0 <= j < i ==> laps[j].lapNumber <= stop
  }

  // ---------------------------------------------------------------------
  // Position at a lap
  // ---------------------------------------------------------------------

  /** The reversed search: the index of the last lap whose number is at most `target`. */
  function LastAtOrBefore(laps: seq<Lap>, target: int): (r: Option<nat>)
    ensures r.Some? ==> IsLastAtOrBefore(laps, target, r.value)
    ensures r.None? <==> forall j :: 0 <= j < |laps| ==> laps[j].lapNumber > target
  {
    if |laps| == 0 then None
    else if laps[|laps| - 1].lapNumber <= target then Some(|laps| - 1)
    else LastAtOrBefore(laps[..|laps| - 1], target)
  }

  /** The running position at `target`: that of the last lap numbered at most
      `target`; the first lap's if there is none; the grid size if there are no laps. */
  function PositionAtLap(laps: seq<Lap>, target: int): (p: int)
    ensures forall i :: IsLastAtOrBefore(laps, target, i) ==> p == laps[i].position
    ensures (forall j :: 0 <= j < |laps| ==> laps[j].lapNumber > target) ==>
              p == if |laps| > 0 then laps[0].position else GridSize
  {
    match LastAtOrBefore(laps, target)
    case Some(i) => laps[i].position
    case None => if |laps| > 0 then laps[0].position else GridSize
  }

  // ---------------------------------------------------------------------
  // Simulated position after the alternative stop
  // ---------------------------------------------------------------------

  /** Two positions lost at the stop (capped at the grid size), one regained on
      fresh tyres (floored at the lead). */
  function SimulatedFinalPosition(positionAtStop: int): (r: int)
    ensures 1 <= r < GridSize
    ensures 0 <= positionAtStop <= GridSize - PositionsLostAtStop ==> r == positionAtStop + 1
    ensures positionAtStop >= GridSize - PositionsLostAtStop ==> r == GridSize - 1
    ensures positionAtStop <= 0 ==> r == 1
  {
    var positionAfterStop := Min(positionAtStop + PositionsLostAtStop, GridSize);
    Max(positionAfterStop - PositionsRecoveredOnFreshTires, 1)
  }

  /** The alternative final position; `totalLaps` is unused, as in the source. */
  function SimulatePositionAfterStop(laps: seq<Lap>, stopLap: int, totalLaps: int): (r: int)
    ensures 1 <= r < GridSize
    ensures (forall i :: 0 <= i < |laps| ==> laps[i].position >= 1) ==> r >= 2
    ensures forall i :: IsLastAtOrBefore(laps, stopLap, i) ==> r == SimulatedFinalPosition(laps[i].position)
    ensures forall i :: IsLastAtOrBefore(laps, stopLap, i) && 0 <= laps[i].position < GridSize - 1 ==>
              r == laps[i].position + 1
    ensures (forall j :: 0 <= j < |laps| ==> laps[j].lapNumber > stopLap) ==>
              r == SimulatedFinalPosition(if |laps| > 0 then laps[0].position else GridSize)
  {
    SimulatedFinalPosition(PositionAtLap(laps, stopLap))
  }

  // ---------------------------------------------------------------------
  // Time estimates
  // ---------------------------------------------------------------------

  /** The total of the lap times, added up from the first lap to the last. */
  function SumLapTimes(laps: seq<Lap>): (r: real)
    ensures (forall i :: 0 <= i < |laps| ==> laps[i].lapTime >= 0.0) ==> r >= 0.0
  {
    if |laps| == 0 then 0.0 else SumLapTimes(laps[..|laps| - 1]) + laps[|laps| - 1].lapTime
  }

  /** The mean lap time: the total divided by the number of laps. */
  function AverageLapTime(laps: seq<Lap>): (r: real)
    requires |laps| > 0
    ensures r * (|laps| as real) == SumLapTimes(laps)
    ensures (forall i :: 0 <= i < |laps| ==> laps[i].lapTime > 0.0) ==> r > 0.0
  {
    SumOfPositiveTimes(laps);
    SumLapTimes(laps) / (|laps| as real)
  }

  /** Positive lap times add up to a positive total. */
  lemma {:induction false} SumOfPositiveTimes(laps: seq<Lap>)
    ensures |laps| > 0 && (forall i :: 0 <= i < |laps| ==> laps[i].lapTime > 0.0) ==> SumLapTimes(laps) > 0.0
  {
    if |laps| > 1 && forall i :: 0 <= i < |laps| ==> laps[i].lapTime > 0.0 {
      SumOfPositiveTimes(laps[..|laps| - 1]);
    }
  }

  /** Laps all run in time `t` add up to `|laps| * t`. */
  lemma {:induction false} SumOfConstantTimes(laps: seq<Lap>, t: real)
    requires forall i :: 0 <= i < |laps| ==> laps[i].lapTime == t
    ensures SumLapTimes(laps) == (|laps| as real) * t
  {
    if |laps| > 0 {
      SumOfConstantTimes(laps[..|laps| - 1], t);
    }
  }

  /** Lap times between `lo` and `hi` add up to between `|laps| * lo` and `|laps| * hi`. */
  lemma {:induction false} SumWithinBounds(laps: seq<Lap>, lo: real, hi: real)
    requires forall i :: 0 <= i < |laps| ==> lo <= laps[i].lapTime <= hi
    ensures (|laps| as real) * lo <= SumLapTimes(laps) <= (|laps| as real) * hi
  {
    if |laps| > 0 {
      var init := laps[..|laps| - 1];
      SumWithinBounds(init, lo, hi);
      var m := |init| as real;
      assert (|laps| as real) * lo == m * lo + lo;
      assert (|laps| as real) * hi == m * hi + hi;
    }
  }

  /** The average lap time lies between the slowest and the fastest bound. */
  lemma AverageWithinBounds(laps: seq<Lap>, lo: real, hi: real)
    requires |laps| > 0
    requires forall i :: 0 <= i < |laps| ==> lo <= laps[i].lapTime <= hi
    ensures lo <= AverageLapTime(laps) <= hi
  {
    SumWithinBounds(laps, lo, hi);
    ScaledBounds(SumLapTimes(laps), |laps| as real, lo, hi);
  }

  /** Dividing by a positive count keeps the bounds. */
  lemma ScaledBounds(total: real, n: real, lo: real, hi: real)
    requires n > 0.0 && n * lo <= total <= n * hi
    ensures lo <= total / n <= hi
  {
  }

  /** 22 s of pit-lane transit plus 15% of an average lap. */
  function EstimatePitStopLoss(laps: seq<Lap>, stopLap: int): (r: real)
    requires |laps| > 0
    ensures (forall i :: 0 <= i < |laps| ==> laps[i].lapTime > 0.0) ==> r > PitLaneBaseLoss
  {
    SumOfPositiveTimes(laps);
    PitLaneBaseLoss + AverageLapTime(laps) * PitLaneLapFraction
  }

  /** 2.5% of an average lap, gained on each of 15 laps. */
  function EstimateFreshTireGain(laps: seq<Lap>, stopLap: int): (r: real)
    requires |laps| > 0
    ensures (forall i :: 0 <= i < |laps| ==> laps[i].lapTime > 0.0) ==> r > 0.0
  {
    SumOfPositiveTimes(laps);
    AverageLapTime(laps) * FreshTireImprovement * (LapsWithFreshTireGain as real)
  }

  /** At a constant pace `t` the two estimates are `22 + 0.15 t` and `0.375 t`. */
  lemma ConstantPaceEstimates(laps: seq<Lap>, t: real, stopLap: int)
    requires |laps| > 0
    requires forall i :: 0 <= i < |laps| ==> laps[i].lapTime == t
    ensures EstimatePitStopLoss(laps, stopLap) == 22.0 + 0.15 * t
    ensures EstimateFreshTireGain(laps, stopLap) == 0.375 * t
  {
    SumOfConstantTimes(laps, t);
    assert AverageLapTime(laps) == t;
  }

  /** Fresh tyres win back at least the pit-lane loss exactly when the average
      lap is at least 880/9 s (about 97.8 s). */
  lemma GainCoversLoss(laps: seq<Lap>, stopLap: int)
    requires |laps| > 0
    ensures EstimateFreshTireGain(laps, stopLap) >= EstimatePitStopLoss(laps, stopLap)
            <==> AverageLapTime(laps) >= 880.0 / 9.0
  {
  }

  // ---------------------------------------------------------------------
  // Confidence and recommendation
  // ---------------------------------------------------------------------

  /** The mean of a position term `min(25 gain, 100)` and a time term
      (`gain / loss * 100`, or 50 when the loss is not positive), capped at 100
      and not floored. */
  function ConfidenceScore(positionGain: int, timeLoss: real, timeGain: real): (r: real)
    ensures r <= MaxConfidence as real
    ensures positionGain >= 4 && timeLoss > 0.0 && timeGain >= timeLoss ==> r == MaxConfidence as real
    ensures timeLoss <= 0.0 && positionGain <= 4 ==> r == ((25 * positionGain) as real + 50.0) / 2.0
    ensures timeLoss <= 0.0 && positionGain < -2 ==> r < 0.0
    ensures timeLoss <= 0.0 && positionGain >= 4 ==> r == 75.0
    ensures timeLoss > 0.0 && positionGain <= 4 && timeGain <= timeLoss ==>
              r == ((25 * positionGain) as real + timeGain / timeLoss * 100.0) / 2.0
    ensures timeLoss > 0.0 && positionGain <= 4
            && (25 * positionGain) as real + timeGain / timeLoss * 100.0 <= 200.0 ==>
              r == ((25 * positionGain) as real + timeGain / timeLoss * 100.0) / 2.0
    ensures timeLoss > 0.0 && positionGain <= 4
            && (25 * positionGain) as real + timeGain / timeLoss * 100.0 >= 200.0 ==>
              r == MaxConfidence as real
  {
    var positionConfidence := Min(positionGain * ConfidencePerPosition, MaxConfidence) as real;
    var timeConfidence := if timeLoss > 0.0 then timeGain / timeLoss * 100.0 else NeutralTimeConfidence;
    var confidence := (positionConfidence + timeConfidence) / 2.0;
    if confidence <= MaxConfidence as real then confidence else MaxConfidence as real
  }

  /** The score never decreases as the position gain grows. */
  lemma ConfidenceMonotoneInGain(g1: int, g2: int, timeLoss: real, timeGain: real)
    requires g1 <= g2
    ensures ConfidenceScore(g1, timeLoss, timeGain) <= ConfidenceScore(g2, timeLoss, timeGain)
  {
  }

  /** The position term stops growing at four places: every larger gain scores as four does. */
  lemma ConfidenceSaturatesAtFour(positionGain: int, timeLoss: real, timeGain: real)
    requires positionGain >= 4
    ensures ConfidenceScore(positionGain, timeLoss, timeGain) == ConfidenceScore(4, timeLoss, timeGain)
  {
  }

  /** At a 100-second average lap a loss of four places scores below 1, not 100:
      a time gain just above the loss does not lift the score to the cap. */
  lemma ConfidenceAtLongLapPace()
    ensures ConfidenceScore(-4, 37.0, 37.5) < 1.0
  {
  }

  /** With realistic times (the 90-second scenario) a loss of four positions
      gives a negative score: there is no lower clamp. */
  lemma ConfidenceCanBeNegative()
    ensures ConfidenceScore(-4, 35.5, 33.75) < 0.0
  {
  }

  /** One template per sign of the position gain; every template embeds the
      alternative lap, the negative one the magnitude of the loss.
      `originalStopLap` is unused, as in the source. */
  function GenerateRecommendation(positionGain: int, originalStopLap: int, alternativeStopLap: int,
                                  confidenceScore: real): (r: Recommendation)
    ensures r.lap == alternativeStopLap
    ensures r.Recommended? <==> positionGain > 0
    ensures r.Similar? <==> positionGain == 0
    ensures r.NotRecommended? <==> positionGain < 0
    ensures r.Recommended? ==> r.gain == positionGain && r.confidence == confidenceScore
    ensures r.NotRecommended? ==> r.cost > 0 && r.cost + positionGain == 0
  {
    if positionGain > 0 then Recommended(alternativeStopLap, positionGain, confidenceScore)
    else if positionGain == 0 then Similar(alternativeStopLap)
    else NotRecommended(alternativeStopLap, Abs(positionGain))
  }

  // ---------------------------------------------------------------------
  // Tyre analysis
  // ---------------------------------------------------------------------

  /** The laps numbered at most `stop`, in input order. */
  function LapsAtOrBefore(laps: seq<Lap>, stop: int): (r: seq<Lap>)
    ensures |r| <= |laps|
    ensures (forall j :: 0 <= j < |laps| ==> laps[j].lapNumber > stop) ==> r == []
  {
    if |laps| == 0 then []
    else if laps[0].lapNumber <= stop then [laps[0]] + LapsAtOrBefore(laps[1..], stop)
    else LapsAtOrBefore(laps[1..], stop)
  }

  /** The laps numbered above `stop`, in input order. */
  function LapsAfter(laps: seq<Lap>, stop: int): (r: seq<Lap>)
    ensures |r| <= |laps|
    ensures (forall j :: 0 <= j < |laps| ==> laps[j].lapNumber > stop) ==> r == laps
    ensures (forall j :: 0 <= j < |laps| ==> laps[j].lapNumber <= stop) ==> r == []
  {
    if |laps| == 0 then []
    else if laps[0].lapNumber > stop then [laps[0]] + LapsAfter(laps[1..], stop)
    else LapsAfter(laps[1..], stop)
  }

  /** The last lap kept by the "at or before" filter is the one the reversed
      search finds. */
  lemma {:induction false} LastOfLapsAtOrBefore(laps: seq<Lap>, stop: int, i: int)
    requires IsLastAtOrBefore(laps, stop, i)
    ensures var f := LapsAtOrBefore(laps, stop); |f| > 0 && f[|f| - 1] == laps[i]
  {
    var f := LapsAtOrBefore(laps, stop);
    if i == 0 {
      assert f == [laps[0]] + LapsAtOrBefore(laps[1..], stop);
    } else {
      assert IsLastAtOrBefore(laps[1..], stop, i - 1);
      LastOfLapsAtOrBefore(laps[1..], stop, i - 1);
    }
  }

  /** The first lap kept by the "after" filter is the first lap past the stop. */
  lemma {:induction false} FirstOfLapsAfter(laps: seq<Lap>, stop: int, i: int)
    requires IsFirstAfter(laps, stop, i)
    ensures var f := LapsAfter(laps, stop); |f| > 0 && f[0] == laps[i]
  {
    if i > 0 {
      assert IsFirstAfter(laps[1..], stop, i - 1);
      FirstOfLapsAfter(laps[1..], stop, i - 1);
    }
  }

  /** On laps ordered by number the two filters split the laps into a prefix
      and the matching suffix. */
  lemma {:induction false} FiltersPartitionOrderedLaps(laps: seq<Lap>, stop: int)
    requires OrderedByLapNumber(laps)
    ensures LapsAtOrBefore(laps, stop) + LapsAfter(laps, stop) == laps
  {
    if |laps| > 0 {
      OrderedSplit(laps, stop);
      if laps[0].lapNumber <= stop {
        FiltersPartitionOrderedLaps(laps[1..], stop);
        PartitionStep(laps, stop);
      }
    }
  }

  /** A first lap at or before the stop goes to the first filter, in front. */
  lemma PartitionStep(laps: seq<Lap>, stop: int)
    requires |laps| > 0 && laps[0].lapNumber <= stop
    requires LapsAtOrBefore(laps[1..], stop) + LapsAfter(laps[1..], stop) == laps[1..]
    ensures LapsAtOrBefore(laps, stop) + LapsAfter(laps, stop) == laps
  {
    var rest := laps[1..];
    assert LapsAtOrBefore(laps, stop) == [laps[0]] + LapsAtOrBefore(rest, stop);
    assert LapsAfter(laps, stop) == LapsAfter(rest, stop);
    calc {
      LapsAtOrBefore(laps, stop) + LapsAfter(laps, stop);
      ([laps[0]] + LapsAtOrBefore(rest, stop)) + LapsAfter(rest, stop);
      [laps[0]] + (LapsAtOrBefore(rest, stop) + LapsAfter(rest, stop));
      [laps[0]] + rest;
      laps;
    }
  }

  /** The tail of ordered laps is ordered, and once the first lap is past the
      stop every lap is. */
  lemma OrderedSplit(laps: seq<Lap>, stop: int)
    requires OrderedByLapNumber(laps) && |laps| > 0
    ensures OrderedByLapNumber(laps[1..])
    ensures laps[0].lapNumber > stop ==> forall j :: 0 <= j < |laps| ==> laps[j].lapNumber > stop
  {
  }

  /** The "at or before" filter keeps exactly the laps numbered at most the stop. */
  lemma {:induction false} LapsAtOrBeforeMembers(laps: seq<Lap>, stop: int, x: Lap)
    ensures x in LapsAtOrBefore(laps, stop) <==> x in laps && x.lapNumber <= stop
  {
    if |laps| > 0 {
      LapsAtOrBeforeMembers(laps[1..], stop, x);
      assert laps == [laps[0]] + laps[1..];
    }
  }

  /** The "after" filter keeps exactly the laps numbered above the stop. */
  lemma {:induction false} LapsAfterMembers(laps: seq<Lap>, stop: int, x: Lap)
    ensures x in LapsAfter(laps, stop) <==> x in laps && x.lapNumber > stop
  {
    if |laps| > 0 {
      LapsAfterMembers(laps[1..], stop, x);
      assert laps == [laps[0]] + laps[1..];
    }
  }

  /** Between them the two filters keep every lap exactly once, ordered or not. */
  lemma {:induction false} FiltersSplitMultiset(laps: seq<Lap>, stop: int)
    ensures multiset(LapsAtOrBefore(laps, stop)) + multiset(LapsAfter(laps, stop)) == multiset(laps)
  {
    if |laps| > 0 {
      FiltersSplitMultiset(laps[1..], stop);
      assert laps == [laps[0]] + laps[1..];
    }
  }

  /** The "at or before" filter keeps input order: filtering a concatenation
      concatenates the filtered parts. */
  lemma {:induction false} LapsAtOrBeforeConcat(a: seq<Lap>, b: seq<Lap>, stop: int)
    ensures LapsAtOrBefore(a + b, stop) == LapsAtOrBefore(a, stop) + LapsAtOrBefore(b, stop)
  {
    if |a| > 0 {
      assert (a + b)[1..] == a[1..] + b;
      LapsAtOrBeforeConcat(a[1..], b, stop);
    } else {
      assert a + b == b;
    }
  }

  /** The "after" filter keeps input order in the same way. */
  lemma {:induction false} LapsAfterConcat(a: seq<Lap>, b: seq<Lap>, stop: int)
    ensures LapsAfter(a + b, stop) == LapsAfter(a, stop) + LapsAfter(b, stop)
  {
    if |a| > 0 {
      assert (a + b)[1..] == a[1..] + b;
      LapsAfterConcat(a[1..], b, stop);
    } else {
      assert a + b == b;
    }
  }

  /** The forward search: the index of the first lap numbered above `stop`. */
  function FirstAfter(laps: seq<Lap>, stop: int): (r: Option<nat>)
    ensures r.Some? ==> IsFirstAfter(laps, stop, r.value)
    ensures r.None? <==> forall j :: 0 <= j < |laps| ==> laps[j].lapNumber <= stop
  {
    if |laps| == 0 then None
    else if laps[0].lapNumber > stop then Some(0)
    else match FirstAfter(laps[1..], stop)
      case Some(k) => Some(k + 1)
      case None => None
  }

  /** The last lap of the "at or before" filter is the one the reversed search finds. */
  lemma LastOfFilterIsSearchResult(laps: seq<Lap>, stop: int)
    ensures var f, i := LapsAtOrBefore(laps, stop), LastAtOrBefore(laps, stop);
            if i.Some? then f != [] && f[|f| - 1] == laps[i.value] else f == []
  {
    match LastAtOrBefore(laps, stop)
    case Some(i) => LastOfLapsAtOrBefore(laps, stop, i);
    case None =>
  }

  /** The first lap of the "after" filter is the one the forward search finds. */
  lemma FirstOfFilterIsSearchResult(laps: seq<Lap>, stop: int)
    ensures var f, i := LapsAfter(laps, stop), FirstAfter(laps, stop);
            if i.Some? then f != [] && f[0] == laps[i.value] else f == []
  {
    match FirstAfter(laps, stop)
    case Some(i) => FirstOfLapsAfter(laps, stop, i);
    case None =>
  }

  /** Compound of the last lap at or before the stop, and of the first lap
      after it; "Unknown" for a side with no laps. */
  function AnalyzeTireStrategy(laps: seq<Lap>, stop: int): (t: TireTransition)
    ensures var i := LastAtOrBefore(laps, stop);
            t.before == if i.Some? then laps[i.value].tireCompound else Unknown
    ensures var i := FirstAfter(laps, stop);
            t.after == if i.Some? then laps[i.value].tireCompound else Unknown
  {
    LastOfFilterIsSearchResult(laps, stop);
    FirstOfFilterIsSearchResult(laps, stop);
    var beforeStop := LapsAtOrBefore(laps, stop);
    var afterStop := LapsAfter(laps, stop);
    TireTransition(
      if beforeStop != [] then beforeStop[|beforeStop| - 1].tireCompound else Unknown,
      if afterStop != [] then afterStop[0].tireCompound else Unknown)
  }

  /** The tyre label in terms of the laps themselves: the compound of the last
      lap numbered at most the stop and of the first lap numbered above it, or
      "Unknown" on a side with no such lap. */
  lemma TireStrategySides(laps: seq<Lap>, stop: int)
    ensures forall i :: IsLastAtOrBefore(laps, stop, i) ==> AnalyzeTireStrategy(laps, stop).before == laps[i].tireCompound
    ensures (forall j :: 0 <= j < |laps| ==> laps[j].lapNumber > stop) ==> AnalyzeTireStrategy(laps, stop).before == Unknown
    ensures forall i :: IsFirstAfter(laps, stop, i) ==> AnalyzeTireStrategy(laps, stop).after == laps[i].tireCompound
    ensures (forall j :: 0 <= j < |laps| ==> laps[j].lapNumber <= stop) ==> AnalyzeTireStrategy(laps, stop).after == Unknown
  {
  }

  /** Last minus first lap time, and that difference as a percentage of the
      first lap time; nothing for fewer than two laps. */
  function AnalyzeTireDegradation(laps: seq<Lap>): (r: Result<Degradation, CalcError>)
    ensures r == Ok(NoDegradation) <==> |laps| < 2
    ensures r == Err(DivisionByZero) <==> |laps| >= 2 && laps[0].lapTime == 0.0
    ensures r.Err? <==> |laps| >= 2 && laps[0].lapTime == 0.0
    ensures r.Ok? && r.value.Degradation? ==>
              |laps| >= 2
              && r.value.firstLapTime == laps[0].lapTime
              && r.value.lastLapTime == laps[|laps| - 1].lapTime
              && r.value.firstLapTime + r.value.seconds == r.value.lastLapTime
              && r.value.percentage * r.value.firstLapTime == r.value.seconds * 100.0
  {
    if |laps| < 2 then Ok(NoDegradation)
    else
      var first := laps[0].lapTime;
      var last := laps[|laps| - 1].lapTime;
      var degradation := last - first;
      if first == 0.0 then Err(DivisionByZero)
      else Ok(Degradation(first, last, degradation, degradation / first * 100.0))
  }

  // ---------------------------------------------------------------------
  // The simulation
  // ---------------------------------------------------------------------

  /** The first stop's lap, or nothing when the driver did not stop. */
  function OriginalStopLap(pitStops: seq<PitStopRecord>): (r: Option<int>)
    ensures r.None? <==> pitStops == []
    ensures r.Some? ==> r.value == pitStops[0].lap
  {
    if pitStops == [] then None else Some(pitStops[0].lap)
  }

  /** The what-if simulation of a stop on `alternativeStopLap`. */
  function CalculateAlternativeStrategy(raceId: int, driverId: int, alternativeStopLap: int,
                                        driverLaps: seq<Lap>, pitStops: seq<PitStopRecord>)
    : (r: Result<Simulation, CalcError>)
    ensures r == Err(NoLapData(driverId, raceId)) <==> driverLaps == []
    ensures r == Err(DivisionByZero) <==> |driverLaps| >= 2 && driverLaps[0].lapTime == 0.0
    ensures r.Ok? <==> driverLaps != [] && !(|driverLaps| >= 2 && driverLaps[0].lapTime == 0.0)
    ensures r.Ok? ==>
              var s := r.value;
              s.driverId == driverId && s.raceId == raceId
              && s.scenarioName == ScenarioName
              && s.alternativeStopLap == alternativeStopLap
              && s.originalStopLap == (if pitStops == [] then 0 else pitStops[0].lap)
              && s.originalPositionFinal == PositionAtLap(driverLaps, |driverLaps|)
              && s.alternativePositionFinal == SimulatedFinalPosition(PositionAtLap(driverLaps, alternativeStopLap))
              && 1 <= s.alternativePositionFinal < GridSize
              && s.positionGain == s.originalPositionFinal - s.alternativePositionFinal
              && s.timeLossAtStop == EstimatePitStopLoss(driverLaps, alternativeStopLap)
              && s.timeGainAfterStop == EstimateFreshTireGain(driverLaps, alternativeStopLap)
              && s.confidenceScore == ConfidenceScore(s.positionGain, s.timeLossAtStop, s.timeGainAfterStop)
              && s.confidenceScore <= MaxConfidence as real
              && s.recommendation
                 == GenerateRecommendation(s.positionGain, s.originalStopLap, alternativeStopLap, s.confidenceScore)
              && s.recommendation.lap == alternativeStopLap
              && (s.recommendation.Recommended? <==> s.positionGain > 0)
              && (s.recommendation.Similar? <==> s.positionGain == 0)
              && (s.recommendation.NotRecommended? <==> s.positionGain < 0)
              && s.detailedAnalysis.totalLaps == |driverLaps|
              && (s.originalStopLap == 0 ==> s.detailedAnalysis.originalTireStrategy == Unknown)
              && (s.originalStopLap != 0 ==>
                    s.detailedAnalysis.originalTireStrategy
                    == AnalyzeTireStrategy(driverLaps, s.originalStopLap).Label())
              && s.detailedAnalysis.alternativeTireStrategy
                 == AnalyzeTireStrategy(driverLaps, alternativeStopLap).Label()
              && AnalyzeTireDegradation(driverLaps) == Ok(s.detailedAnalysis.tireDegradation)
              && s.detailedAnalysis.competitiveContext == CompetitiveContext
              && ((forall i :: 0 <= i < |driverLaps| ==> driverLaps[i].lapTime > 0.0) ==>
                    s.timeLossAtStop > PitLaneBaseLoss && s.timeGainAfterStop > 0.0)
  {
    if driverLaps == [] then Err(NoLapData(driverId, raceId))
    else
      var originalStop := OriginalStopLap(pitStops);
      var originalFinal := PositionAtLap(driverLaps, |driverLaps|);
      var alternativeFinal := SimulatePositionAfterStop(driverLaps, alternativeStopLap, |driverLaps|);
      var positionGain := originalFinal - alternativeFinal;
      var timeLoss := EstimatePitStopLoss(driverLaps, alternativeStopLap);
      var timeGain := EstimateFreshTireGain(driverLaps, alternativeStopLap);
      var confidence := ConfidenceScore(positionGain, timeLoss, timeGain);
      var originalLap := if originalStop.Some? then originalStop.value else 0;
      var recommendation := GenerateRecommendation(positionGain, originalLap, alternativeStopLap, confidence);
      var originalTires := if originalLap != 0 then AnalyzeTireStrategy(driverLaps, originalLap).Label() else Unknown;
      var alternativeTires := AnalyzeTireStrategy(driverLaps, alternativeStopLap).Label();
      match AnalyzeTireDegradation(driverLaps)
      case Err(e) => Err(e)
      case Ok(degradation) =>
        Ok(Simulation(
          driverId, raceId, ScenarioName, originalLap, alternativeStopLap,
          originalFinal, alternativeFinal, positionGain, timeLoss, timeGain, confidence,
          recommendation,
          Analysis(|driverLaps|, originalTires, alternativeTires, degradation, CompetitiveContext)))
  }

  // ---------------------------------------------------------------------
  // Properties of whole runs
  // ---------------------------------------------------------------------

  /** Laps numbered 1, 2, ..., n with no gap. */
  predicate NumberedFromOne(laps: seq<Lap>)
  {
    forall i :: 0 <= i < |laps| ==> laps[i].lapNumber == i + 1
  }

  /** With laps numbered without gaps, the original final position is the last lap's. */
  lemma OriginalFinalIsLastLap(laps: seq<Lap>)
    requires |laps| > 0 && NumberedFromOne(laps)
    ensures PositionAtLap(laps, |laps|) == laps[|laps| - 1].position
  {
    assert IsLastAtOrBefore(laps, |laps|, |laps| - 1);
  }

  /** The original final position is looked up at lap `|laps|`, not at the last
      lap number: with lap 3 missing, the lap-2 position is reported. */
  lemma OriginalFinalWithMissingLap()
    ensures var laps := [Lap(1, 90.0, 3, "SOFT", 1), Lap(2, 90.0, 4, "SOFT", 2), Lap(4, 90.0, 5, "SOFT", 4)];
            PositionAtLap(laps, |laps|) == 4
  {
    var laps := [Lap(1, 90.0, 3, "SOFT", 1), Lap(2, 90.0, 4, "SOFT", 2), Lap(4, 90.0, 5, "SOFT", 4)];
    assert IsLastAtOrBefore(laps, 3, 1);
  }

  /** A stop lap past the last recorded lap saturates to the last lap's position;
      one before the first lap of ordered laps to the first lap's position. */
  lemma PositionLookupSaturates(laps: seq<Lap>, target: int)
    requires |laps| > 0 && OrderedByLapNumber(laps)
    ensures target >= laps[|laps| - 1].lapNumber ==> PositionAtLap(laps, target) == laps[|laps| - 1].position
    ensures target < laps[0].lapNumber ==> PositionAtLap(laps, target) == laps[0].position
  {
    if target >= laps[|laps| - 1].lapNumber {
      assert IsLastAtOrBefore(laps, target, |laps| - 1);
    }
  }

  /** A driver holding fifth place on every lap of a gap-free run reaches sixth
      with any alternative stop, loses one position, and is told so. */
  lemma ConstantPositionLosesOnePlace(raceId: int, driverId: int, alternativeStopLap: int,
                                      laps: seq<Lap>, pitStops: seq<PitStopRecord>)
    requires |laps| > 0 && NumberedFromOne(laps)
    requires forall i :: 0 <= i < |laps| ==> laps[i].position == 5
    requires laps[0].lapTime != 0.0
    ensures var r := CalculateAlternativeStrategy(raceId, driverId, alternativeStopLap, laps, pitStops);
            r.Ok? && r.value.originalPositionFinal == 5 && r.value.alternativePositionFinal == 6
            && r.value.positionGain == -1
            && r.value.recommendation == NotRecommended(alternativeStopLap, 1)
  {
    OriginalFinalIsLastLap(laps);
    var p := PositionAtLap(laps, alternativeStopLap);
    match LastAtOrBefore(laps, alternativeStopLap)
    case Some(i) => assert p == laps[i].position;
    case None => assert p == laps[0].position;
  }

  /** 20 laps of 90 s: 35.5 s lost at the stop and 33.75 s gained after it. */
  lemma NinetySecondPace(raceId: int, driverId: int, laps: seq<Lap>, pitStops: seq<PitStopRecord>)
    requires |laps| == 20
    requires forall i :: 0 <= i < |laps| ==> laps[i].lapTime == 90.0
    ensures var r := CalculateAlternativeStrategy(raceId, driverId, 15, laps, pitStops);
            r.Ok? && r.value.timeLossAtStop == 35.5 && r.value.timeGainAfterStop == 33.75
  {
    ConstantPaceEstimates(laps, 90.0, 15);
  }

  /** The lap label reads "Unknown" after the arrow when no lap follows the stop. */
  lemma NoLapAfterStopLabel(laps: seq<Lap>, stop: int)
    requires forall j :: 0 <= j < |laps| ==> laps[j].lapNumber <= stop
    ensures var text := AnalyzeTireStrategy(laps, stop).Label();
            |text| >= |Unknown| && text[|text| - |Unknown|..] == Unknown
  {
    var t := AnalyzeTireStrategy(laps, stop);
    TireStrategySides(laps, stop);
    assert t.Label() == (t.before + Separator) + Unknown;
  }

  // ---------------------------------------------------------------------
  // Integer helpers
  // ---------------------------------------------------------------------

  function Min(a: int, b: int): int { if a <= b then a else b }
  function Max(a: int, b: int): int { if a >= b then a else b }
  function Abs(a: int): int { if a < 0 then -a else a }
}
