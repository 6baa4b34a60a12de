# Pit-stop strategy calculator and common validators, modelled in Dafny

This project models the only part of the F1 telemetry backend that has real logic. That part is the
**pit-stop what-if calculator** (`PitStopStrategyCalculator`). A driver made a stop on one lap; the
calculator estimates what would have happened with a stop on another lap. Its inputs are the
driver's laps, ordered by lap number, and the driver's pit stops, ordered by lap. It derives:

- the original final position and the simulated one;
- the change in position;
- the time lost in the pit lane and the time gained on fresh tyres;
- a confidence score and one of three recommendations;
- a tyre before/after label for both stops and a lap-time degradation summary.

The project also models three small string rules from the shared utilities:

- the password-strength check, with its score and error list;
- the display-name formatter;
- the email-format check.

Files:

- `wrappers.dfy`: module `Wrappers`, the `Option` and `Result` datatypes.
- `pit_stop.dfy`: module `PitStop`, the calculator. Every helper is a pure function, as in the source.
  The two repository reads become the parameters `driverLaps: seq<Lap>` and `pitStops: seq<PitStopRecord>`.
  The `ValueError` raised for a driver without laps becomes `Err(NoLapData(driverId, raceId))`.
  The `ZeroDivisionError` that the degradation percentage raises when the first lap time is 0 becomes
  `Err(DivisionByZero)`.
- `common.dfy`: module `Common`. `ValidatePasswordStrength` is a method that updates local variables
  (`isValid`, `errors`, `score`) one check after another, as the source updates its `feedback`
  dictionary. `FormatDisplayName` and `ValidateEmail` are functions.

Behaviour worth knowing, all proved below:

- The original final position is looked up at lap `len(laps)`, not at the last lap number. With
  gap-free lap numbers 1..n this is the last lap's position. With a missing lap it can be an earlier
  lap's position (`OriginalFinalWithMissingLap`).
- The confidence score is capped at 100 but has no lower bound, so it can be negative
  (`ConfidenceCanBeNegative`). The source's docstring says "0-100"; the model follows the code.
- A stop lap outside the recorded laps is not rejected. The position lookup falls back to the nearest
  recorded lap (`PositionLookupSaturates`).
- With any position of at least 1 at the stop lap, the simulated final position lies in 2..19.
- Since every member is a function of its inputs, two calls with the same inputs give the same result.

## Model

| member | source | states |
|---|---|---|
| `PitStop.LastAtOrBefore` | app/services/strategy/pit_stop/calculator.py:145-147 | The scan from the end finds a lap numbered at most the target, and every later lap is numbered above it. It finds nothing exactly when every lap is numbered above the target. |
| `PitStop.PositionAtLap` | app/services/strategy/pit_stop/calculator.py:143-148 | The result is the position of the last lap numbered at most the target. If no lap qualifies it is the first lap's position, and 20 for no laps. |
| `PitStop.SimulatedFinalPosition` | app/services/strategy/pit_stop/calculator.py:161-172 | Two places are lost at the stop (capped at 20) and one is regained (floored at 1). The result is always in 1..19. It is p+1 for 0 ≤ p ≤ 18, 19 from p = 18 on, and 1 for p ≤ 0. |
| `PitStop.SimulatePositionAfterStop` | app/services/strategy/pit_stop/calculator.py:150-172 | The alternative final position is the simulated position of the last lap at or before the stop. When every lap is past the stop, it is the simulated position of the first lap, or of 20 when there are no laps. It is in 1..19. It is at least 2 when all positions are at least 1. It is one more than the selected position when that position is in 0..18. |
| `PitStop.SumLapTimes` | app/services/strategy/pit_stop/calculator.py:178 | The total of the lap times is never negative when no lap time is negative. |
| `PitStop.AverageLapTime` | app/services/strategy/pit_stop/calculator.py:178 | The average times the number of laps is the total. With positive lap times the average is positive. |
| `PitStop.SumWithinBounds` | app/services/strategy/pit_stop/calculator.py:178 | Lap times between lo and hi sum to between n·lo and n·hi. |
| `PitStop.AverageWithinBounds` | app/services/strategy/pit_stop/calculator.py:178 | The average lies between any lower and upper bound of the lap times. |
| `PitStop.SumOfPositiveTimes` | app/services/strategy/pit_stop/calculator.py:178 | Positive lap times have a positive sum. |
| `PitStop.SumOfConstantTimes` | app/services/strategy/pit_stop/calculator.py:184 | n laps of time t sum to n·t. |
| `PitStop.EstimatePitStopLoss` | app/services/strategy/pit_stop/calculator.py:174-179 | With positive lap times the pit-stop time loss is more than 22 s. |
| `PitStop.EstimateFreshTireGain` | app/services/strategy/pit_stop/calculator.py:181-187 | With positive lap times the fresh-tyre gain is positive. |
| `PitStop.ConstantPaceEstimates` | app/services/strategy/pit_stop/calculator.py:174-187 | At a constant lap time t the loss is 22 + 0.15·t and the gain is 0.375·t. |
| `PitStop.GainCoversLoss` | app/services/strategy/pit_stop/calculator.py:174-187 | The gain is at least the loss exactly when the average lap time is at least 880/9 s. |
| `PitStop.ConfidenceScore` | app/services/strategy/pit_stop/calculator.py:189-201 | The score is at most 100. It is exactly 100 for a gain of 4 or more when the time gain covers a positive time loss. When the time loss is not positive the time term is 50, so the score is (25·gain + 50)/2 for gains up to 4, and negative for gains below −2. With no time loss and a gain of 4 or more it is 75. With a positive loss and a gain up to 4, it is (25·gain + 100·timeGain/timeLoss)/2 when that mean is at most 100, and 100 otherwise. Together with `ConfidenceSaturatesAtFour` this fixes the score on every input. |
| `PitStop.ConfidenceAtLongLapPace` | app/services/strategy/pit_stop/calculator.py:197-201 | At a 100 s average lap (loss 37 s, time gain 37.5 s) a loss of 4 places scores below 1. |
| `PitStop.ConfidenceSaturatesAtFour` | app/services/strategy/pit_stop/calculator.py:194 | The position term is capped at 100: every gain of 4 or more scores the same as a gain of 4. |
| `PitStop.ConfidenceMonotoneInGain` | app/services/strategy/pit_stop/calculator.py:194-201 | A larger position gain never gives a lower score. |
| `PitStop.ConfidenceCanBeNegative` | app/services/strategy/pit_stop/calculator.py:199-201 | Nothing clamps the score from below: a loss of 4 places at 35.5 s / 33.75 s gives a negative score. |
| `PitStop.GenerateRecommendation` | app/services/strategy/pit_stop/calculator.py:203-225 | The template is chosen by the sign of the gain (positive, zero, negative), one template for each. Every template carries the alternative lap. The positive one carries the gain and the confidence. The negative one carries the magnitude of the loss, which is positive. |
| `PitStop.LapsAtOrBefore` | app/services/strategy/pit_stop/calculator.py:229 | The filter is no longer than its input, and it is empty when every lap is past the stop. |
| `PitStop.LapsAfter` | app/services/strategy/pit_stop/calculator.py:230 | The filter is no longer than its input. It keeps every lap when all are past the stop and none when none are. |
| `PitStop.LapsAtOrBeforeMembers` | app/services/strategy/pit_stop/calculator.py:229 | A lap is kept by the "at or before" filter exactly when it is one of the laps and is numbered at most the stop. |
| `PitStop.LapsAfterMembers` | app/services/strategy/pit_stop/calculator.py:230 | A lap is kept by the "after" filter exactly when it is one of the laps and is numbered above the stop. |
| `PitStop.FiltersSplitMultiset` | app/services/strategy/pit_stop/calculator.py:229-230 | For any laps, ordered or not, the two filters together keep every lap exactly as often as it occurs. |
| `PitStop.LapsAtOrBeforeConcat` | app/services/strategy/pit_stop/calculator.py:229 | The "at or before" filter keeps input order: filtering a concatenation gives the filtered parts concatenated. |
| `PitStop.LapsAfterConcat` | app/services/strategy/pit_stop/calculator.py:230 | The "after" filter keeps input order in the same way. |
| `PitStop.LastOfLapsAtOrBefore` | app/services/strategy/pit_stop/calculator.py:229-232 | The last element of the "at or before" filter is the last lap numbered at most the stop. |
| `PitStop.FirstOfLapsAfter` | app/services/strategy/pit_stop/calculator.py:230-233 | The first element of the "after" filter is the first lap numbered above the stop. |
| `PitStop.FiltersPartitionOrderedLaps` | app/services/strategy/pit_stop/calculator.py:229-230 | On laps ordered by lap number, the "at or before" filter followed by the "after" filter gives back the laps. |
| `PitStop.FirstAfter` | app/services/strategy/pit_stop/calculator.py:230-233 | The forward search finds the first lap numbered above the stop. It finds nothing exactly when no lap is past the stop. |
| `PitStop.LastOfFilterIsSearchResult` | app/services/strategy/pit_stop/calculator.py:229-232 | The filter's last lap is the reversed search's lap. The filter is empty when the search finds nothing. |
| `PitStop.FirstOfFilterIsSearchResult` | app/services/strategy/pit_stop/calculator.py:230-233 | The filter's first lap is the forward search's lap. The filter is empty when the search finds nothing. |
| `PitStop.AnalyzeTireStrategy` | app/services/strategy/pit_stop/calculator.py:227-235 | The "before" side is the compound of the lap the reversed search finds, and "Unknown" when it finds none. The "after" side is the compound of the lap the forward search finds, and "Unknown" when it finds none. |
| `PitStop.TireStrategySides` | app/services/strategy/pit_stop/calculator.py:227-235 | "Before" is the last lap at or before the stop, or "Unknown" when every lap is past it. "After" is the first lap past the stop, or "Unknown" when none is. |
| `PitStop.TireTransition.Label` | app/services/strategy/pit_stop/calculator.py:235 | The label starts with the compound before the stop, then the separator, and ends with the compound after it. |
| `PitStop.NoLapAfterStopLabel` | app/services/strategy/pit_stop/calculator.py:233-235 | With no lap after the stop, the label ends in "Unknown". |
| `PitStop.AnalyzeTireDegradation` | app/services/strategy/pit_stop/calculator.py:237-252 | The summary is empty exactly when there are fewer than 2 laps. It is an error (of any kind) exactly when there are two or more laps and the first lap time is 0. Otherwise it holds the first and last lap times, their difference, and a percentage p with p·first = 100·difference. |
| `PitStop.OriginalStopLap` | app/services/strategy/pit_stop/calculator.py:83 | The original stop is absent exactly when there are no pit stops. Otherwise it is the first record's lap. |
| `PitStop.CalculateAlternativeStrategy` | app/services/strategy/pit_stop/calculator.py:58-141 | No laps gives exactly the no-data error, with the race and driver. The division error happens exactly when there are two or more laps and the first lap time is 0. In every other case the simulation succeeds, with the fields in the numbered list below this table. |
| `PitStop.OriginalFinalIsLastLap` | app/services/strategy/pit_stop/calculator.py:86-88 | With lap numbers 1..n, the original final position is the last lap's. |
| `PitStop.OriginalFinalWithMissingLap` | app/services/strategy/pit_stop/calculator.py:86-88 | Laps numbered 1, 2, 4 report lap 2's position as the original final position. |
| `PitStop.PositionLookupSaturates` | app/services/strategy/pit_stop/calculator.py:143-148 | On ordered laps, a target at or beyond the last lap gives the last lap's position. A target before the first lap gives the first lap's position. |
| `PitStop.ConstantPositionLosesOnePlace` | app/services/strategy/pit_stop/calculator.py:86-95 | A driver in 5th on every lap of a gap-free run, with a non-zero first lap time, gets 6th with any alternative stop, a gain of −1, and the "could cost 1 position" recommendation. |
| `PitStop.NinetySecondPace` | app/services/strategy/pit_stop/calculator.py:98-103 | 20 laps of 90 s give a simulation with a 35.5 s loss and a 33.75 s gain. |
| `Common.Checks` | app/utils/common.py:20-47 | One result per check, five in all. It is defined as: length at least 8, an upper-case letter, a lower-case letter, a digit, a special character, in the source's order. |
| `Common.CountPassed` | app/utils/common.py:24-47 | The number of passing checks among the first k is at most k. |
| `Common.FullCountIffAllPass` | app/utils/common.py:24-47 | All of the first k checks are counted exactly when all of them pass, so the score is 5 exactly when every check passes. |
| `Common.FailedMessages` | app/utils/common.py:20-47 | Defined as the failing checks' messages in check order. Its contract states that passes plus errors equal the number of checks, that only given messages appear, and that every failing check's message appears. |
| `Common.FailedMessagesNameFailures` | app/utils/common.py:20-47 | With distinct messages, a message is reported exactly when its check fails. |
| `Common.FailedMessagesOnlyFrom` | app/utils/common.py:20-47 | Checks not yet run contribute no message. |
| `Common.ValidatePasswordStrength` | app/utils/common.py:12-49 | The score is the number of passing checks (length ≥ 8, upper, lower, digit, special). The errors are the failing checks' messages in that order. The score is in 0..5 and score + number of errors = 5. `isValid` holds exactly when the length, upper, lower and digit checks pass; the special character does not affect it. |
| `Common.PasswordErrorsNameFailingChecks` | app/utils/common.py:20-47 | Each check's message is among the errors exactly when that check fails. |
| `Common.IsSpace` | app/utils/common.py:55-59 | The characters `str.strip()` removes: those for which Python's `str.isspace()` holds. |
| `Common.LeadingSpace` | app/utils/common.py:55-59 | Counts the leading whitespace: everything before the count is whitespace and the character at it is not. |
| `Common.TrailingSpaceStart` | app/utils/common.py:55-59 | Marks where the trailing whitespace starts: everything from there on is whitespace and the character before it is not. |
| `Common.Strip` | app/utils/common.py:55-59 | The result is a contiguous piece of the input, and everything outside it is whitespace. It is empty or starts and ends with non-whitespace. It is empty exactly when the input is all whitespace. |
| `Common.StripIdempotent` | app/utils/common.py:55-59 | Stripping a stripped name changes nothing. |
| `Common.Present` | app/utils/common.py:54-58 | Python truthiness of an optional name: `None` and the empty string are false. |
| `Common.FormatDisplayName` | app/utils/common.py:52-61 | With both names present, the result is the stripped first name, one space, then the stripped last name. With one present, it is that name stripped. With none, "Anonymous". It is empty exactly when exactly one name is present and it is all whitespace. |
| `Common.IndexOf` | app/utils/common.py:8 | Finds the first occurrence of a character, or the length when there is none. |
| `Common.LastIndexOf` | app/utils/common.py:8 | Finds the last occurrence of a character, or −1 when there is none. |
| `Common.IsEmailSplit` | app/utils/common.py:8 | Defined as the pattern at a given split: a non-empty local part over `[a-zA-Z0-9._%+-]`, then `@`, then a non-empty domain over `[a-zA-Z0-9.-]`, then `.`, then two or more ASCII letters to the end. |
| `Common.EmailGrammar` | app/utils/common.py:8 | Defined as: some split makes `IsEmailSplit` hold. This is the anchored pattern without the final-newline allowance of `$`. |
| `Common.MatchesEmail` | app/utils/common.py:8-9 | The pattern is tried at the only split that can work: the first `@` and the last `.`. |
| `Common.MatchesEmailDecidesGrammar` | app/utils/common.py:6-9 | Splitting at the first `@` and the last `.` succeeds exactly when some split matches the email grammar. |
| `Common.ValidateEmail` | app/utils/common.py:6-9 | The email is accepted exactly when it matches the grammar, possibly followed by one final newline. |
| `Common.AcceptedEmailHasOneAt` | app/utils/common.py:8 | An address matching the grammar has only one `@`. |
| `Common.AcceptsPlainAddress` | app/utils/common.py:6-9 | `driver@team.com` is accepted. |
| `Common.AcceptsAddressWithFinalNewline` | app/utils/common.py:6-9 | `driver@team.com` followed by a newline is accepted, because of how `$` works. |
| `Common.RejectsOneLetterTopLevelDomain` | app/utils/common.py:6-9 | `driver@team.c` is rejected. |

On success, `PitStop.CalculateAlternativeStrategy` also guarantees:

1. The driver, race, scenario name and alternative lap are echoed.
2. The original stop lap is the first stop's lap, or 0 when there is none.
3. The original final position is the position at lap `|laps|`.
4. The alternative final position is the simulated position at the alternative lap. It lies in 1..19.
5. The position gain is the original minus the alternative position, exactly.
6. The time loss is `EstimatePitStopLoss` of the laps, and the time gain is `EstimateFreshTireGain`.
7. The confidence is `ConfidenceScore` of the gain, loss and time gain, so it is at most 100.
8. The recommendation is `GenerateRecommendation` of the gain, the original and alternative laps and the confidence. It carries the alternative lap and follows the sign of the gain.
9. The analysis counts the laps.
10. The original tyre label is "Unknown" when the original stop lap is 0. Otherwise it is the tyre analysis label at that lap.
11. The alternative tyre label is the tyre analysis label at the alternative lap.
12. The degradation summary is the one `AnalyzeTireDegradation` computes.
13. The competitive context is the fixed sentence the source returns.
14. With positive lap times the loss exceeds 22 s and the gain is positive.

## Left out

- The database session, the async repository calls and the ORM objects: laps and pit stops are
  parameters of `CalculateAlternativeStrategy`. The repository's ordering is stated by
  `OrderedByLapNumber` where a lemma needs it.
- Floating point: lap times, estimates and scores are exact `real`s. IEEE rounding, infinities and
  NaN are not modelled.
- The text of the recommendation:
  - it is a tagged value carrying the lap, the gain or cost, and the confidence;
  - the `:.0f` rendering of the confidence is not modelled.
- The text of the no-data error: the error carries the race and driver ids.
- The tyre label separator is kept as the source spells it, as an opaque constant.
- `LapMetrics` is not part of this model: the calculator never constructs it.
- The lap fields the calculator does not read (sectors, gaps) are not modelled.
- `PitStop.EstimatePitStopLoss` and `PitStop.EstimateFreshTireGain` require at least one lap, where
  the source would raise `ZeroDivisionError`. Their only caller rejects empty lap data first.
- `PitStop.CalculateAlternativeStrategy` takes the first pit-stop record as the original stop.
  It is the earliest stop only because the repository sorts stops by lap.
- `Common.ValidatePasswordStrength` treats only ASCII `0`-`9` as digits. Python's `\d` on a `str`
  also matches other Unicode decimal digits, so a password whose only digits are non-ASCII passes
  the source's digit check but fails the model's.
- The regular-expression engine: the email pattern is modelled as a grammar predicate and a decision
  procedure. Python's `$` also matches before one final newline, and the model includes that.
- The overtake, defend and weather calculators are stubs that return constants. The HTTP layer,
  authentication, settings and data import are not part of this model.
