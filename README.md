# Stress level calculator: a verified model

A terminal questionnaire asks for three ratings from 0 (worst) to 10 (best):
sleep quality, workload control and mood. Their sum is the relaxation score
(0..30). Inverting it against 30 gives stress points. Those points are turned
into a rounded stress percentage (0..100). The meter then clamps the
percentage to 0..100 and draws it as a 50-cell bar. It classifies the
percentage into one of four bands (LOW, MODERATE, HIGH, CRITICAL), each with
a colour and an interpretation text. Before that, each rating is read through
a prompt that re-asks until the answer is a whole number in range.

The model has three modules, one per part of `Stress-level-calculator.py`:

- `scoring.dfy`, module `Scoring`: `calculate_stress_level`.
- `meter.dfy`, module `Meter`: the decisions inside `display_meter`.
  These are the clamp, the filled/empty split, the band, colour and
  interpretation, and the bar string.
- `validation.dfy`, module `Validation`: the acceptance rule of
  `get_validated_input`. It is a recursive function over a finite sequence of
  answers.

Rounding. Python computes `round(stress_points / 30 * 100)` on floats. The
model works on the exact value 10k/3 for k stress points. For an integer k
its fractional part is 0, 1/3 or 2/3. So it is never a tie, and rounding to
nearest is `(10k + 1) / 3` with floor division. `RoundedPercentage` is proved
to lie within 1/3 of the exact value. `RoundedIsUniqueNearest` proves every
other integer is more than 1/2 away. So Python's round-half-to-even and any
other round-to-nearest rule give the same result.

## Model

| member | source | states |
|---|---|---|
| `Scoring.RoundedPercentage` | Stress-level-calculator.py:30-34 | the rounded percentage is within 1/3 of the exact value stress_points/30*100, and lies in 0..100 when the stress points lie in 0..30 |
| `Scoring.CalculateStressLevel` | Stress-level-calculator.py:17-35 | for ratings in 0..10 the stress level is in 0..100; for any integer ratings it is within 1/3 of (30 - sum)/30*100 |
| `Scoring.NeverHalfway` | Stress-level-calculator.py:34 | the exact percentage is never an integer plus one half, so the tie rule of `round` never matters |
| `Scoring.RoundedIsUniqueNearest` | Stress-level-calculator.py:34 | every integer other than the model's result is more than 1/2 from the exact value and farther than the result is |
| `Scoring.RoundedMonotone` | Stress-level-calculator.py:31-34 | more stress points never give a smaller percentage |
| `Scoring.AllTensGiveZero` | Stress-level-calculator.py:27-34 | ratings 10,10,10 give 0 |
| `Scoring.AllZerosGiveHundred` | Stress-level-calculator.py:27-34 | ratings 0,0,0 give 100 |
| `Scoring.AllFivesGiveFifty` | Stress-level-calculator.py:27-34 | ratings 5,5,5 give 50 |
| `Scoring.DependsOnlyOnSum` | Stress-level-calculator.py:27 | two rating triples with the same sum give the same stress level |
| `Scoring.StressNonIncreasing` | Stress-level-calculator.py:21-34 | raising any rating, or several at once, never raises the stress level |
| `Meter.Clamp` | Stress-level-calculator.py:41-42 | the clamped value lies in 0..100; it is the input when the input is already there, 0 below, 100 above |
| `Meter.ClampIsNearest` | Stress-level-calculator.py:41-42 | the clamped value is the percentage in 0..100 closest to the input |
| `Meter.ClampIdempotent` | Stress-level-calculator.py:41-42 | clamping twice equals clamping once |
| `Meter.FilledCells` | Stress-level-calculator.py:45-46 | filled cells are at most 50, equal p/2 rounded down, and are the largest count whose share of 50 does not exceed p percent |
| `Meter.EmptyCells` | Stress-level-calculator.py:47 | filled plus empty cells make 50; empty cells are half of 100 - p rounded up |
| `Meter.BandOf` | Stress-level-calculator.py:56-67 | the band chosen for p is the band whose range [lower, upper) contains p |
| `Meter.BandsPartition` | Stress-level-calculator.py:56-67 | p lies in a band's range if and only if it is classified into that band: the four ranges cover 0..100 without overlap |
| `Meter.BandMonotone` | Stress-level-calculator.py:56-67 | a higher percentage never falls into a less severe band |
| `Meter.BandBoundaries` | Stress-level-calculator.py:56-67 | 24 is LOW, 25 and 49 MODERATE, 50 and 74 HIGH, 75 CRITICAL |
| `Meter.ColourOf` | Stress-level-calculator.py:56-66 | the colour is red exactly for CRITICAL and green exactly for LOW and MODERATE |
| `Meter.Interpretation` | Stress-level-calculator.py:58-67 | each interpretation text begins with its band's upper-case name and a colon |
| `Meter.InterpretationsDistinct` | Stress-level-calculator.py:58-67 | different bands have different interpretation texts |
| `Meter.Repeat` | Stress-level-calculator.py:70 | repeating a character n times gives n copies of that character |
| `Meter.Bar` | Stress-level-calculator.py:70 | the bar has 50 cells; a cell is a block exactly when it comes before FilledCells(p), a dash exactly otherwise; every block precedes every dash |
| `Meter.MeterOf` | Stress-level-calculator.py:37-70 | the displayed reading: the percentage is the clamped input (the input itself when in 0..100); filled plus empty is 50 and filled is p/2 rounded down; the band's range contains the percentage; the colour and text are those of the band; the bar is `Bar` of the percentage, 50 cells whose blocks are exactly the first `filled` cells and whose dashes are exactly the rest |
| `Meter.MeterColourAndText` | Stress-level-calculator.py:56-67 | the displayed colour is red exactly from 75 and green exactly below 50, and the displayed text starts with the band's name |
| `Meter.MeterSaturates` | Stress-level-calculator.py:41-42 | a negative percentage is shown as 0 and one above 100 as 100 |
| `Meter.MeterExamples` | Stress-level-calculator.py:45-47 | 0 gives 0 filled and an all-dash bar, 100 gives 50 filled and an all-block bar, 50 gives 25 and 25 |
| `Meter.ScoreNeedsNoClamp` | Stress-level-calculator.py:41-42 | for ratings in 0..10 the clamp leaves the score unchanged |
| `Meter.BandOfScore` | Stress-level-calculator.py:27-34 | for any integer ratings the band is CRITICAL for relaxation up to 7, HIGH for 8..15, MODERATE for 16..22, LOW from 23 |
| `Validation.GetValidatedInput` | Stress-level-calculator.py:3-15 | an accepted value lies in [min, max]; no more messages are printed than answers given |
| `Validation.AcceptsFirstAcceptable` | Stress-level-calculator.py:7-15 | a value is accepted iff some answer is acceptable; it is the first acceptable answer; every earlier answer was rejected and drew the message matching its kind (not a number, or out of range); with no acceptance every answer drew its message |
| `Validation.StopsAtAcceptance` | Stress-level-calculator.py:7-11 | answers after the accepted one do not change the outcome |
| `Validation.RejectedRunCarriesOver` | Stress-level-calculator.py:7-15 | after a run with no acceptable answer, prompting continues on the later answers with the run's messages in front |
| `Validation.RetryExamples` | Stress-level-calculator.py:7-15 | a non-number then 5 gives one invalid-input message and 5; 11 then 5 gives one out-of-range message and 5 |

## Left out

- Console input and output: `input()`, `print` and the framed 55-character report are not modelled. The prompt is fed a finite sequence of answers instead of an endless console.
- Parsing of the typed text by `int(...)`: an answer is given already converted, as a number or as "not a number". Which strings Python accepts is not modelled.
- ANSI escape codes: the colour is a `Colour` value tied to the band, not an escape string.
- Floating point: `Scoring.RoundedPercentage` rounds the exact value 10k/3. Double-precision error in `stress_points / 30 * 100` is not modelled. The exact value is always at least 1/6 away from a half, a margin far wider than double-precision error for stress points in 0..30.
- `run_stress_meter` and its one-second `time.sleep`: they only wire prompts to the two functions, with a cosmetic delay.
- `Stress-level-calculator VAR2.py`, the slider widget with its own 0..10 classifier, is not part of this model.
- `Validation.GetValidatedInput`: on a finite run with no acceptable answer it returns no value. The source instead keeps prompting forever.
