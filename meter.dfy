/** The decision logic of the stress meter display: the percentage is clamped
    to 0..100, split into filled and empty cells of a 50-cell bar, and
    classified into one of four bands, each with a colour and an
    interpretation text. Printing and terminal escape codes are not modelled. */
module Meter {
  import Scoring

  /** Number of cells in the meter bar. */
  const MeterLength: int := 50

  /** The character drawn for a filled cell (U+2588, FULL BLOCK). */
  const FillChar: char := '\U{2588}'

  /** The character drawn for an empty cell. */
  const EmptyChar: char := '-'

  /** A percentage once it has been clamped. */
  type Percent = p: int | 0 <= p <= 100

  /** The four stress bands, from least to most severe. */
  datatype Band = Low | Moderate | High | Critical

  /** The terminal colour a band is drawn in. */
  datatype Colour = Green | Yellow | Red

  /** Everything the meter shows for one percentage. */
  datatype Reading = Reading(
    percentage: Percent,
    filled: nat,
    empty: nat,
    band: Band,
    colour: Colour,
    interpretation: string,
    bar: seq<char>)

  function Abs(x: int): nat
  {
    if x < 0 then -x else x
  }

  /** Forces a percentage into 0..100: values already there are kept, values
      below are raised to 0, values above are lowered to 100. */
  function Clamp(percentage: int): (r: Percent)
    ensures 0 <= percentage <= 100 ==> r == percentage
    ensures percentage < 0 ==> r == 0
    ensures percentage > 100 ==> r == 100
  {
    if 0 <= percentage <= 100 then percentage
    else if percentage < 0 then 0
    else 100
  }

  /** The clamp picks the percentage in 0..100 closest to its input. */
  lemma ClampIsNearest(percentage: int, q: Percent)
    ensures Abs(Clamp(percentage) - percentage) <= Abs(q - percentage)
  {
  }

  /** Clamping twice is clamping once. */
  lemma ClampIdempotent(percentage: int)
    ensures Clamp(Clamp(percentage)) == Clamp(percentage)
  {
  }

  /** The number of filled cells: `int(p * 50 / 100)`, which for a clamped
      percentage truncates a non-negative value, i.e. rounds it down. */
  function FilledCells(p: Percent): (r: nat)
    ensures r <= MeterLength
    ensures r == p / 2
    ensures r * 100 <= p * MeterLength < (r + 1) * 100
  {
    p * MeterLength / 100
  }

  /** The number of empty cells: the rest of the bar, which is half the
      remaining percentage rounded up. */
  function EmptyCells(p: Percent): (r: nat)
    ensures r <= MeterLength
    ensures FilledCells(p) + r == MeterLength
    ensures r == (100 - p + 1) / 2
  {
    MeterLength - FilledCells(p)
  }

  /** Position of a band in order of severity. */
  function Rank(b: Band): nat
  {
    match b
    case Low => 0
    case Moderate => 1
    case High => 2
    case Critical => 3
  }

  /** Smallest percentage in a band. */
  function LowerBound(b: Band): int
  {
    match b
    case Low => 0
    case Moderate => 25
    case High => 50
    case Critical => 75
  }

  /** One past the largest percentage in a band. */
  function UpperBound(b: Band): int
  {
    match b
    case Low => 25
    case Moderate => 50
    case High => 75
    case Critical => 101
  }

  /** The if/elif chain of the display: 75 and above is critical, 50 and
      above high, 25 and above moderate, anything lower is low. */
  function BandOf(p: Percent): (b: Band)
    ensures LowerBound(b) <= p < UpperBound(b)
  {
    if p >= 75 then Critical
    else if p >= 50 then High
    else if p >= 25 then Moderate
    else Low
  }

  /** The bands cover 0..100 without overlap: a percentage lies in the range
      of a band exactly when it is classified into that band. */
  lemma BandsPartition(p: Percent, b: Band)
    ensures LowerBound(b) <= p < UpperBound(b) <==> BandOf(p) == b
  {
    var c := BandOf(p);
    if b != c {
      assert Rank(b) < Rank(c) ==> UpperBound(b) <= LowerBound(c);
      assert Rank(c) < Rank(b) ==> UpperBound(c) <= LowerBound(b);
    }
  }

  /** A higher percentage never falls into a less severe band. */
  lemma BandMonotone(p: Percent, q: Percent)
    requires p <= q
    ensures Rank(BandOf(p)) <= Rank(BandOf(q))
  {
  }

  /** The boundary values on either side of each threshold. */
  lemma BandBoundaries()
    ensures BandOf(24) == Low && BandOf(25) == Moderate
    ensures BandOf(49) == Moderate && BandOf(50) == High
    ensures BandOf(74) == High && BandOf(75) == Critical
  {
  }

  /** Red for critical, yellow for high, green for the two milder bands. */
  function ColourOf(b: Band): (c: Colour)
    ensures c == Green <==> Rank(b) <= Rank(Moderate)
    ensures c == Red <==> b == Critical
  {
    match b
    case Critical => Red
    case High => Yellow
    case Moderate => Green
    case Low => Green
  }

  /** The upper-case name each interpretation text starts with. */
  function Label(b: Band): string
  {
    match b
    case Critical => "CRITICAL"
    case High => "HIGH"
    case Moderate => "MODERATE"
    case Low => "LOW"
  }

  /** The advice that follows the band's name in its interpretation text. */
  function Advice(b: Band): string
  {
    match b
    case Critical => "High stress detected. It's time to prioritize rest and relaxation."
    case High => "Elevated stress level. Take a moment to breathe and manage your workload."
    case Moderate => "Stress is manageable. Keep an eye on your self-care."
    case Low => "You seem relaxed and well-managed. Great job!"
  }

  /** The interpretation text shown below the meter: the band's upper-case
      name, a colon, and the advice. */
  function Interpretation(b: Band): (s: string)
    ensures Label(b) + ": " <= s
  {
    Label(b) + ": " + Advice(b)
  }

  /** Different bands are explained by different texts: the four labels
      start with four different letters. */
  lemma InterpretationsDistinct(b: Band, b': Band)
    requires b != b'
    ensures Interpretation(b) != Interpretation(b')
  {
    LabelInitials(b, b');
    var s, s' := Interpretation(b), Interpretation(b');
    assert s[0] == (Label(b) + ": ")[0] == Label(b)[0];
    assert s'[0] == (Label(b') + ": ")[0] == Label(b')[0];
  }

  lemma LabelInitials(b: Band, b': Band)
    requires b != b'
    ensures |Label(b)| > 0 && |Label(b')| > 0 && Label(b)[0] != Label(b')[0]
  {
    match b
    case Critical => assert Label(b)[0] == 'C';
    case High => assert Label(b)[0] == 'H';
    case Moderate => assert Label(b)[0] == 'M';
    case Low => assert Label(b)[0] == 'L';
  }

  /** `c * n` in Python: n copies of one character. */
  function Repeat(c: char, n: nat): (s: seq<char>)
    ensures |s| == n
    ensures forall i :: 0 <= i < n ==> s[i] == c
  {
    if n == 0 then [] else [c] + Repeat(c, n - 1)
  }

  /** The bar: the filled cells followed by the empty cells. It is always 50
      cells long, a cell is filled exactly when it comes before position
      FilledCells(p), and every filled cell precedes every empty one. */
  function Bar(p: Percent): (s: seq<char>)
    ensures |s| == MeterLength
    ensures forall i :: 0 <= i < |s| ==> (s[i] == FillChar <==> i < FilledCells(p))
    ensures forall i :: 0 <= i < |s| ==> (s[i] == EmptyChar <==> FilledCells(p) <= i)
    ensures forall i, j :: 0 <= i < |s| && 0 <= j < |s| && s[i] == EmptyChar && s[j] == FillChar ==> j < i
  {
    Repeat(FillChar, FilledCells(p)) + Repeat(EmptyChar, EmptyCells(p))
  }

  /** display_meter without the printing: clamps its argument and derives the
      cell counts, band, colour, interpretation and bar from the clamped value. */
  function MeterOf(percentage: int): (m: Reading)
    ensures m.percentage == Clamp(percentage)
    ensures 0 <= percentage <= 100 ==> m.percentage == percentage
    ensures m.filled + m.empty == MeterLength
    ensures m.filled * 100 <= m.percentage * MeterLength < (m.filled + 1) * 100
    ensures LowerBound(m.band) <= m.percentage < UpperBound(m.band)
    ensures |m.bar| == MeterLength
    ensures forall i :: 0 <= i < |m.bar| ==> (m.bar[i] == FillChar <==> i < m.filled)
    ensures forall i :: 0 <= i < |m.bar| ==> (m.bar[i] == EmptyChar <==> m.filled <= i)
    ensures m.bar == Bar(m.percentage)
    ensures m.colour == ColourOf(m.band)
    ensures m.interpretation == Interpretation(m.band)
  {
    var p := Clamp(percentage);
    var band := BandOf(p);
    Reading(p, FilledCells(p), EmptyCells(p), band, ColourOf(band), Interpretation(band), Bar(p))
  }

  /** The colour and text shown agree with the displayed percentage: red
      exactly from 75, green exactly below 50, and the text names the band. */
  lemma MeterColourAndText(percentage: int)
    ensures var m := MeterOf(percentage);
            && (m.colour == Red <==> m.percentage >= 75)
            && (m.colour == Green <==> m.percentage < 50)
            && Label(m.band) + ": " <= m.interpretation
  {
  }

  /** Out-of-range percentages are shown as the nearest end of the scale. */
  lemma MeterSaturates(percentage: int)
    ensures percentage < 0 ==> MeterOf(percentage) == MeterOf(0)
    ensures percentage > 100 ==> MeterOf(percentage) == MeterOf(100)
  {
  }

  /** An empty bar at 0%, a full bar at 100%, and an even split at 50%. */
  lemma MeterExamples()
    ensures MeterOf(0).filled == 0 && MeterOf(0).empty == 50
    ensures MeterOf(100).filled == 50 && MeterOf(100).empty == 0
    ensures MeterOf(50).filled == 25 && MeterOf(50).empty == 25
    ensures MeterOf(0).bar == Repeat(EmptyChar, 50)
    ensures MeterOf(100).bar == Repeat(FillChar, 50)
  {
  }

  /** For valid ratings the score never needs the clamp: it is a safety net. */
  lemma ScoreNeedsNoClamp(sleepQuality: int, workload: int, mood: int)
    requires 0 <= sleepQuality <= 10 && 0 <= workload <= 10 && 0 <= mood <= 10
    ensures Clamp(Scoring.CalculateStressLevel(sleepQuality, workload, mood))
         == Scoring.CalculateStressLevel(sleepQuality, workload, mood)
  {
  }

  /** The band a questionnaire lands in, read off the relaxation score: at
      most 7 is critical, 8..15 high, 16..22 moderate, 23 and more low. This
      holds for any integer ratings, the clamp absorbing those out of range. */
  lemma BandOfScore(sleepQuality: int, workload: int, mood: int)
    ensures var relaxation := sleepQuality + workload + mood;
            BandOf(Clamp(Scoring.CalculateStressLevel(sleepQuality, workload, mood)))
            == if relaxation <= 7 then Critical
               else if relaxation <= 15 then High
               else if relaxation <= 22 then Moderate
               else Low
  {
    var relaxation := sleepQuality + workload + mood;
    var k := Scoring.MaxScore - relaxation;
    var r := Scoring.CalculateStressLevel(sleepQuality, workload, mood);
    assert r == (10 * k + 1) / 3;
    if relaxation <= 7 {
      Scoring.RoundedMonotone(23, k);
    } else if relaxation <= 15 {
      Scoring.RoundedMonotone(15, k);
      Scoring.RoundedMonotone(k, 22);
    } else if relaxation <= 22 {
      Scoring.RoundedMonotone(8, k);
      Scoring.RoundedMonotone(k, 14);
    } else {
      Scoring.RoundedMonotone(k, 7);
    }
  }
}
