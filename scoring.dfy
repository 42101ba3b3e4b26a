/** The questionnaire's scoring formula: three wellness ratings (sleep quality,
    workload control, mood), each meant to lie in 0..10, become a stress
    percentage in 0..100. A higher rating means less stress. */
module Scoring {

  /** The largest relaxation score: three ratings of at most 10 each. */
  const MaxScore: int := 30

  /** The relaxation score: the sum of the three ratings, higher is better. */
  function RelaxationScore(sleepQuality: int, workload: int, mood: int): int
  {
    sleepQuality + workload + mood
  }

  /** Stress points are the relaxation score inverted against MaxScore. */
  function StressPoints(sleepQuality: int, workload: int, mood: int): int
  {
    MaxScore - RelaxationScore(sleepQuality, workload, mood)
  }

  /** The exact (real-valued) percentage `stressPoints / 30 * 100` before rounding. */
  function ExactPercentage(stressPoints: int): real
  {
    stressPoints as real / MaxScore as real * 100.0
  }

  /** Distance between an integer and a real. */
  function Distance(n: int, x: real): (d: real)
    ensures d >= 0.0
  {
    if n as real >= x then n as real - x else x - n as real
  }

  /** Rounding of `stressPoints / 30 * 100` to an integer. The exact value is
      10 * stressPoints / 3, whose fractional part is 0, 1/3 or 2/3; adding one
      before the floor division by 3 therefore rounds it to the nearest
      integer, and no tie-breaking rule is ever consulted. */
  function RoundedPercentage(stressPoints: int): (r: int)
    ensures Distance(r, ExactPercentage(stressPoints)) <= 1.0 / 3.0
    ensures 0 <= stressPoints <= MaxScore ==> 0 <= r <= 100
  {
    (10 * stressPoints + 1) / 3
  }

  /** calculate_stress_level: the rounded percentage of stress points. Python
      accepts any integers here; only ratings in 0..10 guarantee 0..100. */
  function CalculateStressLevel(sleepQuality: int, workload: int, mood: int): (r: int)
    ensures 0 <= sleepQuality <= 10 && 0 <= workload <= 10 && 0 <= mood <= 10 ==> 0 <= r <= 100
    ensures Distance(r, ExactPercentage(MaxScore - (sleepQuality + workload + mood))) <= 1.0 / 3.0
  {
    RoundedPercentage(StressPoints(sleepQuality, workload, mood))
  }

  /** The exact percentage is never halfway between two integers, so Python's
      round-half-to-even and round-half-away-from-zero agree on it. */
  lemma NeverHalfway(stressPoints: int, n: int)
    ensures ExactPercentage(stressPoints) != n as real + 0.5
  {
    // 10k/3 = n + 1/2 would make 20k = 6n + 3, an even number equal to an odd one.
  }

  /** The rounded value is the unique nearest integer to the exact value:
      every other integer is more than half a unit away, while it is at most
      a third away. Hence it is what any round-to-nearest rule returns. */
  lemma RoundedIsUniqueNearest(stressPoints: int, n: int)
    requires n != RoundedPercentage(stressPoints)
    ensures Distance(n, ExactPercentage(stressPoints)) > 0.5
    ensures Distance(n, ExactPercentage(stressPoints)) > Distance(RoundedPercentage(stressPoints), ExactPercentage(stressPoints))
  {
    var r := RoundedPercentage(stressPoints);
    var x := ExactPercentage(stressPoints);
    assert Distance(r, x) <= 1.0 / 3.0;
    if n < r {
      assert n as real <= r as real - 1.0;
    } else {
      assert n as real >= r as real + 1.0;
    }
  }

  /** More stress points never give a smaller percentage. */
  lemma RoundedMonotone(j: int, k: int)
    requires j <= k
    ensures RoundedPercentage(j) <= RoundedPercentage(k)
  {
    var a, b := 10 * j + 1, 10 * k + 1;
    assert a <= b;
    assert a / 3 * 3 <= a < b / 3 * 3 + 3;
  }

  /** Best ratings everywhere: no stress at all. */
  lemma AllTensGiveZero()
    ensures CalculateStressLevel(10, 10, 10) == 0
  {
  }

  /** Worst ratings everywhere: full stress. */
  lemma AllZerosGiveHundred()
    ensures CalculateStressLevel(0, 0, 0) == 100
  {
  }

  /** Middle ratings everywhere: relaxation 15, stress points 15, half stress. */
  lemma AllFivesGiveFifty()
    ensures CalculateStressLevel(5, 5, 5) == 50
  {
  }

  /** The stress level depends on the three ratings only through their sum. */
  lemma DependsOnlyOnSum(s: int, w: int, m: int, s': int, w': int, m': int)
    requires s + w + m == s' + w' + m'
    ensures CalculateStressLevel(s, w, m) == CalculateStressLevel(s', w', m')
  {
  }

  /** Raising any of the ratings never raises the stress level. */
  lemma StressNonIncreasing(s: int, w: int, m: int, s': int, w': int, m': int)
    requires s <= s' && w <= w' && m <= m'
    ensures CalculateStressLevel(s', w', m') <= CalculateStressLevel(s, w, m)
  {
    RoundedMonotone(StressPoints(s', w', m'), StressPoints(s, w, m));
  }
}
