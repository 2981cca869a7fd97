/** Deterministic risk scoring: the matrices, the aggregate rating, and their monotonicity. */
module RiskScoring {

  datatype Likelihood = Rare | Unlikely | Possible | Likely | AlmostCertain

  datatype Consequence = Insignificant | Minor | Moderate | Major | Severe

  datatype Velocity = VerySlow | Slow | ModeratePace | Fast | Immediate

  datatype Rating = Effective | PartiallyEffective | Ineffective | Uncontrolled

  datatype Level = Low | Medium | High | Extreme

  const LEVELS := [Low, Medium, High, Extreme]

  function LikelihoodIndex(l: Likelihood): nat {
    match l
    case Rare => 0
    case Unlikely => 1
    case Possible => 2
    case Likely => 3
    case AlmostCertain => 4
  }

  function ConsequenceIndex(c: Consequence): nat {
    match c
    case Insignificant => 0
    case Minor => 1
    case Moderate => 2
    case Major => 3
    case Severe => 4
  }

  function VelocityIndex(v: Velocity): nat {
    match v
    case VerySlow => 0
    case Slow => 1
    case ModeratePace => 2
    case Fast => 3
    case Immediate => 4
  }

  function LevelIndex(level: Level): nat {
    match level
    case Low => 0
    case Medium => 1
    case High => 2
    case Extreme => 3
  }

  function InherentRow(c: Consequence): (row: seq<Level>)
    ensures |row| == 5
  {
    match c
    case Insignificant => [Low, Low, Low, Medium, Medium]
    case Minor => [Low, Low, Medium, Medium, High]
    case Moderate => [Low, Medium, Medium, High, High]
    case Major => [Medium, Medium, High, High, Extreme]
    case Severe => [Medium, High, High, Extreme, Extreme]
  }

  /** The matrix entry, raised one band when an already high risk moves at once. */
  function InherentRisk(l: Likelihood, c: Consequence, v: Velocity): Level {
    var level := InherentRow(c)[LikelihoodIndex(l)];
    if v == Immediate && level == High then
      LEVELS[if LevelIndex(level) + 1 < |LEVELS| - 1 then LevelIndex(level) + 1 else |LEVELS| - 1]
    else level
  }

  /**
   The matrix is the band of the summed positions, two steps a band, so likelihood and
   consequence weigh the same; moving at once lifts the third band into the fourth.
   */
  lemma InherentIsBandOfSum(l: Likelihood, c: Consequence, v: Velocity)
    ensures var sum := LikelihoodIndex(l) + ConsequenceIndex(c);
      var band := if sum == 0 then 0 else (sum - 1) / 2;
      LevelIndex(InherentRisk(l, c, v)) == if v == Immediate && band == 2 then 3 else band
  {
    var level := InherentRow(c)[LikelihoodIndex(l)];
    var sum := LikelihoodIndex(l) + ConsequenceIndex(c);
    assert LevelIndex(level) == if sum == 0 then 0 else (sum - 1) / 2;
  }

  function ResidualRisk(inherent: Level, overall: Rating): Level {
    match inherent
    case Low => (match overall
      case Effective => Low
      case PartiallyEffective => Low
      case Ineffective => Low
      case Uncontrolled => Medium)
    case Medium => (match overall
      case Effective => Low
      case PartiallyEffective => Medium
      case Ineffective => Medium
      case Uncontrolled => High)
    case High => (match overall
      case Effective => Medium
      case PartiallyEffective => High
      case Ineffective => High
      case Uncontrolled => Extreme)
    case Extreme => (match overall
      case Effective => High
      case PartiallyEffective => High
      case Ineffective => Extreme
      case Uncontrolled => Extreme)
  }

  /**
   Controls move the risk by at most one band: effective ones one down, uncontrolled one up,
   ineffective ones not at all, and partly effective ones only down from the top.
   */
  lemma ResidualShiftsOneBand(inherent: Level, overall: Rating)
    ensures var i, r := LevelIndex(inherent), LevelIndex(ResidualRisk(inherent, overall));
      && (overall == Effective ==> r == if i == 0 then 0 else i - 1)
      && (overall == PartiallyEffective ==> r == if i == 3 then 2 else i)
      && (overall == Ineffective ==> r == i)
      && (overall == Uncontrolled ==> r == if i == 3 then 3 else i + 1)
  {
  }

  function Score(r: Rating): nat {
    match r
    case Effective => 3
    case PartiallyEffective => 2
    case Ineffective => 1
    case Uncontrolled => 0
  }

  function TotalScore(ratings: seq<Rating>): nat {
    if ratings == [] then 0 else TotalScore(ratings[1..]) + Score(ratings[0])
  }

  function Mean(ratings: seq<Rating>): real
    requires ratings != []
  {
    TotalScore(ratings) as real / |ratings| as real
  }

  /** The aggregate rating: thresholds on the mean score, Uncontrolled when there are no controls. */
  function Overall(ratings: seq<Rating>): Rating {
    if ratings == [] then Uncontrolled
    else
      var avg := Mean(ratings);
      if avg >= 2.5 then Effective
      else if avg >= 1.5 then PartiallyEffective
      else if avg >= 0.5 then Ineffective
      else Uncontrolled
  }

  lemma {:induction false} TotalBounds(ratings: seq<Rating>)
    ensures TotalScore(ratings) <= 3 * |ratings|
  {
    if ratings != [] { TotalBounds(ratings[1..]); }
  }

  lemma DivideCompare(x: real, n: real, t: real)
    requires n > 0.0
    ensures x / n >= t <==> x >= t * n
    ensures x / n <= t <==> x <= t * n
  {
    var q := x / n;
    assert q * n == x;
    Cancel(t, q, n);
    Cancel(q, t, n);
  }

  lemma Cancel(u: real, v: real, n: real)
    requires n > 0.0
    ensures u * n <= v * n <==> u <= v
  {
    if u <= v { assert (v - u) * n >= 0.0; } else { assert (u - v) * n > 0.0; }
  }

  lemma MeanRange(ratings: seq<Rating>)
    requires ratings != []
    ensures 0.0 <= Mean(ratings) <= 3.0
    ensures Mean(ratings) * |ratings| as real == TotalScore(ratings) as real
  {
    hide TotalScore;
    TotalBounds(ratings);
    var total, n := TotalScore(ratings) as real, |ratings| as real;
    DivideCompare(total, n, 0.0);
    DivideCompare(total, n, 3.0);
  }

  /** The aggregate rating is the mean score rounded to the nearest rating, halves upward. */
  lemma OverallIsRoundedMean(ratings: seq<Rating>)
    requires ratings != []
    ensures Score(Overall(ratings)) == (Mean(ratings) + 0.5).Floor
  {
    hide Mean;
    MeanRange(ratings);
  }

  lemma {:induction false} TotalRemove(ratings: seq<Rating>, i: nat)
    requires i < |ratings|
    ensures TotalScore(ratings) == TotalScore(ratings[..i] + ratings[i + 1..]) + Score(ratings[i])
  {
    if i == 0 {
      assert ratings[..0] + ratings[1..] == ratings[1..];
    } else {
      TotalRemove(ratings[1..], i - 1);
      var rest := ratings[..i] + ratings[i + 1..];
      assert rest[1..] == ratings[1..][..i - 1] + ratings[1..][i..];
    }
  }

  lemma MultisetRemove(s: seq<Rating>, i: nat)
    requires i < |s|
    ensures multiset(s[..i] + s[i + 1..]) == multiset(s) - multiset{s[i]}
  {
    assert s == s[..i] + ([s[i]] + s[i + 1..]);
  }

  lemma {:induction false} TotalIsOrderFree(a: seq<Rating>, b: seq<Rating>)
    requires multiset(a) == multiset(b)
    ensures TotalScore(a) == TotalScore(b) && |a| == |b|
    decreases |a|
  {
    assert |multiset(a)| == |a| && |multiset(b)| == |b|;
    if a != [] {
      assert a[0] in multiset(a);
      assert a[0] in multiset(b);
      var i :| 0 <= i < |b| && b[i] == a[0];
      TotalRemove(a, 0);
      TotalRemove(b, i);
      MultisetRemove(a, 0);
      MultisetRemove(b, i);
      TotalIsOrderFree(a[..0] + a[1..], b[..i] + b[i + 1..]);
    }
  }

  /** The order in which controls are rated does not matter. */
  lemma OverallIsOrderFree(a: seq<Rating>, b: seq<Rating>)
    requires multiset(a) == multiset(b)
    ensures Overall(a) == Overall(b)
  {
    TotalIsOrderFree(a, b);
  }

  /** A better mean never gives a worse aggregate rating. */
  lemma OverallFollowsMean(a: seq<Rating>, b: seq<Rating>)
    requires a != [] && b != [] && Mean(a) <= Mean(b)
    ensures Score(Overall(a)) <= Score(Overall(b))
  {
    hide Mean;
  }

  lemma MeanOrder(a: seq<Rating>, b: seq<Rating>)
    requires a != [] && b != []
    requires TotalScore(a) as real * |b| as real <= TotalScore(b) as real * |a| as real
    ensures Mean(a) <= Mean(b)
  {
    hide TotalScore;
    var x, y, m, n := TotalScore(a) as real, TotalScore(b) as real, |a| as real, |b| as real;
    var q := x / m;
    assert q * m == x;
    assert q * n * m == x * n;
    Cancel(q * n, y, m);
    DivideCompare(y, n, q);
  }

  lemma {:induction false} TotalUpdate(ratings: seq<Rating>, i: nat, r: Rating)
    requires i < |ratings|
    ensures TotalScore(ratings[i := r]) == TotalScore(ratings) - Score(ratings[i]) + Score(r)
  {
    var changed := ratings[i := r];
    TotalRemove(ratings, i);
    TotalRemove(changed, i);
    assert changed[..i] + changed[i + 1..] == ratings[..i] + ratings[i + 1..];
  }

  lemma ResidualFollowsOverall(inherent: Level, worse: Rating, better: Rating)
    requires Score(worse) <= Score(better)
    ensures LevelIndex(ResidualRisk(inherent, better)) <= LevelIndex(ResidualRisk(inherent, worse))
  {
  }

  lemma ResidualFollowsInherent(lower: Level, higher: Level, overall: Rating)
    requires LevelIndex(lower) <= LevelIndex(higher)
    ensures LevelIndex(ResidualRisk(lower, overall)) <= LevelIndex(ResidualRisk(higher, overall))
  {
  }

  datatype Judgment = Judgment(likelihood: Likelihood, consequence: Consequence, velocity: Velocity,
                               ratings: seq<Rating>)

  function Inherent(j: Judgment): Level { InherentRisk(j.likelihood, j.consequence, j.velocity) }

  function Residual(j: Judgment): Level { ResidualRisk(Inherent(j), Overall(j.ratings)) }

  lemma InherentMonotone(a: Judgment, b: Judgment)
    requires LikelihoodIndex(a.likelihood) <= LikelihoodIndex(b.likelihood)
    requires ConsequenceIndex(a.consequence) <= ConsequenceIndex(b.consequence)
    requires VelocityIndex(a.velocity) <= VelocityIndex(b.velocity)
    ensures LevelIndex(Inherent(a)) <= LevelIndex(Inherent(b))
  {
    assert LevelIndex(InherentRow(a.consequence)[LikelihoodIndex(a.likelihood)])
      <= LevelIndex(InherentRow(a.consequence)[LikelihoodIndex(b.likelihood)])
      <= LevelIndex(InherentRow(b.consequence)[LikelihoodIndex(b.likelihood)]);
    assert VelocityIndex(a.velocity) <= 4 && (a.velocity == Immediate ==> b.velocity == Immediate);
  }

  /** Residual risk never falls when likelihood, consequence or velocity rises. */
  lemma ResidualRisesWithThreat(a: Judgment, b: Judgment)
    requires LikelihoodIndex(a.likelihood) <= LikelihoodIndex(b.likelihood)
    requires ConsequenceIndex(a.consequence) <= ConsequenceIndex(b.consequence)
    requires VelocityIndex(a.velocity) <= VelocityIndex(b.velocity)
    requires multiset(a.ratings) == multiset(b.ratings)
    ensures LevelIndex(Residual(a)) <= LevelIndex(Residual(b))
  {
    hide Inherent, Overall, ResidualRisk;
    InherentMonotone(a, b);
    OverallIsOrderFree(a.ratings, b.ratings);
    ResidualFollowsInherent(Inherent(a), Inherent(b), Overall(a.ratings));
  }

  /** Residual risk never rises when one control's rating improves. */
  lemma ResidualFallsWithBetterControl(j: Judgment, i: nat, r: Rating)
    requires i < |j.ratings| && Score(j.ratings[i]) <= Score(r)
    ensures LevelIndex(Residual(j.(ratings := j.ratings[i := r]))) <= LevelIndex(Residual(j))
  {
    hide Inherent, InherentRisk, Overall, ResidualRisk, Mean, TotalScore;
    var better := j.ratings[i := r];
    TotalUpdate(j.ratings, i, r);
    ScaleUp(TotalScore(j.ratings) as real, TotalScore(better) as real, |better| as real);
    MeanOrder(j.ratings, better);
    OverallFollowsMean(j.ratings, better);
    ResidualFollowsOverall(Inherent(j), Overall(j.ratings), Overall(better));
    assert Inherent(j.(ratings := better)) == Inherent(j) by { SameThreat(j, better); }
  }

  lemma SameThreat(j: Judgment, ratings: seq<Rating>)
    ensures Inherent(j.(ratings := ratings)) == Inherent(j)
  {
  }

  /** Residual risk never rises when a control rated at or above the mean is added. */
  lemma ResidualFallsWithGoodControl(j: Judgment, r: Rating)
    requires j.ratings != [] ==> Mean(j.ratings) <= Score(r) as real
    ensures LevelIndex(Residual(j.(ratings := j.ratings + [r]))) <= LevelIndex(Residual(j))
  {
    hide Inherent, InherentRisk, ResidualRisk, Mean, TotalScore;
    var more := j.ratings + [r];
    SameThreat(j, more);
    if j.ratings == [] {
      ResidualFollowsOverall(Inherent(j), Uncontrolled, Overall(more));
    } else {
      hide Overall;
      TotalRemove(more, |j.ratings|);
      assert more[..|j.ratings|] + more[|j.ratings| + 1..] == j.ratings;
      var x, n, score := TotalScore(j.ratings) as real, |j.ratings| as real, Score(r) as real;
      MeanAtMost(j.ratings, score);
      OneMoreScore(x, n, score);
      assert TotalScore(more) as real == x + score && |more| as real == n + 1.0;
      MeanOrder(j.ratings, more);
      OverallFollowsMean(j.ratings, more);
      ResidualFollowsOverall(Inherent(j), Overall(j.ratings), Overall(more));
    }
  }

  lemma MeanAtMost(ratings: seq<Rating>, t: real)
    requires ratings != [] && Mean(ratings) <= t
    ensures TotalScore(ratings) as real <= t * |ratings| as real
  {
    hide TotalScore;
    DivideCompare(TotalScore(ratings) as real, |ratings| as real, t);
  }

  lemma OneMoreScore(x: real, n: real, score: real)
    requires x <= score * n
    ensures x * (n + 1.0) <= (x + score) * n
  {
    assert x * (n + 1.0) == x * n + x;
    assert (x + score) * n == x * n + score * n;
  }

  lemma ScaleUp(a: real, b: real, n: real)
    requires a <= b && n >= 0.0
    ensures a * n <= b * n
  {
  }

  /** Residual risk exceeds inherent risk exactly when the controls rate Uncontrolled below Extreme. */
  lemma ResidualAboveInherent(j: Judgment)
    ensures LevelIndex(Residual(j)) > LevelIndex(Inherent(j))
      <==> Overall(j.ratings) == Uncontrolled && Inherent(j) != Extreme
    ensures j.ratings != [] ==> (Overall(j.ratings) == Uncontrolled <==> Mean(j.ratings) < 0.5)
  {
    hide Inherent, Mean;
  }
}
