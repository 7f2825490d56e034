/** Scoring one resume against a job description (`scoreResume`): four
    sub-scores from 0 to 100, a weighted overall score, strengths and
    weaknesses chosen by fixed thresholds, and a five-band recommendation.
    The job description and the criteria weights are parameters, as are the
    integers captured by the experience phrase patterns and the current year. */
module ScoringEngine {
  import opened Strings
  import opened SkillExtractor
  import opened ExperienceEstimator
  import opened EducationClassifier
  import opened KeywordMatcher

  /** Criteria weights in hundredths: the settings sliders run from 0 to 1 in
      steps of 0.05, so 40 stands for 0.4. */
  datatype Weights = Weights(skills: nat, experience: nat, education: nat, keywords: nat)
  {
    function Total(): nat
    {
      skills + experience + education + keywords
    }

    /** Reachable with the sliders: each weight a multiple of 0.05 in [0, 1]. */
    predicate OnSlider()
    {
      && skills <= 100 && skills % 5 == 0
      && experience <= 100 && experience % 5 == 0
      && education <= 100 && education % 5 == 0
      && keywords <= 100 && keywords % 5 == 0
    }
  }

  /** 0.4 skills, 0.3 experience, 0.2 education, 0.1 keywords. */
  const DefaultWeights: Weights := Weights(40, 30, 20, 10)

  const JobDescriptionRequired: string := "Job description is required for scoring"

  /** The strengths and weaknesses `scoreResume` can report. */
  datatype Insight =
    | StrongSkills | ExcellentExperience | AdvancedEducation | GoodAlignment
    | LimitedSkills | NeedsExperience | WeakEducation | LimitedAlignment
  {
    function Text(): string
    {
      match this
      case StrongSkills => "Strong technical skills portfolio"
      case ExcellentExperience => "Excellent experience level"
      case AdvancedEducation => "Advanced educational background"
      case GoodAlignment => "Good alignment with job requirements"
      case LimitedSkills => "Limited technical skills mentioned"
      case NeedsExperience => "Could benefit from more experience"
      case WeakEducation => "Educational background could be stronger"
      case LimitedAlignment => "Limited alignment with job description"
    }
  }

  /** The result record of `scoreResume`. */
  datatype Analysis = Analysis(
    overallScore: int,
    skillsMatch: int,
    experienceMatch: int,
    educationMatch: int,
    keywordMatch: int,
    strengths: seq<Insight>,
    weaknesses: seq<Insight>,
    recommendation: Tier,
    detectedSkills: seq<string>,
    experienceYears: int,
    educationLevel: Level)

  /** The five recommendation bands, best first. */
  datatype Tier = Excellent | Strong | Good | Average | Below
  {
    function Text(): string
    {
      match this
      case Excellent => "Excellent candidate - highly recommended"
      case Strong => "Strong candidate - recommend interview"
      case Good => "Good candidate - worth considering"
      case Average => "Average candidate - may need additional screening"
      case Below => "Below requirements - consider only if desperate"
    }

    function Rank(): nat
    {
      match this
      case Excellent => 0
      case Strong => 1
      case Good => 2
      case Average => 3
      case Below => 4
    }
  }

  /** What `scoreResume` measures in a resume before scoring it. */
  datatype Measures = Measures(skills: seq<string>, experienceYears: int, education: Education, keywordMatch: real)

  /** The four sub-scores, the keyword one not yet rounded. */
  datatype SubScores = SubScores(skills: int, experience: int, education: int, keywords: real)

  /** Eight points per detected skill, at most 100. */
  function SkillsScore(skillCount: nat): int
  {
    Min(skillCount * 8, 100)
  }

  /** The experience step table. */
  function ExperienceScore(years: int): int
  {
    if years >= 10 then 100
    else if years >= 7 then 90
    else if years >= 5 then 80
    else if years >= 3 then 70
    else if years >= 1 then 50
    else 20
  }

  /** The education table. */
  function EducationScore(level: Level): int
  {
    match level
    case Phd => 100
    case Masters => 85
    case Bachelors => 70
    case Associates => 50
    case Certificate => 40
    case NoEducation => 20
  }

  /** `Math.min(keywordMatch, 100)`. */
  function KeywordScore(keywordMatch: real): real
  {
    if keywordMatch <= 100.0 then keywordMatch else 100.0
  }

  /** `Math.round`: halves round up. */
  function Round(x: real): int
  {
    (x + 0.5).Floor
  }

  /** One sub-score times its weight, the weight read as hundredths. */
  function Weighted(score: real, weight: nat): real
  {
    score * (weight as real) / 100.0
  }

  /** The weighted sum of the four sub-scores. */
  function WeightedSum(s: SubScores, w: Weights): real
  {
    Weighted(s.skills as real, w.skills)
    + Weighted(s.experience as real, w.experience)
    + Weighted(s.education as real, w.education)
    + Weighted(s.keywords, w.keywords)
  }

  /** The overall score: the weighted sum, rounded and not clamped. */
  function Overall(s: SubScores, w: Weights): int
  {
    Round(WeightedSum(s, w))
  }

  /** The rule behind each strength and each weakness. */
  predicate Applies(i: Insight, s: SubScores, hasAdvanced: bool)
  {
    match i
    case StrongSkills => s.skills >= 70
    case ExcellentExperience => s.experience >= 80
    case AdvancedEducation => hasAdvanced
    case GoodAlignment => s.keywords >= 60.0
    case LimitedSkills => s.skills < 40
    case NeedsExperience => s.experience < 50
    case WeakEducation => s.education < 50
    case LimitedAlignment => s.keywords < 40.0
  }

  /** The strength rules and the weakness rules, in the order they are tried. */
  const StrengthRules: seq<Insight> := [StrongSkills, ExcellentExperience, AdvancedEducation, GoodAlignment]
  const WeaknessRules: seq<Insight> := [LimitedSkills, NeedsExperience, WeakEducation, LimitedAlignment]

  /** The rule test for given sub-scores and degree. */
  function Rule(s: SubScores, hasAdvanced: bool): Insight -> bool
  {
    i => Applies(i, s, hasAdvanced)
  }

  /** The insights of `rules` whose rule holds, in rule order. */
  function Select(rules: seq<Insight>, s: SubScores, hasAdvanced: bool): seq<Insight>
  {
    Filter(rules, Rule(s, hasAdvanced))
  }

  /** The first band whose threshold the overall score meets. */
  function TierOf(overall: int): Tier
  {
    if overall >= 85 then Excellent
    else if overall >= 75 then Strong
    else if overall >= 65 then Good
    else if overall >= 50 then Average
    else Below
  }

  /** The measurements of a resume against a job description. */
  function Measure(resumeText: string, jobDescription: string, claims: seq<int>, currentYear: int): Measures
  {
    Measures(
      SkillsOf(resumeText),
      ExperienceOf(resumeText, claims, currentYear),
      EducationOf(resumeText),
      KeywordMatch(resumeText, jobDescription))
  }

  function SubScoresOf(m: Measures): SubScores
  {
    SubScores(
      SkillsScore(|m.skills|),
      ExperienceScore(m.experienceYears),
      EducationScore(m.education.level),
      KeywordScore(m.keywordMatch))
  }

  /** The analysis record built from the measurements. The three integer
      sub-scores are reported as they are, rounding an integer being the
      identity (`RoundInt`). */
  function Assess(m: Measures, w: Weights): Analysis
  {
    var s := SubScoresOf(m);
    var overall := Overall(s, w);
    Analysis(
      overall, s.skills, s.experience, s.education, Round(s.keywords),
      Select(StrengthRules, s, m.education.hasAdvanced),
      Select(WeaknessRules, s, m.education.hasAdvanced),
      TierOf(overall),
      m.skills, m.experienceYears, m.education.level)
  }

  /** `scoreResume`: an error for a blank job description, the analysis otherwise. */
  function Score(resumeText: string, jobDescription: string, w: Weights, claims: seq<int>, currentYear: int): Result<Analysis>
  {
    if Trim(jobDescription) == "" then Err(JobDescriptionRequired)
    else Ok(Assess(Measure(resumeText, jobDescription, claims, currentYear), w))
  }

  /** Filtering a list of four rules, rule by rule. */
  lemma FilterFour(a: Insight, b: Insight, c: Insight, d: Insight, p: Insight -> bool)
    ensures Filter([a, b, c, d], p)
      == (if p(a) then [a] else []) + (if p(b) then [b] else [])
      + (if p(c) then [c] else []) + (if p(d) then [d] else [])
  {
    FilterSnoc([], a, p);
    assert [] + [a] == [a];
    FilterSnoc([a], b, p);
    assert [a] + [b] == [a, b];
    FilterSnoc([a, b], c, p);
    assert [a, b] + [c] == [a, b, c];
    FilterSnoc([a, b, c], d, p);
    assert [a, b, c] + [d] == [a, b, c, d];
  }

  /** The strength rules of `scoreResume`, each appending its text. */
  method CollectStrengths(s: SubScores, hasAdvanced: bool) returns (strengths: seq<Insight>)
    ensures strengths == Select(StrengthRules, s, hasAdvanced)
  {
    ghost var p := Rule(s, hasAdvanced);
    FilterFour(StrongSkills, ExcellentExperience, AdvancedEducation, GoodAlignment, p);
    assert p(StrongSkills) == (s.skills >= 70);
    assert p(ExcellentExperience) == (s.experience >= 80);
    assert p(AdvancedEducation) == hasAdvanced;
    assert p(GoodAlignment) == (s.keywords >= 60.0);
    strengths := [];
    if s.skills >= 70 {
      strengths := strengths + [StrongSkills];
    }
    if s.experience >= 80 {
      strengths := strengths + [ExcellentExperience];
    }
    if hasAdvanced {
      strengths := strengths + [AdvancedEducation];
    }
    if s.keywords >= 60.0 {
      strengths := strengths + [GoodAlignment];
    }
  }

  /** The weakness rules of `scoreResume`, each appending its text; none of
      them looks at the degree. */
  method CollectWeaknesses(s: SubScores, ghost hasAdvanced: bool) returns (weaknesses: seq<Insight>)
    ensures weaknesses == Select(WeaknessRules, s, hasAdvanced)
  {
    ghost var p := Rule(s, hasAdvanced);
    FilterFour(LimitedSkills, NeedsExperience, WeakEducation, LimitedAlignment, p);
    assert p(LimitedSkills) == (s.skills < 40);
    assert p(NeedsExperience) == (s.experience < 50);
    assert p(WeakEducation) == (s.education < 50);
    assert p(LimitedAlignment) == (s.keywords < 40.0);
    weaknesses := [];
    if s.skills < 40 {
      weaknesses := weaknesses + [LimitedSkills];
    }
    if s.experience < 50 {
      weaknesses := weaknesses + [NeedsExperience];
    }
    if s.education < 50 {
      weaknesses := weaknesses + [WeakEducation];
    }
    if s.keywords < 40.0 {
      weaknesses := weaknesses + [LimitedAlignment];
    }
  }

  /** The sub-scores of `scoreResume`: the skill count capped, the
      experience step table as an if-chain, the education table and the
      capped keyword match. */
  method ComputeSubScores(m: Measures) returns (s: SubScores)
    ensures s == SubScoresOf(m)
  {
    var skillsScore := Min(|m.skills| * 8, 100);

    var experienceScore := 0;
    if m.experienceYears >= 10 {
      experienceScore := 100;
    } else if m.experienceYears >= 7 {
      experienceScore := 90;
    } else if m.experienceYears >= 5 {
      experienceScore := 80;
    } else if m.experienceYears >= 3 {
      experienceScore := 70;
    } else if m.experienceYears >= 1 {
      experienceScore := 50;
    } else {
      experienceScore := 20;
    }

    var educationScore := EducationScore(m.education.level);
    var keywordScore := if m.keywordMatch <= 100.0 then m.keywordMatch else 100.0;
    s := SubScores(skillsScore, experienceScore, educationScore, keywordScore);
  }

  /** `scoreResume`, step by step. */
  method ScoreResume(resumeText: string, jobDescription: string, w: Weights, claims: seq<int>, currentYear: int)
    returns (r: Result<Analysis>)
    ensures r == Score(resumeText, jobDescription, w, claims, currentYear)
  {
    if Trim(jobDescription) == "" {
      return Err(JobDescriptionRequired);
    }
    var skills := ExtractSkills(resumeText);
    var experienceYears := ExtractExperienceYears(resumeText, claims, currentYear);
    var education := AnalyzeEducation(resumeText);
    var keywordMatch := KeywordMatch(resumeText, jobDescription);
    assert Measures(skills, experienceYears, education, keywordMatch) == Measure(resumeText, jobDescription, claims, currentYear);
    var m := Measures(skills, experienceYears, education, keywordMatch);
    var sub := ComputeSubScores(m);
    var overallScore := Round(WeightedSum(sub, w));

    var strengths := CollectStrengths(sub, education.hasAdvanced);
    var weaknesses := CollectWeaknesses(sub, education.hasAdvanced);

    var recommendation := TierOf(overallScore);
    RoundInt(sub.skills);
    RoundInt(sub.experience);
    RoundInt(sub.education);
    r := Ok(Analysis(
      overallScore, Round(sub.skills as real), Round(sub.experience as real),
      Round(sub.education as real), Round(sub.keywords),
      strengths, weaknesses, recommendation,
      skills, experienceYears, education.level));
  }

  /** Scoring fails exactly when the job description is empty or white space
      only, and then with the fixed message. */
  lemma ScoreFailsIffBlankJob(resumeText: string, jobDescription: string, w: Weights, claims: seq<int>, currentYear: int)
    ensures var r := Score(resumeText, jobDescription, w, claims, currentYear);
      (r.Err? <==> forall k | 0 <= k < |jobDescription| :: IsSpace(jobDescription[k]))
      && (r.Err? ==> r.error == JobDescriptionRequired)
  {
    TrimEmptyIffBlank(jobDescription);
  }

  /** Rounding an integer gives it back. */
  lemma RoundInt(n: int)
    ensures Round(n as real) == n
  {
  }

  /** Rounding keeps the order of its arguments. */
  lemma RoundMonotone(x: real, y: real)
    requires x <= y
    ensures Round(x) <= Round(y)
  {
  }

  /** A weighted score from 0 to 100 lies between 0 and its weight, and
      grows with the score. */
  lemma WeightedBounds(score: real, other: real, weight: nat)
    requires 0.0 <= score <= other
    ensures 0.0 <= Weighted(score, weight) <= Weighted(other, weight)
    ensures other <= 100.0 ==> Weighted(other, weight) <= weight as real
  {
    assert score * (weight as real) <= other * (weight as real);
    assert other <= 100.0 ==> other * (weight as real) <= 100.0 * (weight as real);
  }

  predicate InRange(s: SubScores)
  {
    0 <= s.skills <= 100 && 0 <= s.experience <= 100 && 0 <= s.education <= 100 && 0.0 <= s.keywords <= 100.0
  }

  /** Every sub-score lies in [0, 100] once the keyword match is not negative. */
  lemma SubScoresInRange(m: Measures)
    requires 0.0 <= m.keywordMatch
    ensures InRange(SubScoresOf(m))
  {
  }

  /** The overall score of sub-scores from 0 to 100 lies between 0 and the
      total weight, so in [0, 100] whenever the weights add up to at most 1. */
  lemma OverallBounds(s: SubScores, w: Weights)
    requires InRange(s)
    ensures 0 <= Overall(s, w) <= w.Total()
    ensures w.Total() <= 100 ==> Overall(s, w) <= 100
  {
    WeightedBounds(s.skills as real, s.skills as real, w.skills);
    WeightedBounds(s.experience as real, s.experience as real, w.experience);
    WeightedBounds(s.education as real, s.education as real, w.education);
    WeightedBounds(s.keywords, s.keywords, w.keywords);
    RoundMonotone(0.0, WeightedSum(s, w));
    RoundMonotone(WeightedSum(s, w), w.Total() as real);
    RoundInt(0);
    RoundInt(w.Total());
  }

  /** Scoring against a job description that is not blank succeeds; every
      sub-score of the analysis lies in [0, 100], the overall score in
      [0, total weight], and so in [0, 100] whenever the weights add up to at
      most 1; the recommendation is the band of the overall score. */
  lemma ScoreRanges(resumeText: string, jobDescription: string, w: Weights, claims: seq<int>, currentYear: int)
    requires Trim(jobDescription) != ""
    ensures Score(resumeText, jobDescription, w, claims, currentYear).Ok?
    ensures var a := Score(resumeText, jobDescription, w, claims, currentYear).value;
      && 0 <= a.skillsMatch <= 100
      && 0 <= a.experienceMatch <= 100
      && 0 <= a.educationMatch <= 100
      && 0 <= a.keywordMatch <= 100
      && 0 <= a.overallScore <= w.Total()
      && (w.Total() <= 100 ==> a.overallScore <= 100)
      && a.recommendation == TierOf(a.overallScore)
  {
    var m := Measure(resumeText, jobDescription, claims, currentYear);
    var s := SubScoresOf(m);
    SubScoresInRange(m);
    OverallBounds(s, w);
    RoundMonotone(0.0, s.keywords);
    RoundMonotone(s.keywords, 100.0);
    RoundInt(0);
    RoundInt(100);
  }

  /** With the default weights and a job description that is not blank,
      scoring succeeds and the overall score never exceeds 100. */
  lemma DefaultWeightsBounded(resumeText: string, jobDescription: string, claims: seq<int>, currentYear: int)
    requires Trim(jobDescription) != ""
    ensures Score(resumeText, jobDescription, DefaultWeights, claims, currentYear).Ok?
    ensures 0 <= Score(resumeText, jobDescription, DefaultWeights, claims, currentYear).value.overallScore <= 100
  {
    ScoreRanges(resumeText, jobDescription, DefaultWeights, claims, currentYear);
  }

  /** The overall score is not clamped: with every slider at 1 a perfect
      resume scores 400. */
  lemma OverallCanExceed100()
    ensures Weights(100, 100, 100, 100).OnSlider()
    ensures Overall(SubScores(100, 100, 100, 100.0), Weights(100, 100, 100, 100)) == 400
  {
    RoundInt(400);
  }

  /** Raising any sub-score never lowers the overall score. */
  lemma OverallMonotone(s1: SubScores, s2: SubScores, w: Weights)
    requires 0 <= s1.skills <= s2.skills && 0 <= s1.experience <= s2.experience
    requires 0 <= s1.education <= s2.education && 0.0 <= s1.keywords <= s2.keywords
    ensures Overall(s1, w) <= Overall(s2, w)
  {
    WeightedBounds(s1.skills as real, s2.skills as real, w.skills);
    WeightedBounds(s1.experience as real, s2.experience as real, w.experience);
    WeightedBounds(s1.education as real, s2.education as real, w.education);
    WeightedBounds(s1.keywords, s2.keywords, w.keywords);
    RoundMonotone(WeightedSum(s1, w), WeightedSum(s2, w));
  }

  /** More detected skills, more years and a more advanced degree never
      score lower; each table stays within [0, 100]. */
  lemma SubScoresMonotone(n1: nat, n2: nat, y1: int, y2: int, l1: Level, l2: Level)
    requires n1 <= n2 && y1 <= y2 && l2.Rank() <= l1.Rank()
    ensures 0 <= SkillsScore(n1) <= SkillsScore(n2) <= 100
    ensures 20 <= ExperienceScore(y1) <= ExperienceScore(y2) <= 100
    ensures 20 <= EducationScore(l1) <= EducationScore(l2) <= 100
  {
  }

  /** The recommendation bands: each is chosen exactly on its score range,
      and a higher score never gets a worse band. */
  lemma TierBands(overall: int, other: int)
    ensures TierOf(overall) == Excellent <==> overall >= 85
    ensures TierOf(overall) == Strong <==> 75 <= overall < 85
    ensures TierOf(overall) == Good <==> 65 <= overall < 75
    ensures TierOf(overall) == Average <==> 50 <= overall < 65
    ensures TierOf(overall) == Below <==> overall < 50
    ensures overall <= other ==> TierOf(other).Rank() <= TierOf(overall).Rank()
  {
  }

  /** Different bands read differently, so the text identifies the band. */
  lemma TierTextInjective(t1: Tier, t2: Tier)
    requires t1.Text() == t2.Text()
    ensures t1 == t2
  {
    assert t1.Text()[0] == t2.Text()[0];
  }

  /** The insights selected from a list of rules without repetitions: each
      appears exactly when it is in the list and its rule holds, at most
      once, in list order. */
  lemma SelectSpec(rules: seq<Insight>, s: SubScores, hasAdvanced: bool)
    requires Distinct(rules)
    ensures var r := Select(rules, s, hasAdvanced);
      && IsSubsequence(r, rules) && Distinct(r) && |r| <= |rules|
      && forall i :: i in r <==> i in rules && Applies(i, s, hasAdvanced)
  {
    var p := Rule(s, hasAdvanced);
    var r := Filter(rules, p);
    FilterIsSubsequence(rules, p);
    SubsequenceMembers(r, rules);
    SubsequenceDistinct(r, rules);
    FilterSound(rules, p);
    forall i | i in rules && Applies(i, s, hasAdvanced) ensures i in r {
      FilterKeeps(rules, p, i);
    }
  }

  /** Each strength appears exactly when its rule holds, at most once, in
      rule order, so there are at most four. */
  lemma StrengthsSpec(s: SubScores, hasAdvanced: bool)
    ensures var r := Select(StrengthRules, s, hasAdvanced);
      && IsSubsequence(r, StrengthRules) && Distinct(r) && |r| <= 4
      && (StrongSkills in r <==> s.skills >= 70)
      && (ExcellentExperience in r <==> s.experience >= 80)
      && (AdvancedEducation in r <==> hasAdvanced)
      && (GoodAlignment in r <==> s.keywords >= 60.0)
      && (forall i | i in r :: i in StrengthRules)
  {
    assert Distinct(StrengthRules);
    SelectSpec(StrengthRules, s, hasAdvanced);
  }

  /** Each weakness appears exactly when its rule holds, at most once, in
      rule order, so there are at most four. */
  lemma WeaknessesSpec(s: SubScores, hasAdvanced: bool)
    ensures var r := Select(WeaknessRules, s, hasAdvanced);
      && IsSubsequence(r, WeaknessRules) && Distinct(r) && |r| <= 4
      && (LimitedSkills in r <==> s.skills < 40)
      && (NeedsExperience in r <==> s.experience < 50)
      && (WeakEducation in r <==> s.education < 50)
      && (LimitedAlignment in r <==> s.keywords < 40.0)
      && (forall i | i in r :: i in WeaknessRules)
  {
    assert Distinct(WeaknessRules);
    SelectSpec(WeaknessRules, s, hasAdvanced);
  }

  /** A resume credited with an advanced degree is never told its education
      is weak, and no criterion is both a strength and a weakness. */
  lemma NoContradictoryInsights(resumeText: string, jobDescription: string, w: Weights, claims: seq<int>, currentYear: int)
    requires Trim(jobDescription) != ""
    ensures var a := Score(resumeText, jobDescription, w, claims, currentYear).value;
      && (AdvancedEducation in a.strengths ==> WeakEducation !in a.weaknesses)
      && (StrongSkills in a.strengths ==> LimitedSkills !in a.weaknesses)
      && (ExcellentExperience in a.strengths ==> NeedsExperience !in a.weaknesses)
      && (GoodAlignment in a.strengths ==> LimitedAlignment !in a.weaknesses)
  {
    var m := Measure(resumeText, jobDescription, claims, currentYear);
    StrengthsSpec(SubScoresOf(m), m.education.hasAdvanced);
    WeaknessesSpec(SubScoresOf(m), m.education.hasAdvanced);
    EducationIsHighestMentioned(resumeText);
  }
}
