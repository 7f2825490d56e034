/** Highest education level a resume mentions (`analyzeEducation`): each
    level has a list of keywords, looked for as plain substrings of the
    lower-cased text, and the most advanced level with a hit wins. */
module EducationClassifier {
  import opened Strings

  datatype Level = Phd | Masters | Bachelors | Associates | Certificate | NoEducation
  {
    /** The level's name in the analysis record. */
    function Name(): string
    {
      match this
      case Phd => "phd"
      case Masters => "masters"
      case Bachelors => "bachelors"
      case Associates => "associates"
      case Certificate => "certificate"
      case NoEducation => "none"
    }

    /** Position in the priority order; smaller is more advanced. */
    function Rank(): nat
    {
      match this
      case Phd => 0
      case Masters => 1
      case Bachelors => 2
      case Associates => 3
      case Certificate => 4
      case NoEducation => 5
    }
  }

  datatype Education = Education(level: Level, hasAdvanced: bool)

  /** Different levels have different names, so the name in the analysis record identifies the level. */
  lemma LevelNameInjective(a: Level, b: Level)
    requires a.Name() == b.Name()
    ensures a == b
  {
    assert a.Name()[0] == b.Name()[0];
  }

  /** The keyword lists, in declaration order. */
  const Groups: seq<(Level, seq<string>)> := [
    (Phd, ["ph.d", "phd", "doctorate", "doctoral", "doctor of philosophy"]),
    (Masters, ["master", "mba", "ms", "m.s.", "ma", "m.a.", "msc", "m.sc.", "med", "m.ed."]),
    (Bachelors, ["bachelor", "bs", "b.s.", "ba", "b.a.", "bsc", "b.sc.", "undergraduate", "beng", "b.eng."]),
    (Associates, ["associate", "aa", "as", "a.s.", "aas"]),
    (Certificate, ["certificate", "certification", "diploma", "cert."])
  ]

  /** The order in which found levels are tried. */
  const Priority: seq<Level> := [Phd, Masters, Bachelors, Associates, Certificate]

  /** `keywords.some(keyword => textLower.includes(keyword))`. */
  predicate AnyKeyword(keywords: seq<string>, lowerText: string)
  {
    exists k | 0 <= k < |keywords| :: Contains(lowerText, keywords[k])
  }

  /** The levels of `groups` with a keyword hit, in order. */
  function FoundIn(groups: seq<(Level, seq<string>)>, lowerText: string): seq<Level>
  {
    if |groups| == 0 then []
    else
      var last := groups[|groups| - 1];
      FoundIn(groups[..|groups| - 1], lowerText) + (if AnyKeyword(last.1, lowerText) then [last.0] else [])
  }

  /** The first level of `priority` that was found, or `NoEducation`. */
  function FirstFound(priority: seq<Level>, found: seq<Level>): Level
  {
    if |priority| == 0 then NoEducation
    else if priority[0] in found then priority[0]
    else FirstFound(priority[1..], found)
  }

  predicate IsAdvanced(l: Level)
  {
    l == Phd || l == Masters
  }

  /** The education `analyzeEducation` reports for `text`. */
  function EducationOf(text: string): Education
  {
    var level := FirstFound(Priority, FoundIn(Groups, Lower(text)));
    Education(level, IsAdvanced(level))
  }

  /** `analyzeEducation`: collect the levels with a keyword hit, then return
      the first of them in priority order. */
  method AnalyzeEducation(text: string) returns (e: Education)
    ensures e == EducationOf(text)
  {
    var textLower := Lower(text);
    var foundLevels: seq<Level> := [];
    for g := 0 to |Groups|
      invariant foundLevels == FoundIn(Groups[..g], textLower)
    {
      var (level, keywords) := Groups[g];
      assert Groups[..g + 1][..g] == Groups[..g];
      if AnyKeyword(keywords, textLower) {
        foundLevels := foundLevels + [level];
      }
    }
    assert Groups[..|Groups|] == Groups;
    for p := 0 to |Priority|
      invariant FirstFound(Priority, foundLevels) == FirstFound(Priority[p..], foundLevels)
    {
      var level := Priority[p];
      assert Priority[p..][1..] == Priority[p + 1..];
      if level in foundLevels {
        return Education(level, level == Phd || level == Masters);
      }
    }
    return Education(NoEducation, false);
  }

  /** The keywords of a level, as listed. */
  function KeywordsOf(l: Level): seq<string>
  {
    match l
    case Phd => Groups[0].1
    case Masters => Groups[1].1
    case Bachelors => Groups[2].1
    case Associates => Groups[3].1
    case Certificate => Groups[4].1
    case NoEducation => []
  }

  /** The text mentions a keyword of level `l`. */
  predicate Mentions(lowerText: string, l: Level)
  {
    AnyKeyword(KeywordsOf(l), lowerText)
  }

  lemma {:induction false} FoundInMembers(groups: seq<(Level, seq<string>)>, lowerText: string)
    ensures forall l :: l in FoundIn(groups, lowerText) <==>
      exists k | 0 <= k < |groups| :: groups[k].0 == l && AnyKeyword(groups[k].1, lowerText)
  {
    if |groups| > 0 {
      var init := groups[..|groups| - 1];
      FoundInMembers(init, lowerText);
      assert forall k | 0 <= k < |init| :: init[k] == groups[k];
    }
  }

  /** A level is found exactly when the text mentions one of its keywords. */
  lemma FoundLevels(lowerText: string)
    ensures forall l :: l in FoundIn(Groups, lowerText) <==> l != NoEducation && Mentions(lowerText, l)
  {
    FoundInMembers(Groups, lowerText);
    forall l | l != NoEducation
      ensures (exists k | 0 <= k < |Groups| :: Groups[k].0 == l && AnyKeyword(Groups[k].1, lowerText))
        <==> Mentions(lowerText, l)
    {
      var r := l.Rank();
      assert Groups[r].0 == l && Groups[r].1 == KeywordsOf(l);
    }
  }

  /** The most advanced level the text mentions, written out level by level. */
  function HighestMentioned(lowerText: string): Level
  {
    if Mentions(lowerText, Phd) then Phd
    else if Mentions(lowerText, Masters) then Masters
    else if Mentions(lowerText, Bachelors) then Bachelors
    else if Mentions(lowerText, Associates) then Associates
    else if Mentions(lowerText, Certificate) then Certificate
    else NoEducation
  }

  /** The priority scan over a list of found levels, written out. */
  lemma FirstFoundCascade(found: seq<Level>)
    ensures FirstFound(Priority, found) ==
      if Phd in found then Phd
      else if Masters in found then Masters
      else if Bachelors in found then Bachelors
      else if Associates in found then Associates
      else if Certificate in found then Certificate
      else NoEducation
  {
    var p1 := [Masters, Bachelors, Associates, Certificate];
    var p2 := [Bachelors, Associates, Certificate];
    var p3 := [Associates, Certificate];
    var p4 := [Certificate];
    assert Priority[1..] == p1 && p1[1..] == p2 && p2[1..] == p3 && p3[1..] == p4 && p4[1..] == [];
    assert FirstFound(p4, found) == if Certificate in found then Certificate else NoEducation;
    assert FirstFound(p3, found) == if Associates in found then Associates else FirstFound(p4, found);
    assert FirstFound(p2, found) == if Bachelors in found then Bachelors else FirstFound(p3, found);
    assert FirstFound(p1, found) == if Masters in found then Masters else FirstFound(p2, found);
    assert FirstFound(Priority, found) == if Phd in found then Phd else FirstFound(p1, found);
  }

  /** Collecting the found levels and scanning them in priority order gives
      the most advanced level mentioned. */
  lemma EducationIsHighestMentioned(text: string)
    ensures EducationOf(text).level == HighestMentioned(Lower(text))
    ensures EducationOf(text).hasAdvanced <==> EducationOf(text).level in {Phd, Masters}
  {
    var t := Lower(text);
    var found := FoundIn(Groups, t);
    FoundLevels(t);
    FirstFoundCascade(found);
    assert (Phd in found) == Mentions(t, Phd);
    assert (Masters in found) == Mentions(t, Masters);
    assert (Bachelors in found) == Mentions(t, Bachelors);
    assert (Associates in found) == Mentions(t, Associates);
    assert (Certificate in found) == Mentions(t, Certificate);
  }

  /** The reported level is one the text mentions, and no more advanced
      level is mentioned; it is `NoEducation` exactly when no level is. */
  lemma HighestMentionedSpec(lowerText: string)
    ensures var h := HighestMentioned(lowerText);
      && (h != NoEducation ==> Mentions(lowerText, h))
      && (forall l: Level | l.Rank() < h.Rank() :: !Mentions(lowerText, l))
      && (h == NoEducation <==> forall l: Level | l != NoEducation :: !Mentions(lowerText, l))
  {
    var h := HighestMentioned(lowerText);
    forall l: Level | l.Rank() < h.Rank() ensures !Mentions(lowerText, l) {
      match l
      case Phd =>
      case Masters =>
      case Bachelors =>
      case Associates =>
      case Certificate =>
      case NoEducation =>
    }
    if h == NoEducation {
      forall l: Level | l != NoEducation ensures !Mentions(lowerText, l) {
        assert l.Rank() < h.Rank();
      }
    }
  }

  /** Plain substring matching over-reports: any text containing "ma" (as in
      "email" or "management") is graded at least a master's degree. */
  lemma LettersMaMeanAdvanced(text: string)
    requires Contains(Lower(text), "ma")
    ensures EducationOf(text).hasAdvanced
  {
    assert KeywordsOf(Masters)[4] == "ma";
    assert Mentions(Lower(text), Masters);
    EducationIsHighestMentioned(text);
  }
}
