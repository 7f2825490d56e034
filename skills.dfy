/** Technical skills a resume mentions (`extractSkills`): every entry of a
    fixed taxonomy is looked for, case-insensitively and as a plain
    substring, under four spellings; each entry found is reported once, in
    taxonomy order. */
module SkillExtractor {
  import opened Strings

  const Programming: seq<string> := [
    "JavaScript", "Python", "Java", "C++", "C#", "PHP", "Ruby", "Go", "Rust", "Swift",
    "Kotlin", "Scala", "TypeScript", "R", "MATLAB", "SQL", "HTML", "CSS", "Perl"]

  const Frameworks: seq<string> := [
    "React", "Angular", "Vue.js", "Node.js", "Express", "Django", "Flask", "Spring",
    "Laravel", "Rails", "Bootstrap", "jQuery", "Svelte", "Next.js", "Nuxt.js"]

  const Databases: seq<string> := [
    "MySQL", "PostgreSQL", "MongoDB", "Redis", "Elasticsearch", "Oracle", "SQLite",
    "Cassandra", "DynamoDB", "Neo4j", "MariaDB"]

  const Cloud: seq<string> := [
    "AWS", "Azure", "GCP", "Docker", "Kubernetes", "Jenkins", "GitLab CI", "CircleCI",
    "Terraform", "Ansible", "Heroku", "Vercel", "Netlify"]

  const Tools: seq<string> := [
    "Git", "GitHub", "GitLab", "Jira", "Confluence", "Slack", "VS Code", "IntelliJ",
    "Eclipse", "Postman", "Figma", "Adobe Creative Suite"]

  const Methodologies: seq<string> := [
    "Agile", "Scrum", "Kanban", "DevOps", "CI/CD", "TDD", "Microservices", "REST",
    "GraphQL", "Machine Learning", "AI", "Data Science", "Blockchain"]

  /** All categories flattened, in declaration order. */
  const Taxonomy: seq<string> := Programming + Frameworks + Databases + Cloud + Tools + Methodologies

  predicate NotDot(c: char)
  {
    c != '.'
  }

  function HyphenToSpace(c: char): char
  {
    if c == '-' then ' ' else c
  }

  /** `s.replace(/-/g, " ")`. */
  function HyphensToSpaces(s: string): (t: string)
    ensures |t| == |s|
    ensures forall k | 0 <= k < |s| :: t[k] == HyphenToSpace(s[k])
    ensures '-' !in t
  {
    seq(|s|, k requires 0 <= k < |s| => HyphenToSpace(s[k]))
  }

  /** The four spellings a skill is looked for under: lower case, without
      dots, without white space, and with hyphens read as spaces. */
  function Variants(skill: string): (vs: seq<string>)
    ensures |vs| == 4 && vs[0] == Lower(skill)
  {
    var lower := Lower(skill);
    [lower, Filter(lower, NotDot), Filter(lower, NotSpace), HyphensToSpaces(lower)]
  }

  /** `skillVariations.some(v => textLower.includes(v))`. */
  predicate Detected(skill: string, lowerText: string)
  {
    var vs := Variants(skill);
    Contains(lowerText, vs[0]) || Contains(lowerText, vs[1])
    || Contains(lowerText, vs[2]) || Contains(lowerText, vs[3])
  }

  /** The entries of `skills` detected in `lowerText`, in order. */
  function DetectIn(skills: seq<string>, lowerText: string): seq<string>
  {
    if |skills| == 0 then []
    else
      var last := skills[|skills| - 1];
      DetectIn(skills[..|skills| - 1], lowerText) + (if Detected(last, lowerText) then [last] else [])
  }

  /** The skills `extractSkills` reports for `text`. */
  function SkillsOf(text: string): seq<string>
  {
    Dedup(DetectIn(Taxonomy, Lower(text)))
  }

  /** The loop of `extractSkills`: a pass over `skills` collecting those
      `lowerText` mentions, in order. */
  method CollectDetected(skills: seq<string>, lowerText: string) returns (found: seq<string>)
    ensures found == DetectIn(skills, lowerText)
  {
    found := [];
    for i := 0 to |skills|
      invariant found == DetectIn(skills[..i], lowerText)
    {
      var skill := skills[i];
      assert skills[..i + 1][..i] == skills[..i];
      if Detected(skill, lowerText) {
        found := found + [skill];
      }
    }
    assert skills[..|skills|] == skills;
  }

  /** `extractSkills`: the taxonomy entries the text mentions, each once. */
  method ExtractSkills(text: string) returns (skills: seq<string>)
    ensures skills == SkillsOf(text)
  {
    var textLower := Lower(text);
    var foundSkills := CollectDetected(Taxonomy, textLower);
    skills := Dedup(foundSkills);
  }

  lemma {:induction false} DetectInMembers(skills: seq<string>, lowerText: string)
    ensures forall x | x in DetectIn(skills, lowerText) :: x in skills && Detected(x, lowerText)
    ensures forall x | x in skills && Detected(x, lowerText) :: x in DetectIn(skills, lowerText)
  {
    if |skills| > 0 {
      var init := skills[..|skills| - 1];
      DetectInMembers(init, lowerText);
      assert skills == init + [skills[|skills| - 1]];
    }
  }

  lemma {:induction false} DetectInIsSubsequence(skills: seq<string>, lowerText: string)
    ensures IsSubsequence(DetectIn(skills, lowerText), skills)
  {
    if |skills| > 0 {
      var init := skills[..|skills| - 1];
      DetectInIsSubsequence(init, lowerText);
      var r := DetectIn(skills, lowerText);
      if Detected(skills[|skills| - 1], lowerText) {
        assert r[..|r| - 1] == DetectIn(init, lowerText);
      } else {
        assert r == DetectIn(init, lowerText);
      }
    }
  }

  /** A skill is reported exactly when it is in the taxonomy and one of its
      spellings occurs in the lower-cased text; no skill is reported twice,
      and the report follows the taxonomy's order. */
  lemma SkillsOfSpec(text: string)
    ensures forall x :: x in SkillsOf(text) <==> x in Taxonomy && Detected(x, Lower(text))
    ensures Distinct(SkillsOf(text))
    ensures IsSubsequence(SkillsOf(text), Taxonomy)
  {
    var found := DetectIn(Taxonomy, Lower(text));
    DetectInMembers(Taxonomy, Lower(text));
    DetectInIsSubsequence(Taxonomy, Lower(text));
    DedupSpec(found);
    DedupIsSubsequence(found);
    SubsequenceTransitive(SkillsOf(text), found, Taxonomy);
  }

  /** A skill detected in `a` is still detected once `b` is appended. */
  lemma DetectedExtends(skill: string, a: string, b: string)
    requires Detected(skill, Lower(a))
    ensures Detected(skill, Lower(a + b))
  {
    LowerSpec(a, b);
    var vs := Variants(skill);
    var k :| 0 <= k < 4 && Contains(Lower(a), vs[k]);
    ContainsExtend(Lower(a), Lower(b), vs[k]);
  }

  lemma DetectInGrows(skills: seq<string>, a: string, b: string)
    ensures forall x | x in DetectIn(skills, Lower(a)) :: x in DetectIn(skills, Lower(a + b))
  {
    DetectInMembers(skills, Lower(a));
    DetectInMembers(skills, Lower(a + b));
    forall x | x in DetectIn(skills, Lower(a)) ensures x in DetectIn(skills, Lower(a + b)) {
      DetectedExtends(x, a, b);
    }
  }

  /** More text never loses a skill: whatever is detected in `a` is still
      detected once `b` is appended. */
  lemma SkillsGrowWithText(a: string, b: string)
    ensures forall x | x in SkillsOf(a) :: x in SkillsOf(a + b)
  {
    DedupSpec(DetectIn(Taxonomy, Lower(a)));
    DedupSpec(DetectIn(Taxonomy, Lower(a + b)));
    DetectInGrows(Taxonomy, a, b);
  }

  /** A taxonomy entry whose lower-case spelling occurs in the lower-cased
      text is reported. */
  lemma LowerSpellingDetected(skill: string, text: string)
    requires skill in Taxonomy && Contains(Lower(text), Lower(skill))
    ensures skill in SkillsOf(text)
  {
    assert Variants(skill)[0] == Lower(skill);
    SkillsOfSpec(text);
  }

  /** Plain substring matching over-reports: any text holding the letter "r"
      in either case is credited with the language R. */
  lemma LetterRMeansR(text: string)
    requires Contains(Lower(text), "r")
    ensures "R" in SkillsOf(text)
  {
    assert Taxonomy[13] == "R";
    assert Lower("R") == "r";
    LowerSpellingDetected("R", text);
  }

  /** "node js", with a space, is not one of the spellings Node.js is looked
      for under (they are "node.js" and "nodejs"), so it does not credit Node.js. */
  lemma NodeWithSpaceMissed()
    ensures "Node.js" !in SkillsOf("node js")
  {
    NodeWithSpaceNotDetected();
    SkillsOfSpec("node js");
  }

  /** None of the spellings of Node.js occurs in "node js". */
  lemma NodeWithSpaceNotDetected()
    ensures !Detected("Node.js", Lower("node js"))
  {
    LowerNodeWithSpace();
    NodeJsVariants();
    NodeDotJsAbsent();
    NodeJsAbsent();
  }

  /** "node js" is already lower case. */
  lemma LowerNodeWithSpace()
    ensures Lower("node js") == "node js"
  {
  }

  /** "node js" differs from "node.js" at its fifth character. */
  lemma NodeDotJsAbsent()
    ensures !Contains("node js", "node.js")
  {
    assert "node js"[4] != "node.js"[4];
  }

  /** "nodejs" fits at two positions of "node js" and matches at neither. */
  lemma NodeJsAbsent()
    ensures !Contains("node js", "nodejs")
  {
    forall i | 0 <= i <= 1
      ensures !OccursAt("node js", "nodejs", i)
    {
      if i == 0 {
        assert "node js"[4] != "nodejs"[4];
      } else {
        assert "node js"[1] != "nodejs"[0];
      }
    }
  }

  /** The spellings Node.js is looked for under. */
  lemma NodeJsVariants()
    ensures Variants("Node.js") == ["node.js", "nodejs", "node.js", "node.js"]
  {
    var lower := "node.js";
    assert Lower("Node.js") == lower;
    NodeJsWithoutDot();
    FilterAll(lower, NotSpace);
    assert HyphensToSpaces(lower) == lower;
  }

  /** Dropping the dot from "node.js". */
  lemma NodeJsWithoutDot()
    ensures Filter("node.js", NotDot) == "nodejs"
  {
    assert "node.js" == "node" + "." + "js";
    FilterAppend("node" + ".", "js", NotDot);
    FilterAppend("node", ".", NotDot);
    FilterAll("node", NotDot);
    FilterAll("js", NotDot);
    FilterSnoc([], '.', NotDot);
    assert [] + ['.'] == ".";
  }

  /** A resume mentioning JavaScript is also credited with Java. */
  lemma JavaScriptMeansJava(text: string)
    requires Contains(Lower(text), "javascript")
    ensures "JavaScript" in SkillsOf(text) && "Java" in SkillsOf(text)
  {
    assert Taxonomy[0] == "JavaScript" && Taxonomy[2] == "Java";
    LowerJavaScript();
    ContainsPrefix(Lower(text), "javascript", 4);
    assert "javascript"[..4] == "java";
    LowerSpellingDetected("JavaScript", text);
    LowerSpellingDetected("Java", text);
  }

  lemma LowerJavaScript()
    ensures Lower("JavaScript") == "javascript" && Lower("Java") == "java"
  {
    assert Lower("Java") == "java";
    assert Lower("JavaScript") == Lower("Java") + Lower("Script");
    assert Lower("Script") == "script";
  }
}
