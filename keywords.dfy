/** Overlap between the vocabulary of a job description and that of a
    resume (`calculateKeywordMatch` and its helper `extractKeywords`). */
module KeywordMatcher {
  import opened Strings

  /** Words that never count as keywords. */
  const StopWords: set<string> := {
    "the", "and", "or", "but", "in", "on", "at", "to", "for", "of", "with", "by",
    "a", "an", "is", "are", "was", "were", "be", "been", "have", "has", "had",
    "will", "would", "could", "should", "may", "might", "can", "this", "that",
    "these", "those", "i", "you", "he", "she", "it", "we", "they"}

  /** `replace(/[^\w\s]/g, " ")` on one character. */
  function ScrubChar(c: char): char
  {
    if IsWordChar(c) || IsSpace(c) then c else ' '
  }

  function Scrub(s: string): (t: string)
    ensures |t| == |s|
    ensures forall k | 0 <= k < |s| :: t[k] == ScrubChar(s[k])
    ensures forall k | 0 <= k < |t| :: IsWordChar(t[k]) || IsSpace(t[k])
  {
    seq(|s|, k requires 0 <= k < |s| => ScrubChar(s[k]))
  }

  /** `word.length > 2 && !stopWords.has(word)`. */
  predicate IsCandidate(w: string)
  {
    Utf16Length(w) > 2 && w !in StopWords
  }

  /** `/^[a-z]+$/.test(word)`. */
  predicate IsLowerAlpha(w: string)
  {
    |w| > 0 && forall k | 0 <= k < |w| :: 'a' <= w[k] <= 'z'
  }

  /** `extractKeywords`: the words of the lower-cased, punctuation-free text
      that are long enough, not stop words and purely alphabetic, in order. */
  function Tokens(text: string): seq<string>
  {
    Filter(Filter(Words(Scrub(Lower(text))), IsCandidate), IsLowerAlpha)
  }

  /** `new Set(extractKeywords(text))`. */
  function KeywordSet(text: string): set<string>
  {
    set w | w in Tokens(text)
  }

  lemma {:induction false} SubsetCard<T>(a: set<T>, b: set<T>)
    requires a <= b
    ensures |a| <= |b|
    decreases |b|
  {
    if b != {} {
      var x :| x in b;
      SubsetCard(a - {x}, b - {x});
    }
  }

  /** A count out of a larger total, as a percentage, lies in [0, 100]. */
  lemma PercentBounds(part: nat, total: nat)
    requires 0 < total && part <= total
    ensures 0.0 <= (part as real / total as real) * 100.0 <= 100.0
  {
    var q := part as real / total as real;
    assert q * (total as real) == part as real;
    assert q <= 1.0;
  }

  lemma PercentOfWhole(total: nat)
    requires 0 < total
    ensures (total as real / total as real) * 100.0 == 100.0
  {
  }

  lemma PercentOfNone(total: nat)
    requires 0 < total
    ensures (0 as real / total as real) * 100.0 == 0.0
  {
  }

  lemma PercentMonotone(part1: nat, part2: nat, total: nat)
    requires 0 < total && part1 <= part2
    ensures (part1 as real / total as real) * 100.0 <= (part2 as real / total as real) * 100.0
  {
    var q1 := part1 as real / total as real;
    var q2 := part2 as real / total as real;
    assert q1 * (total as real) == part1 as real;
    assert q2 * (total as real) == part2 as real;
  }

  /** `calculateKeywordMatch`: the percentage of the job description's
      distinct keywords that the resume also contains; 0 for an empty job
      description or one without keywords. */
  function KeywordMatch(resumeText: string, jobDesc: string): (r: real)
    ensures 0.0 <= r <= 100.0
    ensures jobDesc == "" || |KeywordSet(jobDesc)| == 0 ==> r == 0.0
  {
    if jobDesc == "" then 0.0
    else
      var jobKeywords := KeywordSet(jobDesc);
      var resumeKeywords := KeywordSet(resumeText);
      if |jobKeywords| == 0 then 0.0
      else
        var matches := jobKeywords * resumeKeywords;
        SubsetCard(matches, jobKeywords);
        PercentBounds(|matches|, |jobKeywords|);
        (|matches| as real / |jobKeywords| as real) * 100.0
  }

  /** Every keyword is a purely alphabetic lower-case word of three letters
      or more that is not a stop word. */
  lemma KeywordShape(text: string)
    ensures forall w | w in KeywordSet(text) :: IsLowerAlpha(w) && |w| > 2 && w !in StopWords
  {
    var candidates := Filter(Words(Scrub(Lower(text))), IsCandidate);
    FilterSound(Words(Scrub(Lower(text))), IsCandidate);
    FilterSound(candidates, IsLowerAlpha);
    forall w | w in KeywordSet(text) ensures |w| > 2 {
      Utf16LengthBmp(w);
    }
  }

  /** `keyword => resumeKeywords.has(keyword)`. */
  function In(keywords: set<string>): string -> bool
  {
    w => w in keywords
  }

  /** The match is what `calculateKeywordMatch` computes: the job's distinct
      keywords in first-occurrence order (a `Set` keeps insertion order), the
      ones the resume also has, and the ratio of the two counts as a
      percentage; 0 for an empty job description or one without keywords. */
  lemma KeywordMatchIsRatio(resumeText: string, jobDesc: string)
    ensures var jobKeywords := Dedup(Tokens(jobDesc));
      var matches := Filter(jobKeywords, In(KeywordSet(resumeText)));
      KeywordMatch(resumeText, jobDesc)
        == if jobDesc == "" || |jobKeywords| == 0 then 0.0
           else (|matches| as real / |jobKeywords| as real) * 100.0
  {
    var t := Tokens(jobDesc);
    var jk := Dedup(t);
    var p := In(KeywordSet(resumeText));
    var m := Filter(jk, p);
    DedupSpec(t);
    assert (set w | w in jk) == KeywordSet(jobDesc);
    DistinctCard(jk);
    FilterIsSubsequence(jk, p);
    SubsequenceDistinct(m, jk);
    DistinctCard(m);
    FilterSound(jk, p);
    forall w | w in KeywordSet(jobDesc) * KeywordSet(resumeText) ensures w in m {
      FilterKeeps(jk, p, w);
    }
    assert (set w | w in m) == KeywordSet(jobDesc) * KeywordSet(resumeText);
  }

  /** A resume holding every keyword of a job description that has some
      scores 100. */
  lemma FullCoverage(resumeText: string, jobDesc: string)
    requires jobDesc != "" && |KeywordSet(jobDesc)| > 0
    requires KeywordSet(jobDesc) <= KeywordSet(resumeText)
    ensures KeywordMatch(resumeText, jobDesc) == 100.0
  {
    var j := KeywordSet(jobDesc);
    assert j * KeywordSet(resumeText) == j;
    PercentOfWhole(|j|);
  }

  /** A resume sharing no keyword with the job description scores 0. */
  lemma NoOverlap(resumeText: string, jobDesc: string)
    requires KeywordSet(jobDesc) * KeywordSet(resumeText) == {}
    ensures KeywordMatch(resumeText, jobDesc) == 0.0
  {
    var j := KeywordSet(jobDesc);
    if jobDesc != "" && |j| > 0 {
      PercentOfNone(|j|);
    }
  }

  /** A resume whose keywords include another's scores at least as high
      against any job description. */
  lemma MatchMonotone(resume1: string, resume2: string, jobDesc: string)
    requires KeywordSet(resume1) <= KeywordSet(resume2)
    ensures KeywordMatch(resume1, jobDesc) <= KeywordMatch(resume2, jobDesc)
  {
    var j := KeywordSet(jobDesc);
    if jobDesc != "" && |j| > 0 {
      var m1 := j * KeywordSet(resume1);
      var m2 := j * KeywordSet(resume2);
      SubsetCard(m1, m2);
      PercentMonotone(|m1|, |m2|, |j|);
      assert KeywordMatch(resume1, jobDesc) == (|m1| as real / |j| as real) * 100.0;
      assert KeywordMatch(resume2, jobDesc) == (|m2| as real / |j| as real) * 100.0;
    }
  }
}
