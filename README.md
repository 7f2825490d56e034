# Resume analyzer: a verified model of the scoring pipeline

This project models the analysis core of the resume analyzer, a single-page
React application (`App.js`). A recruiter enters a job description and
uploads PDF resumes. The application then processes the resumes one at a
time, and a Stop button can halt the run. For each resume it:

- reads the resume's text;
- extracts the candidate's name, email address and phone number;
- detects technical skills against a fixed taxonomy;
- estimates the years of experience;
- classifies the highest education level;
- measures the keyword overlap with the job description;
- combines everything into a weighted score with strengths, weaknesses and a
  five-band recommendation.

The model has one Dafny module per component:

| module | file | models |
|---|---|---|
| `Strings` | `strings.dfy` | JavaScript's `\s`, `\w`, `trim`, `toLowerCase` (ASCII letters), `includes`, `split("\n")`, `split(/\s+/)`, `join`, `filter` and `[...new Set(...)]` |
| `ContactExtractor` | `contact.dfy` | `extractContactInfo` |
| `SkillExtractor` | `skills.dfy` | the skills taxonomy and `extractSkills` |
| `ExperienceEstimator` | `experience.dfy` | `extractExperienceYears` |
| `EducationClassifier` | `education.dfy` | `analyzeEducation` |
| `KeywordMatcher` | `keywords.dfy` | `calculateKeywordMatch` and `extractKeywords` |
| `ScoringEngine` | `scoring.dfy` | `scoreResume` |
| `BatchProcessor` | `batch.dfy` | the analyzer's state, `processResumes` and `stopProcessing` |

Each extractor follows the same pattern:

- a method does the work the way the source does, with its loops and early
  exits;
- the method is proved equal to a specification function;
- lemmas then state what that function means.

Pure JavaScript expressions become functions.

The analyzer's state is a class, `BatchProcessor.ResumeAnalyzer`. Its fields
are the React state the batch run reads and writes: the job description, the
criteria weights, the resume list, the processing flag, the stop flag, the
analyzed flag and the status line. `ProcessResumes` checks for a blank job
description and calls `Run`, which runs `VisitAll`, a `while` loop over the
resume list. The loop is proved to leave the list as "the first k
resumes visited, the rest untouched", where k is where the stop flag was
first seen.

Modelling choices:

- **Weights** are natural numbers in hundredths (0.4 is 40), because the
  settings sliders move in steps of 0.05.
- **The keyword ratio** is a real number.
- **String lengths** are counted as JavaScript counts them, in UTF-16 code
  units (`Strings.Utf16Length`): a character above U+FFFF counts twice.
- **The status line** is a datatype, `BatchProcessor.StatusLine`. Its `Line`
  function gives the exact text the code shows, and `LineInjective` proves
  that different lines read differently, so the datatype loses nothing the
  text tells the user. The resume states and education levels are
  datatypes too; `Status.Name()` and `Level.Name()` give their strings, and
  `StatusNameInjective` and `LevelNameInjective` prove those distinct.
- **`Math.round`** is `Floor(x + 0.5)`. This agrees with JavaScript for the
  non-negative values that occur here.
- **Strength, weakness and recommendation messages** are enumerations. Each
  value's `Text()` gives the exact string the code uses.
- **Matching is unanchored.** Skills and education keywords are matched as
  plain substrings, as in the code. Three lemmas record what that implies:
  - `SkillExtractor.LetterRMeansR`: any "r" credits the language R;
  - `SkillExtractor.JavaScriptMeansJava`: "javascript" also credits Java;
  - `EducationClassifier.LettersMaMeanAdvanced`: any "ma" counts as a master's degree.

Where the code and its written description disagree, the model follows the
code:

- The overall score is the rounded weighted sum, and it is not clamped.
  With every weight at 1.0 a perfect resume scores 400
  (`ScoringEngine.OverallCanExceed100`). The score stays within [0, 100]
  only when the weights add up to at most 1
  (`ScoringEngine.ScoreRanges`, `ScoringEngine.DefaultWeightsBounded`).
- Strength, weakness and recommendation texts are the code's strings.
- Node.js is looked for as "node.js" and "nodejs" only (its four spellings
  are "node.js", "nodejs", "node.js" and "node.js"), so "node js" written
  with a space does not credit it (`SkillExtractor.NodeWithSpaceMissed`).

## Model

| member | source | states |
|---|---|---|
| Strings.Lower | App.js:224 | lower-casing keeps the length, maps each ASCII capital to its small letter and leaves every other character alone |
| Strings.LowerSpec | App.js:224 | a lower-cased text has no ASCII capital left; lower-casing twice is lower-casing once; lower-casing a concatenation lower-cases each part |
| Strings.Utf16Length | App.js:107 | a string's JavaScript `length` counts one unit per character below U+10000 and two above, so it lies between the number of characters and twice that |
| Strings.Utf16LengthBmp | App.js:107 | for a string without characters above U+FFFF the JavaScript `length` is the number of characters |
| Strings.LinesJoin | App.js:93 | splitting a text at line feeds loses nothing: the lines joined with line feeds give the text back |
| Strings.TrimEmptyIffBlank | App.js:406-408 | a string trims to "" exactly when every character is white space |
| Strings.TrimIsTrimmed | App.js:95 | a trimmed line neither starts nor ends with white space |
| Strings.WordsKeepNonSpace | App.js:107 | splitting at white space yields only non-empty pieces free of white space, and together they spell the text with its white space removed |
| Strings.WordsSplitAtSpace | App.js:107 | `split(/\s+/)` cuts at white space and nowhere else: cutting the text at any white-space character splits its words into those before and those after the cut; with `WordsOfJoin` on one word this fixes the pieces as the maximal non-space runs |
| Strings.WordsOfJoin | App.js:114 | joining space-free words with single spaces and splitting again gives the same words |
| Strings.DedupSpec | App.js:240 | the de-duplicated list has no repeats and exactly the members of the original |
| Strings.DedupIsSubsequence | App.js:240 | the de-duplicated list is a subsequence of the original |
| Strings.DedupFirstOccurrenceOrder | App.js:240 | the de-duplicated list orders its members by where each first occurs in the original, as a `Set` keeps insertion order |
| ContactExtractor.SearchedLines | App.js:94 | the lines searched for a name are a prefix of the non-empty lines, ten of them or all of them |
| ContactExtractor.ScanForName | App.js:93-118 | the bounded scan with its `continue` and `break` finds the name of the first qualifying line among the first ten |
| ContactExtractor.ExtractContactInfo | App.js:70-121 | the contact record is the first email match, the first phone match and the name of the first qualifying line |
| ContactExtractor.NameWordsShape | App.js:107 | the words kept for a name have a JavaScript `length` above 1, are non-empty and contain no white space |
| ContactExtractor.NameWordLength | App.js:110 | a name-shaped word is all ASCII, so its JavaScript `length` is its number of characters |
| ContactExtractor.AstralCharIsLongWord | App.js:107-111 | a single character above U+FFFF, such as an emoji, has `length` 2: it survives the `length > 1` filter but is not a name word |
| ContactExtractor.NameFromNotEmpty | App.js:113-114 | a qualifying line always yields a non-empty name |
| ContactExtractor.NameInIsFirstQualifyingLine | App.js:94-118 | the name is "" exactly when no searched line qualifies; otherwise it comes from the first line that does and no earlier line qualifies |
| ContactExtractor.NameShape | App.js:107-114 | a found name is two to four name-shaped words of two characters or more, joined by single spaces |
| ContactExtractor.OnlyFirstLinesMatter | App.js:94 | non-empty lines after the tenth never change the name |
| SkillExtractor.HyphensToSpaces | App.js:232 | every hyphen becomes a space and every other character stays, so no hyphen is left |
| SkillExtractor.Variants | App.js:228-233 | a skill is looked for under four spellings, the first being its lower-case form |
| SkillExtractor.CollectDetected | App.js:227-238 | the pass over the taxonomy collects exactly the detected entries, in taxonomy order |
| SkillExtractor.ExtractSkills | App.js:124-241 | the reported skills are the detected taxonomy entries with repeats removed |
| SkillExtractor.DetectInMembers | App.js:227-238 | an entry is collected exactly when it is listed and one of its spellings occurs in the text |
| SkillExtractor.DetectInIsSubsequence | App.js:227-238 | the collected entries keep the list's order |
| SkillExtractor.SkillsOfSpec | App.js:124-241 | a skill is reported exactly when it is in the taxonomy and one of its spellings occurs in the lower-cased text; no skill is reported twice; the report follows taxonomy order |
| SkillExtractor.DetectedExtends | App.js:235 | a spelling that occurs in a text still occurs after more text is appended |
| SkillExtractor.DetectInGrows | App.js:227-238 | appending text never removes an entry from the collected list |
| SkillExtractor.SkillsGrowWithText | App.js:124-241 | appending text to a resume never loses a reported skill |
| SkillExtractor.LowerSpellingDetected | App.js:229-236 | a taxonomy entry whose lower-case form occurs in the lower-cased text is reported |
| SkillExtractor.LetterRMeansR | App.js:124-241 | any text containing the letter r, in either case, is credited with the language R |
| SkillExtractor.NodeWithSpaceMissed | App.js:228-235 | "node js" with a space matches none of the four spellings of Node.js, so it is not credited |
| SkillExtractor.JavaScriptMeansJava | App.js:124-241 | a text mentioning JavaScript is credited with both JavaScript and Java |
| ExperienceEstimator.YearValue | App.js:263-265 | a date token read as a number lies in [1900, 2099] |
| ExperienceEstimator.YearTokens | App.js:263-265 | every token of the whole-word 19xx/20xx pattern lies in [1900, 2099] |
| ExperienceEstimator.InRange | App.js:266 | the kept dates are exactly the tokens from 1990 to the current year |
| ExperienceEstimator.DateSpan | App.js:268-273 | a date span, when there is one, is from 1 to 50 years |
| ExperienceEstimator.ExtractExperienceYears | App.js:244-276 | the result is the largest of the plausible stated claims and the date span, or 0 when there is none |
| ExperienceEstimator.CandidatesPlausible | App.js:252-273 | every candidate number of years is from 1 to 50 |
| ExperienceEstimator.ExperienceIsLargestCandidate | App.js:275 | the result is 0 exactly when there is no candidate; otherwise it is a candidate bounding all the others; it is always 0 or from 1 to 50 |
| ExperienceEstimator.ExperienceBoundsEveryClaim | App.js:252-275 | every plausible claim and the date span are at most the result |
| ExperienceEstimator.ImplausibleClaimIgnored | App.js:255-258 | a claim of 0 years or of more than 50 changes nothing |
| ExperienceEstimator.DateSpanExample | App.js:263-275 | a resume dated 2015-2020 with no stated claim shows five years in 2024 |
| EducationClassifier.LevelNameInjective | App.js:320-333 | the six level names "phd", "masters", "bachelors", "associates", "certificate" and "none" are distinct, so the name identifies the level |
| EducationClassifier.AnalyzeEducation | App.js:279-334 | the two loops (collect the levels with a keyword hit, return the first in priority order) give the specified education |
| EducationClassifier.FoundInMembers | App.js:313-317 | a level is collected exactly when one of its keywords occurs in the text |
| EducationClassifier.FoundLevels | App.js:313-317 | the collected levels are exactly the levels the text mentions |
| EducationClassifier.FirstFoundCascade | App.js:320-333 | the priority scan picks PhD, then master's, bachelor's, associate's, certificate, then none |
| EducationClassifier.EducationIsHighestMentioned | App.js:279-334 | the reported level is the most advanced level mentioned; the advanced flag holds exactly for PhD and master's |
| EducationClassifier.HighestMentionedSpec | App.js:320-333 | the level is one the text mentions and no more advanced level is mentioned; it is none exactly when no level is mentioned |
| EducationClassifier.LettersMaMeanAdvanced | App.js:279-334 | any text containing "ma" is graded as holding an advanced degree |
| KeywordMatcher.Scrub | App.js:387 | every character that is neither a word character nor white space becomes a space and the rest stay, so every character left is a word character or white space |
| KeywordMatcher.KeywordMatch | App.js:337-402 | the match lies in [0, 100], and it is 0 for an empty job description or one without keywords |
| KeywordMatcher.KeywordShape | App.js:384-391 | every keyword has at least three lower-case ASCII letters and is not a stop word |
| KeywordMatcher.KeywordMatchIsRatio | App.js:384-401 | the match is what the code computes: the job's keywords de-duplicated in first-occurrence order, filtered by membership in the resume's keyword set, and the count of those over the count of job keywords, as a percentage; 0 for an empty job description or one without keywords |
| KeywordMatcher.FullCoverage | App.js:393-401 | a resume holding every job keyword scores 100 |
| KeywordMatcher.NoOverlap | App.js:393-401 | a resume sharing no keyword with the job description scores 0 |
| KeywordMatcher.MatchMonotone | App.js:393-401 | a resume whose keywords include another's never scores lower |
| ScoringEngine.ComputeSubScores | App.js:415-439 | the skills cap, the experience step chain, the education table and the keyword cap give the specified sub-scores |
| ScoringEngine.CollectStrengths | App.js:453-458 | the four strength tests, in order, append exactly the strengths whose rule holds |
| ScoringEngine.CollectWeaknesses | App.js:460-466 | the four weakness tests, in order, append exactly the weaknesses whose rule holds, whatever the degree |
| ScoringEngine.ScoreResume | App.js:405-492 | scoring step by step gives the specified result: the error for a blank job description, else the analysis of the measured resume |
| ScoringEngine.ScoreFailsIffBlankJob | App.js:406-408 | scoring fails exactly when the job description is all white space, and then with the fixed message |
| ScoringEngine.RoundInt | App.js:481-483 | rounding an integer sub-score gives it back |
| ScoringEngine.RoundMonotone | App.js:442-448 | rounding keeps the order of its arguments |
| ScoringEngine.WeightedBounds | App.js:442-448 | a weighted sub-score from 0 to 100 lies between 0 and its weight and grows with the sub-score |
| ScoringEngine.SubScoresInRange | App.js:416-439 | every sub-score lies in [0, 100] |
| ScoringEngine.OverallBounds | App.js:442-448 | the overall score lies between 0 and the total weight, so in [0, 100] when the weights add up to at most 1 |
| ScoringEngine.ScoreRanges | App.js:405-492 | scoring against a job description that is not blank succeeds; every reported sub-score lies in [0, 100]; the overall score lies in [0, total weight]; the recommendation is the band of the overall score |
| ScoringEngine.DefaultWeightsBounded | App.js:35-40 | with the default weights and a job description that is not blank, scoring succeeds and the overall score lies in [0, 100] |
| ScoringEngine.OverallCanExceed100 | App.js:442-448 | with every slider at 1 a perfect resume scores 400: the overall score is not clamped |
| ScoringEngine.OverallMonotone | App.js:442-448 | raising any sub-score never lowers the overall score |
| ScoringEngine.SubScoresMonotone | App.js:416-436 | more skills, more years or a more advanced degree never score lower, and each table stays within [20, 100] or [0, 100] |
| ScoringEngine.TierBands | App.js:468-477 | each band is chosen exactly on its score range, and a higher score never gets a worse band |
| ScoringEngine.TierTextInjective | App.js:468-477 | different bands have different texts |
| ScoringEngine.SelectSpec | App.js:449-466 | an insight is selected exactly when its rule holds; none twice; in rule order |
| ScoringEngine.StrengthsSpec | App.js:453-458 | each strength appears exactly when its threshold is met (skills ≥ 70, experience ≥ 80, advanced degree, keywords ≥ 60), once, in order |
| ScoringEngine.WeaknessesSpec | App.js:460-466 | each weakness appears exactly when its threshold is missed (skills < 40, experience < 50, education < 50, keywords < 40), once, in order |
| ScoringEngine.NoContradictoryInsights | App.js:449-466 | no criterion is both a strength and a weakness, and an advanced degree is never called weak |
| BatchProcessor.StepAllExtend | App.js:565-601 | visiting one more resume updates only that position |
| BatchProcessor.FirstStop | App.js:566-569 | the first boundary from the start at which a stop is requested, or one past the end: a stop is requested there and at no boundary before it |
| BatchProcessor.FirstStopAt | App.js:565-569 | a loop that saw no stop before `i`, and saw one at `i` unless it ran to the end, visited exactly up to the first stop |
| BatchProcessor.StatusNameInjective | App.js:571-592 | the resume states "pending", "processing", "completed" and "error" have distinct names |
| BatchProcessor.LineInjective | App.js:561-614 | the status texts "", "Initializing...", "Processing <name>...", "Stopping..." and "Stopped by user" are pairwise different, and the processing text determines the resume name |
| BatchProcessor.ReadAndScore | App.js:576-594 | reading, contact extraction and scoring record on the resume either the analysis and its score or the failure message |
| BatchProcessor.ResumeAnalyzer.constructor | App.js:26-40 | the initial state: no job description, no resumes, default weights, every flag off, empty status |
| BatchProcessor.ResumeAnalyzer.StopProcessing | App.js:611-615 | the stop flag is raised, processing ends and the status reads "Stopping..."; nothing else changes |
| BatchProcessor.ResumeAnalyzer.ProcessOne | App.js:571-600 | a pending resume is replaced by its processed record and no other resume changes; the status line reads "Processing <name>..."; the processing flag is unchanged |
| BatchProcessor.ResumeAnalyzer.Visit | App.js:571-600 | one loop visit processes the resume if it is pending and leaves it alone otherwise; the status line then names the last pending resume visited, or is unchanged if none was |
| BatchProcessor.ResumeAnalyzer.Iterate | App.js:566-600 | one pass of the loop body: a stop seen at `i` ends processing with "Stopped by user" and changes no resume; otherwise the resume at `i` is visited |
| BatchProcessor.ResumeAnalyzer.VisitAll | App.js:565-601 | the loop sees no stop before the resumes it visits. It either visits them all, leaving each stepped, the processing flag unchanged and the status naming the last pending resume, or it meets a stop at the next resume: then the visited ones are stepped, the rest untouched, processing is off and the status reads "Stopped by user" |
| BatchProcessor.ResumeAnalyzer.ProcessResumes | App.js:553-609 | for a blank job description: the alert and no change. Otherwise: the resumes up to the first stop are processed and the rest untouched; the run ends not processing with an empty status; the results count as analyzed exactly when no stop was seen |
| BatchProcessor.ResumeAnalyzer.Run | App.js:559-608 | the run proper: the same outcome as above once the job description is known not to be blank |
| BatchProcessor.ResumeAnalyzer.Finish | App.js:603-608 | processing ends with an empty status, and the analyzed flag is set unless the stop flag is up |
| BatchProcessor.ProcessedIsFinished | App.js:576-594 | a processed resume is completed with contact, analysis and its overall score, or failed with a message; its identity is untouched |
| BatchProcessor.ProcessedOutcome | App.js:576-594 | with a non-blank job description, a readable PDF always completes with the analysis of its text; an unreadable one fails with the reader's message |
| BatchProcessor.StepAllIdempotent | App.js:571 | a second pass changes nothing: no resume is processed twice |
| BatchProcessor.FullRunLeavesNothingPending | App.js:565-601 | after an unstopped run no resume is pending, and every resume that was not pending is unchanged |

## Left out

- The email and phone regular expressions (`App.js:78-89`) are not modelled. Their matches, in text order, are inputs (`Oracles.emails`, `Oracles.phones`).
- The three "N years of experience" regular expressions (`App.js:245-249`) are not modelled. The integers they capture, in match order, are an input (`Oracles.experienceClaims`). The date pattern itself is modelled.
- `new Date().getFullYear()` is the `currentYear` parameter.
- `extractTextFromPDF` (`App.js:44-67`) is PDF.js and asynchronous I/O. It is an oracle (`Oracles.pdfText`) that returns the text or `None`. `None` stands for the one fixed message the function throws on any failure.
- `toLowerCase` is modelled on ASCII letters only. Other letters are left unchanged.
- The weights are exact hundredths, the keyword ratio an exact real, and rounding exact. IEEE-754 floating point and its rounding errors are not modelled.
- The asynchronous parts of `processResumes` are not modelled: the `await`s, the 100 ms `setTimeout` pause and each intermediate `setResumes` publication of the list to React. The class fields hold the state as the loop sees it.
- The stop flag is idealised. `stopRequested(i)` says whether Stop was pressed before the loop reached resume `i`. The model calls `StopProcessing` and polls the field at that boundary. In the source, the `shouldStopProcessing` read inside the `async` closure is the value captured when the run started, so a press during a run is not seen by that run. The model describes the behaviour the code was written for.
- A side effect of that capture is a stale flag: after a Stop, the flag stays `true` in the closure of the next run, which then stops at the first resume, processes nothing and leaves the analyzed flag as it was. The model covers this case as `stopRequested(0)`, but it does not tie it to an earlier run.
- `handleFileUpload`, ZIP extraction, `removeResume`, the export functions and all rendering are not part of the core and are not modelled. `Resume.file` is a natural-number handle to the uploaded file.
- The `|| 20` fallback of the education table (`App.js:436`) is unreachable with the `Level` datatype, which has exactly the six keys of the table.
- ScoringEngine.ScoreResume: the three integer sub-scores are reported without rounding (`Assess`), because rounding an integer is the identity (`RoundInt`). The method itself rounds them as the source does.
- BatchProcessor.ResumeAnalyzer.ProcessOne: the intermediate "processing" status of the resume is overwritten within the same step, and no observer sees it in the model. Only the final record is stated.
- The `console.error` logging and the `alert` pop-up are not modelled as I/O. The alert text is returned as `Some(MissingJobDescription)`.
