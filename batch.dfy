/** The batch run over the uploaded resumes (`processResumes` and
    `stopProcessing`): every pending resume is read, its contact details
    extracted and its analysis computed, one at a time, until the list ends
    or the user asks to stop. The PDF reader and the regular-expression
    matchers are oracles supplied by the caller. */
module BatchProcessor {
  import opened Strings
  import opened ContactExtractor
  import opened ScoringEngine

  datatype Status = Pending | Processing | Completed | Error
  {
    function Name(): string
    {
      match this
      case Pending => "pending"
      case Processing => "processing"
      case Completed => "completed"
      case Error => "error"
    }
  }

  /** One uploaded resume. `file` identifies the uploaded PDF; an empty
      analysis or contact record is `None`. */
  datatype Resume = Resume(
    id: int,
    name: string,
    file: nat,
    status: Status,
    text: string,
    fullText: string,
    score: int,
    analysis: Option<Analysis>,
    contact: Option<Contact>,
    error: Option<string>)

  /** What the model takes from outside: the text of each PDF (`None` when it
      cannot be read), the email and phone matches of a text, and the
      integers the experience phrase patterns capture in it. */
  datatype Oracles = Oracles(
    pdfText: nat -> Option<string>,
    emails: string -> seq<string>,
    phones: string -> seq<string>,
    experienceClaims: string -> seq<int>)

  const PdfFailure: string := "Failed to extract text from PDF. Please ensure the file is a valid PDF."
  const MissingJobDescription: string := "Please enter a job description first."

  /** The status line shown under the progress bar. */
  datatype StatusLine = Blank | Initializing | ProcessingResume(name: string) | Stopping | StoppedByUser

  /** The text of each status line. */
  function Line(s: StatusLine): string
  {
    match s
    case Blank => ""
    case Initializing => "Initializing..."
    case ProcessingResume(name) => "Processing " + name + "..."
    case Stopping => "Stopping..."
    case StoppedByUser => "Stopped by user"
  }

  /** Different resume states have different names, so the name identifies the state. */
  lemma StatusNameInjective(a: Status, b: Status)
    requires a.Name() == b.Name()
    ensures a == b
  {
    assert a.Name()[0] == b.Name()[0];
  }

  /** Different status lines read differently: the text shown identifies
      the state of the run and, while a resume is processed, its name. */
  lemma LineInjective(a: StatusLine, b: StatusLine)
    requires Line(a) == Line(b)
    ensures a == b
  {
    var t := Line(a);
    if |t| > 0 {
      assert t[0] == Line(b)[0];
      if a.ProcessingResume? && b.ProcessingResume? {
        assert a.name == t[11..|t| - 3];
        assert b.name == Line(b)[11..|t| - 3];
      } else if a.Stopping? || b.Stopping? {
        assert t[5] == Line(b)[5];
      }
    }
  }

  /** The record a pending resume ends up as once it has been processed. */
  function Processed(r: Resume, job: string, w: Weights, o: Oracles, currentYear: int): Resume
  {
    match o.pdfText(r.file)
    case None => r.(status := Error, error := Some(PdfFailure))
    case Some(text) =>
      var read := r.(text := text, fullText := text,
                     contact := Some(ContactOf(text, o.emails(text), o.phones(text))));
      match Score(text, job, w, o.experienceClaims(text), currentYear)
      case Err(msg) => read.(status := Error, error := Some(msg))
      case Ok(a) => read.(analysis := Some(a), score := a.overallScore, status := Completed)
  }

  /** One visit of the loop: only pending resumes are processed. */
  function Step(r: Resume, job: string, w: Weights, o: Oracles, currentYear: int): Resume
  {
    if r.status == Pending then Processed(r, job, w, o, currentYear) else r
  }

  /** Every resume of `rs` visited once. */
  function StepAll(rs: seq<Resume>, job: string, w: Weights, o: Oracles, currentYear: int): (out: seq<Resume>)
    ensures |out| == |rs|
    ensures forall j | 0 <= j < |rs| :: out[j] == Step(rs[j], job, w, o, currentYear)
  {
    seq(|rs|, j requires 0 <= j < |rs| => Step(rs[j], job, w, o, currentYear))
  }

  /** Visiting one more resume of a partly processed list. */
  lemma StepAllExtend(rs: seq<Resume>, i: nat, job: string, w: Weights, o: Oracles, currentYear: int)
    requires i < |rs|
    ensures StepAll(rs[..i + 1], job, w, o, currentYear) + rs[i + 1..]
      == (StepAll(rs[..i], job, w, o, currentYear) + rs[i..])[i := Step(rs[i], job, w, o, currentYear)]
  {
  }

  /** The first boundary from `i` to `n` at which a stop is requested, or
      n + 1 when there is none. */
  function FirstStop(stopRequested: nat -> bool, i: nat, n: nat): (k: nat)
    requires i <= n + 1
    ensures i <= k <= n + 1
    ensures k <= n ==> stopRequested(k)
    ensures forall j | i <= j < k :: !stopRequested(j)
    decreases n + 1 - i
  {
    if i > n then n + 1
    else if stopRequested(i) then i
    else FirstStop(stopRequested, i + 1, n)
  }

  /** A loop over `n` resumes that saw no stop before `i`, and saw one at
      `i` unless it ran to the end, stopped at the first stop. */
  lemma FirstStopAt(stopRequested: nat -> bool, i: nat, n: nat)
    requires i <= n && FirstStop(stopRequested, 0, n) == FirstStop(stopRequested, i, n)
    requires i < n ==> stopRequested(i)
    ensures Min(FirstStop(stopRequested, 0, n), n) == i
    ensures FirstStop(stopRequested, 0, n) < n <==> i < n
  {
  }

  /** The status line after visiting `rs`, starting from `status`: the
      message of the last pending resume among them, or `status` when there
      is none. */
  function StatusAfter(rs: seq<Resume>, status: StatusLine): StatusLine
  {
    if |rs| == 0 then status
    else if rs[|rs| - 1].status == Pending then ProcessingResume(rs[|rs| - 1].name)
    else StatusAfter(rs[..|rs| - 1], status)
  }

  /** The `try` block of the loop body: read the PDF, extract the contact
      details and score the text, recording any failure on the resume. The
      status the resume had before is overwritten. */
  method ReadAndScore(r: Resume, job: string, w: Weights, o: Oracles, currentYear: int) returns (updated: Resume)
    ensures updated == Processed(r, job, w, o, currentYear)
  {
    updated := r;
    var pdf := o.pdfText(r.file);
    match pdf {
      case None =>
        updated := updated.(status := Error, error := Some(PdfFailure));
      case Some(text) =>
        updated := updated.(text := text, fullText := text);
        var contact := ExtractContactInfo(text, o.emails(text), o.phones(text));
        updated := updated.(contact := Some(contact));
        var analysis := ScoreResume(text, job, w, o.experienceClaims(text), currentYear);
        match analysis {
          case Err(msg) =>
            updated := updated.(status := Error, error := Some(msg));
          case Ok(a) =>
            updated := updated.(analysis := Some(a), score := a.overallScore, status := Completed);
        }
    }
  }

  /** The analyzer's state. */
  class ResumeAnalyzer {
    var jobDescription: string
    var criteriaWeights: Weights
    var resumes: seq<Resume>
    var isProcessing: bool
    var shouldStopProcessing: bool
    var analyzed: bool
    var processingStatus: StatusLine

    constructor ()
      ensures jobDescription == "" && criteriaWeights == DefaultWeights && resumes == []
      ensures !isProcessing && !shouldStopProcessing && !analyzed && processingStatus == Blank
    {
      jobDescription := "";
      criteriaWeights := DefaultWeights;
      resumes := [];
      isProcessing := false;
      shouldStopProcessing := false;
      analyzed := false;
      processingStatus := Blank;
    }

    /** `stopProcessing`: raise the stop flag. */
    method StopProcessing()
      modifies this
      ensures shouldStopProcessing && !isProcessing && processingStatus == Stopping
      ensures jobDescription == old(jobDescription) && criteriaWeights == old(criteriaWeights)
      ensures resumes == old(resumes) && analyzed == old(analyzed)
    {
      shouldStopProcessing := true;
      isProcessing := false;
      processingStatus := Stopping;
    }

    /** Process one pending resume: mark it as being processed, then record
        the outcome of reading and scoring it on the resume itself. */
    method ProcessOne(i: nat, o: Oracles, currentYear: int)
      requires i < |resumes| && resumes[i].status == Pending
      modifies this
      ensures resumes == old(resumes)[i := Processed(old(resumes)[i], old(jobDescription), old(criteriaWeights), o, currentYear)]
      ensures jobDescription == old(jobDescription) && criteriaWeights == old(criteriaWeights)
      ensures shouldStopProcessing == old(shouldStopProcessing) && analyzed == old(analyzed)
      ensures isProcessing == old(isProcessing) && processingStatus == ProcessingResume(old(resumes)[i].name)
    {
      var updated := resumes[i].(status := Processing);
      processingStatus := ProcessingResume(updated.name);
      resumes := resumes[i := updated];
      updated := ReadAndScore(updated, jobDescription, criteriaWeights, o, currentYear);
      assert updated == Processed(old(resumes)[i], jobDescription, criteriaWeights, o, currentYear);
      resumes := resumes[i := updated];
    }

    /** The state of a run after the first `i` resumes of `initial` were
        visited: those are stepped and the rest untouched, the job and the
        weights are those of the run, the processing flag is `processing`
        and the status line is what visiting them shows after `status`. */
    ghost predicate VisitedFirst(i: nat, initial: seq<Resume>, job: string, w: Weights, o: Oracles, currentYear: int,
                                 processing: bool, status: StatusLine)
      reads this
    {
      && i <= |initial|
      && resumes == StepAll(initial[..i], job, w, o, currentYear) + initial[i..]
      && jobDescription == job && criteriaWeights == w
      && isProcessing == processing && processingStatus == StatusAfter(initial[..i], status)
    }

    /** The body of the loop after the stop check: the resume at `i` is
        processed when it is pending and left alone otherwise. */
    method Visit(i: nat, o: Oracles, currentYear: int, ghost initial: seq<Resume>,
                 ghost job: string, ghost w: Weights, ghost processing: bool, ghost status: StatusLine)
      requires i < |initial| && VisitedFirst(i, initial, job, w, o, currentYear, processing, status)
      modifies this
      ensures VisitedFirst(i + 1, initial, job, w, o, currentYear, processing, status)
      ensures shouldStopProcessing == old(shouldStopProcessing) && analyzed == old(analyzed)
    {
      assert initial[..i + 1][..i] == initial[..i];
      assert resumes[i] == initial[i];
      StepAllExtend(initial, i, job, w, o, currentYear);
      if resumes[i].status == Pending {
        ProcessOne(i, o, currentYear);
      } else {
        assert resumes[i := Step(initial[i], job, w, o, currentYear)] == resumes;
      }
    }

    /** One pass of the loop body: poll the stop flag and, when it is raised,
        show "Stopped by user"; otherwise visit the resume at `i`. */
    method Iterate(i: nat, o: Oracles, stopRequested: nat -> bool, currentYear: int, ghost initial: seq<Resume>,
                   ghost job: string, ghost w: Weights, ghost processing: bool, ghost status: StatusLine)
      requires i < |initial| && !shouldStopProcessing
      requires VisitedFirst(i, initial, job, w, o, currentYear, processing, status)
      modifies this
      ensures shouldStopProcessing == stopRequested(i) && analyzed == old(analyzed)
      ensures stopRequested(i) ==>
        && resumes == StepAll(initial[..i], job, w, o, currentYear) + initial[i..]
        && jobDescription == job && criteriaWeights == w
        && !isProcessing && processingStatus == StoppedByUser
      ensures !stopRequested(i) ==> VisitedFirst(i + 1, initial, job, w, o, currentYear, processing, status)
    {
      if stopRequested(i) {
        StopProcessing();
      }
      if shouldStopProcessing {
        processingStatus := StoppedByUser;
        return;
      }
      Visit(i, o, currentYear, initial, job, w, processing, status);
    }

    /** The `for` loop of `processResumes`: visit the resumes in order,
        polling the stop flag before each one. Returns how many resumes were
        visited: no stop was seen before any of them, and either all of them
        were visited or a stop was seen at the next one. */
    method VisitAll(o: Oracles, stopRequested: nat -> bool, currentYear: int,
                    ghost initial: seq<Resume>, ghost job: string, ghost w: Weights) returns (visited: nat)
      requires !shouldStopProcessing
      requires resumes == initial && jobDescription == job && criteriaWeights == w
      modifies this
      ensures visited <= |initial| && analyzed == old(analyzed)
      ensures FirstStop(stopRequested, 0, |initial|) == FirstStop(stopRequested, visited, |initial|)
      ensures shouldStopProcessing ==>
        && visited < |initial| && stopRequested(visited)
        && resumes == StepAll(initial[..visited], job, w, o, currentYear) + initial[visited..]
        && jobDescription == job && criteriaWeights == w
        && !isProcessing && processingStatus == StoppedByUser
      ensures !shouldStopProcessing ==>
        && visited == |initial|
        && VisitedFirst(visited, initial, job, w, o, currentYear, old(isProcessing), old(processingStatus))
    {
      var n := |resumes|;
      var i := 0;
      ghost var processing, status := isProcessing, processingStatus;
      assert initial[..0] == [];
      while i < n
        invariant i <= n && n == |initial|
        invariant VisitedFirst(i, initial, job, w, o, currentYear, processing, status)
        invariant !shouldStopProcessing && analyzed == old(analyzed)
        invariant FirstStop(stopRequested, 0, n) == FirstStop(stopRequested, i, n)
      {
        Iterate(i, o, stopRequested, currentYear, initial, job, w, processing, status);
        if shouldStopProcessing {
          break;
        }
        i := i + 1;
      }
      visited := i;
    }

    /** `processResumes`. `stopRequested(i)` says whether the user has pressed
        Stop by the time the loop reaches resume `i` (or, for i = |resumes|,
        by the end of the run). Returns the alert shown, if any. */
    method ProcessResumes(o: Oracles, stopRequested: nat -> bool, currentYear: int) returns (alert: Option<string>)
      modifies this
      ensures Trim(old(jobDescription)) == "" ==>
        && alert == Some(MissingJobDescription)
        && jobDescription == old(jobDescription) && criteriaWeights == old(criteriaWeights)
        && resumes == old(resumes) && isProcessing == old(isProcessing)
        && shouldStopProcessing == old(shouldStopProcessing) && analyzed == old(analyzed)
        && processingStatus == old(processingStatus)
      ensures Trim(old(jobDescription)) != "" ==>
        var n := |old(resumes)|;
        var stop := FirstStop(stopRequested, 0, n);
        var k := Min(stop, n);
        && alert == None
        && jobDescription == old(jobDescription) && criteriaWeights == old(criteriaWeights)
        && resumes == StepAll(old(resumes)[..k], old(jobDescription), old(criteriaWeights), o, currentYear) + old(resumes)[k..]
        && (shouldStopProcessing <==> stop <= n)
        && analyzed == (old(analyzed) || stop > n)
        && !isProcessing && processingStatus == Blank
    {
      if Trim(jobDescription) == "" {
        return Some(MissingJobDescription);
      }
      alert := None;
      Run(o, stopRequested, currentYear);
    }

    /** A run over the resumes once the job description is known not to be
        blank. */
    method Run(o: Oracles, stopRequested: nat -> bool, currentYear: int)
      modifies this
      ensures var n := |old(resumes)|;
        var stop := FirstStop(stopRequested, 0, n);
        var k := Min(stop, n);
        && jobDescription == old(jobDescription) && criteriaWeights == old(criteriaWeights)
        && resumes == StepAll(old(resumes)[..k], old(jobDescription), old(criteriaWeights), o, currentYear) + old(resumes)[k..]
        && (shouldStopProcessing <==> stop <= n)
        && analyzed == (old(analyzed) || stop > n)
        && !isProcessing && processingStatus == Blank
    {
      ghost var initial, job, w := resumes, jobDescription, criteriaWeights;
      isProcessing := true;
      shouldStopProcessing := false;
      processingStatus := Initializing;
      var visited := VisitAll(o, stopRequested, currentYear, initial, job, w);
      FirstStopAt(stopRequested, visited, |initial|);
      // A Stop pressed while the last resume was processed is seen by the
      // check that decides whether the run counts as analyzed.
      if !shouldStopProcessing && stopRequested(visited) {
        StopProcessing();
      }
      Finish();
    }

    /** The end of a run: processing is over, and the results count as
        analyzed unless the stop flag is raised. */
    method Finish()
      modifies this
      ensures !isProcessing && processingStatus == Blank
      ensures analyzed == (old(analyzed) || !shouldStopProcessing)
      ensures jobDescription == old(jobDescription) && criteriaWeights == old(criteriaWeights)
      ensures resumes == old(resumes) && shouldStopProcessing == old(shouldStopProcessing)
    {
      isProcessing := false;
      processingStatus := Blank;
      if !shouldStopProcessing {
        analyzed := true;
      }
    }
  }

  /** A processed resume is finished: either completed, with its contact
      details, its analysis and the analysis's overall score, or failed with
      a message; its identity is untouched. */
  lemma ProcessedIsFinished(r: Resume, job: string, w: Weights, o: Oracles, currentYear: int)
    ensures var p := Processed(r, job, w, o, currentYear);
      && (p.status == Completed || p.status == Error)
      && (p.status == Completed ==>
            p.contact.Some? && p.analysis.Some? && p.score == p.analysis.value.overallScore)
      && (p.status == Error ==> p.error.Some?)
      && p.id == r.id && p.name == r.name && p.file == r.file
  {
  }

  /** With a job description that is not blank, a resume whose PDF can be
      read is always completed, with the analysis of its text; one whose PDF
      cannot be read fails with the reader's message. */
  lemma ProcessedOutcome(r: Resume, job: string, w: Weights, o: Oracles, currentYear: int)
    requires Trim(job) != ""
    ensures var p := Processed(r, job, w, o, currentYear);
      match o.pdfText(r.file)
      case None => p.status == Error && p.error == Some(PdfFailure)
      case Some(text) =>
        && p.status == Completed && p.text == text && p.fullText == text
        && p.analysis == Some(Score(text, job, w, o.experienceClaims(text), currentYear).value)
        && p.contact == Some(ContactOf(text, o.emails(text), o.phones(text)))
  {
  }

  /** A second pass changes nothing: no resume is processed twice. */
  lemma StepAllIdempotent(rs: seq<Resume>, job: string, w: Weights, o: Oracles, currentYear: int)
    ensures StepAll(StepAll(rs, job, w, o, currentYear), job, w, o, currentYear) == StepAll(rs, job, w, o, currentYear)
  {
    var once := StepAll(rs, job, w, o, currentYear);
    forall j | 0 <= j < |rs| ensures Step(once[j], job, w, o, currentYear) == once[j] {
      ProcessedIsFinished(rs[j], job, w, o, currentYear);
    }
  }

  /** After a run that was not stopped, no resume is left pending, and every
      resume that was not pending is exactly as before. */
  lemma FullRunLeavesNothingPending(rs: seq<Resume>, job: string, w: Weights, o: Oracles, currentYear: int)
    ensures var out := StepAll(rs, job, w, o, currentYear);
      forall j | 0 <= j < |rs| ::
        && out[j].status != Pending
        && (rs[j].status != Pending ==> out[j] == rs[j])
  {
    forall j | 0 <= j < |rs| ensures StepAll(rs, job, w, o, currentYear)[j].status != Pending {
      ProcessedIsFinished(rs[j], job, w, o, currentYear);
    }
  }
}
