/** Recovering a candidate's name, email address and phone number from the
    plain text of a resume (`extractContactInfo`). The email and phone
    regular expressions are not modelled: their matches, in text order, are
    given to the extractor. The name search is modelled step by step, with
    word lengths counted in UTF-16 code units as JavaScript counts them. */
module ContactExtractor {
  import opened Strings

  datatype Contact = Contact(name: string, email: string, phone: string)

  /** Only the first this many non-empty lines are searched for a name. */
  const NameSearchLines: nat := 10

  /** Longest word a name may contain. */
  const MaxNameWordLength: nat := 20

  predicate HasContent(line: string)
  {
    |Trim(line)| > 0
  }

  /** `text.split("\n").filter(line => line.trim().length > 0)`. */
  function NonEmptyLines(text: string): seq<string>
  {
    Filter(Lines(text), HasContent)
  }

  /** The lines searched for a name: at most the first `NameSearchLines` of `lines`. */
  function SearchedLines(lines: seq<string>): (ls: seq<string>)
    ensures |ls| <= NameSearchLines && |ls| <= |lines|
    ensures ls == lines[..|ls|]
    ensures |ls| == NameSearchLines || ls == lines
  {
    lines[..Min(NameSearchLines, |lines|)]
  }

  /** A title line such as "Resume" or "Curriculum Vitae", which is skipped. */
  predicate IsHeaderLine(line: string)
  {
    var lower := Lower(line);
    Contains(lower, "resume") || Contains(lower, "curriculum") || Contains(lower, "cv")
  }

  /** `word.length > 1`. */
  predicate IsLongWord(w: string)
  {
    Utf16Length(w) > 1
  }

  /** `line.split(/\s+/).filter(word => word.length > 1)`. */
  function NameWords(line: string): seq<string>
  {
    Filter(Words(line), IsLongWord)
  }

  predicate IsNamePunctuation(c: char)
  {
    c == '.' || c == ',' || c == '\'' || c == '-'
  }

  /** `/^[A-Za-z][A-Za-z.,'-]*$/.test(word) && word.length <= 20`. */
  predicate IsNameWord(w: string)
  {
    && 0 < |w| && Utf16Length(w) <= MaxNameWordLength
    && IsAsciiLetter(w[0])
    && forall k | 1 <= k < |w| :: IsAsciiLetter(w[k]) || IsNamePunctuation(w[k])
  }

  /** `words.every(...)` with the name-word test. */
  predicate AllNameWords(words: seq<string>)
  {
    forall k | 0 <= k < |words| :: IsNameWord(words[k])
  }

  /** A trimmed line that is taken as the candidate's name: not a title line,
      two to four words longer than one character, each shaped like a name. */
  predicate IsNameLine(line: string)
  {
    var words := NameWords(line);
    !IsHeaderLine(line) && 2 <= |words| <= 4 && AllNameWords(words)
  }

  /** A line of the text qualifies once trimmed. */
  predicate QualifiesAsName(line: string)
  {
    IsNameLine(Trim(line))
  }

  /** The name a qualifying line yields: its long words joined by single spaces. */
  function NameFrom(line: string): string
  {
    Join(NameWords(Trim(line)), " ")
  }

  /** The name found in `lines`: that of the first line that qualifies, or
      "" if none does. */
  function NameIn(lines: seq<string>): string
  {
    var i := FirstIndex(lines, QualifiesAsName);
    if i < |lines| then NameFrom(lines[i]) else ""
  }

  /** The name `extractContactInfo` reports for `text`. */
  function NameOf(text: string): string
  {
    NameIn(SearchedLines(NonEmptyLines(text)))
  }

  /** The first regular-expression match, or "" when there is none. */
  function FirstMatch(matches: seq<string>): (m: string)
    ensures m == "" || m in matches
    ensures |matches| > 0 ==> m == matches[0]
  {
    if |matches| > 0 then matches[0] else ""
  }

  /** The contact record of `text`, given the email and phone matches in it. */
  function ContactOf(text: string, emails: seq<string>, phones: seq<string>): Contact
  {
    Contact(NameOf(text), FirstMatch(emails), FirstMatch(phones))
  }

  /** The name search of `extractContactInfo` over the non-empty lines: a
      bounded scan that skips title lines and stops at the first line shaped
      like a name. */
  method ScanForName(lines: seq<string>) returns (name: string)
    ensures name == NameIn(SearchedLines(lines))
  {
    var limit := Min(NameSearchLines, |lines|);
    ghost var searched := SearchedLines(lines);
    assert searched == lines[..limit];
    name := "";
    var i := 0;
    while i < limit
      invariant 0 <= i <= limit
      invariant name == ""
      invariant i <= FirstIndex(searched, QualifiesAsName)
    {
      var line := Trim(lines[i]);
      assert searched[i] == lines[i];
      if IsHeaderLine(line) {
        Disqualified(searched[i]);
        FirstIndexPast(searched, QualifiesAsName, i);
        i := i + 1;
        continue;
      }
      var words := NameWords(line);
      if 2 <= |words| <= 4 {
        var isLikelyName := AllNameWords(words);
        if isLikelyName && name == "" {
          Qualified(searched[i]);
          FirstIndexHit(searched, QualifiesAsName, i);
          name := Join(words, " ");
          break;
        }
      }
      Disqualified(searched[i]);
      FirstIndexPast(searched, QualifiesAsName, i);
      i := i + 1;
    }
  }

  /** The tests of the scan, case by case. */
  lemma Disqualified(line: string)
    requires var t := Trim(line); var words := NameWords(t);
      IsHeaderLine(t) || !(2 <= |words| <= 4) || !AllNameWords(words)
    ensures !QualifiesAsName(line)
  {
  }

  lemma Qualified(line: string)
    requires var t := Trim(line); var words := NameWords(t);
      !IsHeaderLine(t) && 2 <= |words| <= 4 && AllNameWords(words)
    ensures QualifiesAsName(line)
  {
  }

  /** `extractContactInfo`: the first email match, the first phone match and the name. */
  method ExtractContactInfo(text: string, emails: seq<string>, phones: seq<string>) returns (contact: Contact)
    ensures contact == ContactOf(text, emails, phones)
  {
    contact := Contact("", "", "");
    if |emails| > 0 {
      contact := contact.(email := emails[0]);
    }
    if |phones| > 0 {
      contact := contact.(phone := phones[0]);
    }
    var lines := NonEmptyLines(text);
    var name := ScanForName(lines);
    contact := contact.(name := name);
  }

  /** The words a line yields for a name are non-empty, space-free and
      longer than one UTF-16 code unit. */
  lemma NameWordsShape(line: string)
    ensures forall k | 0 <= k < |NameWords(line)| ::
      var w := NameWords(line)[k]; |w| > 0 && IsLongWord(w) && NoSpace(w)
  {
    var words := NameWords(line);
    FilterSound(Words(line), IsLongWord);
    forall k | 0 <= k < |words| ensures |words[k]| > 0 && IsLongWord(words[k]) && NoSpace(words[k]) {
      assert words[k] in words;
      var m :| 0 <= m < |Words(line)| && Words(line)[m] == words[k];
    }
  }

  /** A word shaped like a name is ASCII, so its JavaScript length is its
      number of characters. */
  lemma NameWordLength(w: string)
    requires IsNameWord(w)
    ensures Utf16Length(w) == |w|
  {
    Utf16LengthBmp(w);
  }

  /** A character outside the Basic Multilingual Plane is two code units
      long, so on its own it is kept as a word, and it is not shaped like a
      name: a line holding one never qualifies through it. */
  lemma AstralCharIsLongWord()
    ensures IsLongWord("\U{1F600}") && !IsNameWord("\U{1F600}")
  {
    assert "\U{1F600}"[..0] == "";
  }

  lemma NameFromNotEmpty(line: string)
    requires QualifiesAsName(line)
    ensures NameFrom(line) != ""
  {
    var words := NameWords(Trim(line));
    NameWordsShape(Trim(line));
    JoinNotEmpty(words, " ");
  }

  /** The name is "" exactly when no line qualifies; otherwise it comes from
      the first line that does, and no earlier line qualifies. Applied to
      the first ten non-empty lines of a text, this is the name it reports. */
  lemma NameInIsFirstQualifyingLine(ls: seq<string>)
    ensures NameIn(ls) == "" <==> forall j | 0 <= j < |ls| :: !QualifiesAsName(ls[j])
    ensures NameIn(ls) != "" ==>
      exists i | 0 <= i < |ls| ::
        && QualifiesAsName(ls[i])
        && (forall j | 0 <= j < i :: !QualifiesAsName(ls[j]))
        && NameIn(ls) == NameFrom(ls[i])
  {
    var i := FirstIndex(ls, QualifiesAsName);
    FirstIndexIsFirst(ls, QualifiesAsName);
    if i < |ls| {
      NameFromNotEmpty(ls[i]);
    }
  }

  /** A name that is found consists of two to four words shaped like names,
      none of them a single character, separated by single spaces. */
  lemma NameShape(ls: seq<string>)
    requires NameIn(ls) != ""
    ensures var ws := Words(NameIn(ls));
      && 2 <= |ws| <= 4
      && Join(ws, " ") == NameIn(ls)
      && forall k | 0 <= k < |ws| :: IsNameWord(ws[k]) && |ws[k]| > 1
  {
    var i := FirstIndex(ls, QualifiesAsName);
    var words := NameWords(Trim(ls[i]));
    NameWordsShape(Trim(ls[i]));
    WordsOfJoin(words);
    forall k | 0 <= k < |words| ensures |words[k]| > 1 {
      NameWordLength(words[k]);
    }
  }

  /** Only the first ten non-empty lines matter: lines after them never
      change the name. */
  lemma OnlyFirstLinesMatter(lines: seq<string>, more: seq<string>)
    requires |lines| >= NameSearchLines
    ensures NameIn(SearchedLines(lines + more)) == NameIn(SearchedLines(lines))
  {
    assert (lines + more)[..NameSearchLines] == lines[..NameSearchLines];
  }
}
