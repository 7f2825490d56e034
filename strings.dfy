/** Character classes and string operations the extractors are built from:
    JavaScript's white space (`\s`, `trim`) and word characters (`\w`),
    lower-casing, substring search (`includes`), `split("\n")`,
    `split(/\s+/)`, `join`, and the order-preserving filters and
    de-duplication the pipelines use. */
module Strings {

  datatype Option<T> = None | Some(value: T)

  /** A computation that either yields a value or throws an `Error` with a message. */
  datatype Result<T> = Ok(value: T) | Err(error: string)

  /** The characters JavaScript's `\s` matches and `String.prototype.trim`
      removes: white space and line terminators. */
  predicate IsSpace(c: char)
  {
    || c == ' ' || c == '\t' || c == '\n' || c == '\r'
    || c == '\U{000B}' || c == '\U{000C}' || c == '\U{00A0}' || c == '\U{1680}'
    || ('\U{2000}' <= c <= '\U{200A}')
    || c == '\U{2028}' || c == '\U{2029}' || c == '\U{202F}' || c == '\U{205F}'
    || c == '\U{3000}' || c == '\U{FEFF}'
  }

  predicate IsAsciiLetter(c: char)
  {
    ('a' <= c <= 'z') || ('A' <= c <= 'Z')
  }

  predicate IsDigit(c: char)
  {
    '0' <= c <= '9'
  }

  /** JavaScript's `\w`. */
  predicate IsWordChar(c: char)
  {
    IsAsciiLetter(c) || IsDigit(c) || c == '_'
  }

  predicate NotSpace(c: char)
  {
    !IsSpace(c)
  }

  predicate NoSpace(w: string)
  {
    forall k | 0 <= k < |w| :: !IsSpace(w[k])
  }

  function LowerChar(c: char): (d: char)
    ensures !('A' <= d <= 'Z')
    ensures 'A' <= c <= 'Z' || d == c
  {
    if 'A' <= c <= 'Z' then (c as int - 'A' as int + 'a' as int) as char else c
  }

  /** `toLowerCase`, on the ASCII letters. */
  function Lower(s: string): (t: string)
    ensures |t| == |s|
    ensures forall k | 0 <= k < |s| :: t[k] == LowerChar(s[k])
  {
    seq(|s|, k requires 0 <= k < |s| => LowerChar(s[k]))
  }

  /** Lower-casing leaves no ASCII capital, changes nothing the second time,
      and works piece by piece on a concatenation. */
  lemma LowerSpec(s: string, t: string)
    ensures forall k | 0 <= k < |Lower(s)| :: !('A' <= Lower(s)[k] <= 'Z')
    ensures Lower(Lower(s)) == Lower(s)
    ensures Lower(s + t) == Lower(s) + Lower(t)
  {
  }

  /** `s.length` in JavaScript: the number of UTF-16 code units, two for a
      character outside the Basic Multilingual Plane and one otherwise. */
  function Utf16Length(s: string): (n: nat)
    ensures |s| <= n <= 2 * |s|
  {
    if |s| == 0 then 0
    else Utf16Length(s[..|s| - 1]) + (if s[|s| - 1] >= '\U{10000}' then 2 else 1)
  }

  /** On text within the Basic Multilingual Plane, JavaScript's length is the
      number of characters. */
  lemma {:induction false} Utf16LengthBmp(s: string)
    requires forall k | 0 <= k < |s| :: s[k] < '\U{10000}'
    ensures Utf16Length(s) == |s|
  {
    if |s| > 0 {
      Utf16LengthBmp(s[..|s| - 1]);
    }
  }

  /** `s.includes(sub)`: `sub` occurs in `s` at some position (the empty string occurs everywhere). */
  predicate Contains(s: string, sub: string)
  {
    exists i | 0 <= i <= |s| - |sub| :: OccursAt(s, sub, i)
  }

  /** Text appended after `s` never hides an occurrence in `s`. */
  lemma ContainsExtend(s: string, t: string, sub: string)
    requires Contains(s, sub)
    ensures Contains(s + t, sub)
  {
    var i :| 0 <= i <= |s| - |sub| && OccursAt(s, sub, i);
    assert (s + t)[i..i + |sub|] == s[i..i + |sub|];
    assert OccursAt(s + t, sub, i);
  }

  /** A prefix of a contained string is contained too. */
  lemma ContainsPrefix(s: string, sub: string, n: nat)
    requires Contains(s, sub) && n <= |sub|
    ensures Contains(s, sub[..n])
  {
    var i :| 0 <= i <= |s| - |sub| && OccursAt(s, sub, i);
    assert s[i..i + n] == sub[..n];
    assert OccursAt(s, sub[..n], i);
  }

  /** `sub` occurs in `s` starting at position `i`. */
  predicate OccursAt(s: string, sub: string, i: nat)
  {
    i + |sub| <= |s| && s[i..i + |sub|] == sub
  }

  /** `parts.join(sep)`. */
  function Join(parts: seq<string>, sep: string): string
  {
    if |parts| == 0 then ""
    else if |parts| == 1 then parts[0]
    else parts[0] + sep + Join(parts[1..], sep)
  }

  /** `s.split("\n")`: the pieces between line feeds, in order; there is always at least one. */
  function Lines(s: string): (ls: seq<string>)
    ensures |ls| >= 1
    ensures forall k | 0 <= k < |ls| :: '\n' !in ls[k]
  {
    if |s| == 0 then [""]
    else
      var rest := Lines(s[1..]);
      if s[0] == '\n' then [""] + rest
      else [[s[0]] + rest[0]] + rest[1..]
  }

  /** Splitting into lines loses nothing: joining the lines with line feeds gives the text back. */
  lemma {:induction false} LinesJoin(s: string)
    ensures Join(Lines(s), "\n") == s
  {
    if |s| > 0 {
      var rest := Lines(s[1..]);
      LinesJoin(s[1..]);
      if s[0] == '\n' {
        assert Lines(s) == [""] + rest;
        assert s == [s[0]] + s[1..];
      } else {
        var ls := Lines(s);
        assert ls == [[s[0]] + rest[0]] + rest[1..];
        if |rest| == 1 {
          assert Join(rest, "\n") == rest[0];
        } else {
          assert Join(rest, "\n") == rest[0] + "\n" + Join(rest[1..], "\n");
          assert ls[1..] == rest[1..];
        }
        assert s == [s[0]] + s[1..];
      }
    }
  }

  /** Leading white space removed. */
  function TrimStart(s: string): (t: string)
    ensures |t| <= |s| && t == s[|s| - |t|..]
    ensures forall k | 0 <= k < |s| - |t| :: IsSpace(s[k])
    ensures |t| == 0 || !IsSpace(t[0])
  {
    if |s| > 0 && IsSpace(s[0]) then TrimStart(s[1..]) else s
  }

  /** Trailing white space removed. */
  function TrimEnd(s: string): (t: string)
    ensures |t| <= |s| && t == s[..|t|]
    ensures forall k | |t| <= k < |s| :: IsSpace(s[k])
    ensures |t| == 0 || !IsSpace(t[|t| - 1])
  {
    if |s| > 0 && IsSpace(s[|s| - 1]) then TrimEnd(s[..|s| - 1]) else s
  }

  /** `s.trim()`. */
  function Trim(s: string): (t: string)
  {
    TrimStart(TrimEnd(s))
  }

  /** A string is blank, in the sense of `!s.trim()`, exactly when it is all white space. */
  lemma TrimEmptyIffBlank(s: string)
    ensures Trim(s) == "" <==> forall k | 0 <= k < |s| :: IsSpace(s[k])
  {
    var e := TrimEnd(s);
    if Trim(s) == "" {
      if |e| > 0 {
        assert false;
      }
    } else {
      var t := Trim(s);
      assert t == e[|e| - |t|..];
      assert !IsSpace(s[|e| - |t|]);
    }
  }

  /** Trimming leaves neither leading nor trailing white space. */
  lemma TrimIsTrimmed(s: string)
    ensures var t := Trim(s); |t| == 0 || (!IsSpace(t[0]) && !IsSpace(t[|t| - 1]))
  {
    var e := TrimEnd(s);
    var t := Trim(s);
    if |t| > 0 {
      assert t == e[|e| - |t|..];
      assert t[|t| - 1] == e[|e| - 1];
    }
  }

  /** The first position at or after `i` holding white space, or the end of `s`. */
  function WordEnd(s: string, i: nat): (j: nat)
    requires i <= |s|
    ensures i <= j <= |s|
    ensures forall k | i <= k < j :: !IsSpace(s[k])
    ensures j == |s| || IsSpace(s[j])
    decreases |s| - i
  {
    if i == |s| || IsSpace(s[i]) then i else WordEnd(s, i + 1)
  }

  /** The maximal runs of non-space characters, in order: what `s.split(/\s+/)`
      returns once the empty strings it yields for leading or trailing white
      space are dropped. */
  function Words(s: string): (ws: seq<string>)
    ensures forall k | 0 <= k < |ws| :: |ws[k]| > 0 && NoSpace(ws[k])
    decreases |s|
  {
    if |s| == 0 then []
    else if IsSpace(s[0]) then Words(s[1..])
    else
      var j := WordEnd(s, 0);
      [s[..j]] + Words(s[j..])
  }

  /** The words concatenated. */
  function Concat(ws: seq<string>): string
  {
    if |ws| == 0 then "" else ws[0] + Concat(ws[1..])
  }

  /** Splitting at white space loses no other character: the pieces are
      non-empty and free of white space, and together they spell the text
      with its white space removed. */
  lemma {:induction false} WordsKeepNonSpace(s: string)
    ensures forall k | 0 <= k < |Words(s)| :: |Words(s)[k]| > 0 && NoSpace(Words(s)[k])
    ensures Concat(Words(s)) == Filter(s, NotSpace)
    decreases |s|
  {
    if |s| > 0 {
      if IsSpace(s[0]) {
        WordsKeepNonSpace(s[1..]);
        FilterDropsSpace(s);
      } else {
        var j := WordEnd(s, 0);
        WordsKeepNonSpace(s[j..]);
        FilterKeepsWord(s, j);
        assert Words(s)[1..] == Words(s[j..]);
      }
    }
  }

  /** `Words` splits at every white-space character and nowhere else: cutting
      the text at a white-space character splits its words into those before
      and those after the cut. With `WordsOfJoin` on a single space-free word,
      this determines `Words` completely. */
  lemma {:induction false} WordsSplitAtSpace(s: string, i: nat)
    requires i < |s| && IsSpace(s[i])
    ensures Words(s) == Words(s[..i]) + Words(s[i + 1..])
    decreases |s|
  {
    if IsSpace(s[0]) {
      if i == 0 {
        WordsDropSpace(s, i);
      } else {
        WordsSplitAtSpace(s[1..], i - 1);
        WordsDropSpace(s, i);
      }
    } else {
      var j := WordEndOfPrefix(s, i);
      WordsSplitAtSpace(s[j..], i - j);
      WordsTakeWord(s, i, j);
    }
  }

  /** Step of `WordsSplitAtSpace` past a leading white-space character. */
  lemma WordsDropSpace(s: string, i: nat)
    requires i < |s| && IsSpace(s[0])
    requires i > 0 ==> Words(s[1..]) == Words(s[1..][..i - 1]) + Words(s[1..][i..])
    ensures Words(s) == Words(s[..i]) + Words(s[i + 1..])
  {
    var p := s[..i];
    assert Words(s) == Words(s[1..]);
    if i == 0 {
      assert Words(p) == [];
    } else {
      assert Words(p) == Words(p[1..]);
      assert p[1..] == s[1..][..i - 1];
      assert s[1..][i..] == s[i + 1..];
    }
  }

  /** Step of `WordsSplitAtSpace` past a leading word that ends at `j`. */
  lemma WordsTakeWord(s: string, i: nat, j: nat)
    requires 0 < j <= i < |s| && j == WordEnd(s, 0) && j == WordEnd(s[..i], 0)
    requires Words(s[j..]) == Words(s[j..][..i - j]) + Words(s[j..][i - j + 1..])
    ensures Words(s) == Words(s[..i]) + Words(s[i + 1..])
  {
    WordsOfLeadingWord(s, j);
    WordsOfLeadingWord(s[..i], j);
    SlicesAround(s, i, j);
    Regroup(Words(s), Words(s[..i]), [s[..j]], Words(s[j..][..i - j]), Words(s[i + 1..]));
  }

  /** How the slices of `WordsTakeWord` relate. */
  lemma SlicesAround(s: string, i: nat, j: nat)
    requires j <= i < |s|
    ensures s[..i][..j] == s[..j] && s[..i][j..] == s[j..][..i - j] && s[j..][i - j + 1..] == s[i + 1..]
  {
  }

  /** Regrouping a concatenation: if `x` is `w` followed by `a` and `b`, and `p` is `w` followed by `a`, then `x` is `p` followed by `b`. */
  lemma Regroup<T>(x: seq<T>, p: seq<T>, w: seq<T>, a: seq<T>, b: seq<T>)
    requires x == w + (a + b) && p == w + a
    ensures x == p + b
  {
  }

  /** A text that starts with a word ending at `j` yields that word, then the words of the rest. */
  lemma WordsOfLeadingWord(s: string, j: nat)
    requires 0 < j <= |s| && j == WordEnd(s, 0)
    ensures Words(s) == [s[..j]] + Words(s[j..])
  {
  }

  /** The word at the start of `s` ends no later than the first white space
      at `i`, and cutting the text at `i` does not change where it ends. */
  lemma WordEndOfPrefix(s: string, i: nat) returns (j: nat)
    requires i < |s| && !IsSpace(s[0]) && IsSpace(s[i])
    ensures j == WordEnd(s, 0) && j == WordEnd(s[..i], 0) && 0 < j <= i
  {
    j := WordEnd(s, 0);
    var jp := WordEnd(s[..i], 0);
  }

  /** A leading white-space character is filtered out. */
  lemma FilterDropsSpace(s: string)
    requires |s| > 0 && IsSpace(s[0])
    ensures Filter(s, NotSpace) == Filter(s[1..], NotSpace)
  {
    assert s == [s[0]] + s[1..];
    FilterAppend([s[0]], s[1..], NotSpace);
    FilterSnoc([], s[0], NotSpace);
    assert [] + [s[0]] == [s[0]];
  }

  /** A leading run of non-space characters is kept whole. */
  lemma FilterKeepsWord(s: string, j: nat)
    requires j <= |s| && forall k | 0 <= k < j :: !IsSpace(s[k])
    ensures Filter(s, NotSpace) == s[..j] + Filter(s[j..], NotSpace)
  {
    assert s == s[..j] + s[j..];
    FilterAppend(s[..j], s[j..], NotSpace);
    FilterAll(s[..j], NotSpace);
  }

  /** Joining non-empty, space-free words with single spaces and splitting again gives the same words. */
  lemma {:induction false} WordsOfJoin(ws: seq<string>)
    requires forall k | 0 <= k < |ws| :: |ws[k]| > 0 && NoSpace(ws[k])
    ensures Words(Join(ws, " ")) == ws
    decreases |ws|
  {
    if |ws| == 0 {
    } else if |ws| == 1 {
      var w := ws[0];
      assert WordEnd(w, 0) == |w|;
      assert w[..|w|] == w;
      assert w[|w|..] == [];
    } else {
      var w := ws[0];
      var rest := Join(ws[1..], " ");
      var s := w + " " + rest;
      assert Join(ws, " ") == s;
      assert forall k | 0 <= k < |w| :: s[k] == w[k];
      assert s[|w|] == ' ';
      assert WordEnd(s, 0) == |w|;
      assert s[..|w|] == w;
      assert s[|w|..] == " " + rest;
      assert (" " + rest)[1..] == rest;
      WordsOfJoin(ws[1..]);
      assert Words(s) == [w] + Words(" " + rest);
    }
  }

  lemma JoinNotEmpty(ws: seq<string>, sep: string)
    requires |ws| > 0 && |ws[0]| > 0
    ensures |Join(ws, sep)| > 0
  {
  }

  /** The elements of `s` that satisfy `p`, in their order (`Array.prototype.filter`). */
  function Filter<T>(s: seq<T>, p: T -> bool): (r: seq<T>)
    ensures |r| <= |s|
  {
    if |s| == 0 then []
    else Filter(s[..|s| - 1], p) + (if p(s[|s| - 1]) then [s[|s| - 1]] else [])
  }

  /** Everything kept comes from `s` and satisfies `p`. */
  lemma {:induction false} FilterSound<T>(s: seq<T>, p: T -> bool)
    ensures forall x | x in Filter(s, p) :: x in s && p(x)
  {
    if |s| > 0 {
      FilterSound(s[..|s| - 1], p);
      assert forall x | x in s[..|s| - 1] :: x in s;
    }
  }

  /** Nothing that satisfies `p` is dropped. */
  lemma {:induction false} FilterKeeps<T>(s: seq<T>, p: T -> bool, x: T)
    requires x in s && p(x)
    ensures x in Filter(s, p)
  {
    if x != s[|s| - 1] {
      assert x in s[..|s| - 1];
      FilterKeeps(s[..|s| - 1], p, x);
    }
  }

  /** Filtering keeps a sequence whose every element satisfies `p`. */
  lemma {:induction false} FilterAll<T>(s: seq<T>, p: T -> bool)
    requires forall k | 0 <= k < |s| :: p(s[k])
    ensures Filter(s, p) == s
  {
    if |s| > 0 {
      FilterAll(s[..|s| - 1], p);
    }
  }

  /** Filtering a concatenation filters each part. */
  lemma {:induction false} FilterAppend<T>(a: seq<T>, b: seq<T>, p: T -> bool)
    ensures Filter(a + b, p) == Filter(a, p) + Filter(b, p)
    decreases |b|
  {
    if |b| == 0 {
      assert a + b == a;
    } else {
      var b' := b[..|b| - 1];
      FilterAppend(a, b', p);
      assert (a + b)[..|a + b| - 1] == a + b';
    }
  }

  /** Filtering a prefix one element longer. */
  lemma FilterSnoc<T>(s: seq<T>, x: T, p: T -> bool)
    ensures Filter(s + [x], p) == Filter(s, p) + (if p(x) then [x] else [])
  {
    assert (s + [x])[..|s|] == s;
  }

  /** The position of the first element of `s` satisfying `p`, or |s| if there is none. */
  function FirstIndex<T>(s: seq<T>, p: T -> bool): (i: nat)
    ensures i <= |s|
    ensures i < |s| ==> p(s[i])
  {
    if |s| == 0 then 0
    else if p(s[0]) then 0
    else 1 + FirstIndex(s[1..], p)
  }

  /** No element before the first index satisfies `p`. */
  lemma {:induction false} FirstIndexIsFirst<T>(s: seq<T>, p: T -> bool)
    ensures forall j | 0 <= j < FirstIndex(s, p) :: !p(s[j])
  {
    if |s| > 0 && !p(s[0]) {
      FirstIndexIsFirst(s[1..], p);
      forall j | 1 <= j < FirstIndex(s, p) ensures !p(s[j]) {
        assert s[j] == s[1..][j - 1];
      }
    }
  }

  /** A scan that has passed `i` without a hit may move on to i + 1. */
  lemma FirstIndexPast<T>(s: seq<T>, p: T -> bool, i: nat)
    requires i <= FirstIndex(s, p) && i < |s| && !p(s[i])
    ensures i + 1 <= FirstIndex(s, p)
  {
  }

  /** A scan that has passed `i` without a hit and hits at `i` has found the first index. */
  lemma FirstIndexHit<T>(s: seq<T>, p: T -> bool, i: nat)
    requires i <= FirstIndex(s, p) && i < |s| && p(s[i])
    ensures FirstIndex(s, p) == i
  {
    FirstIndexIsFirst(s, p);
  }

  /** `a` is `b` with some elements left out, the order kept. */
  predicate IsSubsequence<T(==)>(a: seq<T>, b: seq<T>)
  {
    if |a| == 0 then true
    else if |b| == 0 then false
    else
      || (a[|a| - 1] == b[|b| - 1] && IsSubsequence(a[..|a| - 1], b[..|b| - 1]))
      || IsSubsequence(a, b[..|b| - 1])
  }

  lemma {:induction false} SubsequenceTransitive<T>(a: seq<T>, b: seq<T>, c: seq<T>)
    requires IsSubsequence(a, b) && IsSubsequence(b, c)
    ensures IsSubsequence(a, c)
    decreases |c|
  {
    if |a| == 0 {
    } else {
      var c' := c[..|c| - 1];
      if IsSubsequence(b, c') {
        SubsequenceTransitive(a, b, c');
      } else {
        var b' := b[..|b| - 1];
        assert b[|b| - 1] == c[|c| - 1] && IsSubsequence(b', c');
        if a[|a| - 1] == b[|b| - 1] && IsSubsequence(a[..|a| - 1], b') {
          SubsequenceTransitive(a[..|a| - 1], b', c');
        } else {
          SubsequenceTransitive(a, b', c');
        }
      }
    }
  }

  /** Everything in a subsequence is in the whole. */
  lemma {:induction false} SubsequenceMembers<T>(a: seq<T>, b: seq<T>)
    requires IsSubsequence(a, b)
    ensures |a| <= |b|
    ensures forall x | x in a :: x in b
    decreases |b|
  {
    if |a| > 0 {
      var b' := b[..|b| - 1];
      if a[|a| - 1] == b[|b| - 1] && IsSubsequence(a[..|a| - 1], b') {
        SubsequenceMembers(a[..|a| - 1], b');
        assert forall x | x in a :: x in a[..|a| - 1] || x == a[|a| - 1];
      } else {
        SubsequenceMembers(a, b');
      }
      assert forall x | x in b' :: x in b;
    }
  }

  /** A subsequence of a sequence without repetitions has none either. */
  lemma {:induction false} SubsequenceDistinct<T>(a: seq<T>, b: seq<T>)
    requires IsSubsequence(a, b) && Distinct(b)
    ensures Distinct(a)
    decreases |b|
  {
    if |a| > 0 {
      var a' := a[..|a| - 1];
      var b' := b[..|b| - 1];
      assert Distinct(b');
      if a[|a| - 1] == b[|b| - 1] && IsSubsequence(a', b') {
        SubsequenceDistinct(a', b');
        SubsequenceMembers(a', b');
        assert b[|b| - 1] !in b';
        assert a == a' + [a[|a| - 1]];
      } else {
        SubsequenceDistinct(a, b');
      }
    }
  }

  lemma {:induction false} FilterIsSubsequence<T>(s: seq<T>, p: T -> bool)
    ensures IsSubsequence(Filter(s, p), s)
  {
    if |s| > 0 {
      var s' := s[..|s| - 1];
      FilterIsSubsequence(s', p);
      var r := Filter(s, p);
      if p(s[|s| - 1]) {
        assert r[..|r| - 1] == Filter(s', p);
      } else {
        assert r == Filter(s', p);
      }
    }
  }

  predicate Distinct<T(==)>(s: seq<T>)
  {
    forall i, j | 0 <= i < j < |s| :: s[i] != s[j]
  }

  /** `[...new Set(s)]`: the first occurrence of each element, in order. */
  function Dedup<T(==)>(s: seq<T>): (r: seq<T>)
    ensures |r| <= |s|
  {
    if |s| == 0 then []
    else
      var d := Dedup(s[..|s| - 1]);
      if s[|s| - 1] in d then d else d + [s[|s| - 1]]
  }

  /** De-duplication keeps exactly the elements of `s`, each once. */
  lemma {:induction false} DedupSpec<T>(s: seq<T>)
    ensures Distinct(Dedup(s))
    ensures forall x :: x in Dedup(s) <==> x in s
  {
    if |s| > 0 {
      var s' := s[..|s| - 1];
      DedupSpec(s');
      assert forall x | x in s :: x in s' || x == s[|s| - 1];
      assert forall x | x in s' :: x in s;
    }
  }

  lemma {:induction false} DedupIsSubsequence<T>(s: seq<T>)
    ensures IsSubsequence(Dedup(s), s)
  {
    if |s| > 0 {
      var s' := s[..|s| - 1];
      DedupIsSubsequence(s');
      var r := Dedup(s);
      if s[|s| - 1] !in Dedup(s') {
        assert r[..|r| - 1] == Dedup(s');
      }
    }
  }

  /** The position of the first occurrence of `x` in `s`, or |s| if there is none. */
  function IndexOf<T(==)>(s: seq<T>, x: T): (i: nat)
    ensures i <= |s|
    ensures i < |s| <==> x in s
    ensures i < |s| ==> s[i] == x
    ensures forall k | 0 <= k < i :: s[k] != x
  {
    if |s| == 0 then 0
    else if s[0] == x then 0
    else 1 + IndexOf(s[1..], x)
  }

  /** An occurrence with none before it is the first one. */
  lemma IndexOfAt<T>(s: seq<T>, x: T, i: nat)
    requires i < |s| && s[i] == x
    requires forall k | 0 <= k < i :: s[k] != x
    ensures IndexOf(s, x) == i
  {
  }

  /** What follows the first occurrence does not move it. */
  lemma IndexOfPrefix<T>(a: seq<T>, b: seq<T>, x: T)
    requires x in a
    ensures IndexOf(a + b, x) == IndexOf(a, x)
  {
    IndexOfAt(a + b, x, IndexOf(a, x));
  }

  /** De-duplication lists the elements in the order of their first
      occurrences, as a `Set` iterates in insertion order. */
  lemma {:induction false} DedupFirstOccurrenceOrder<T>(s: seq<T>)
    ensures forall i, j | 0 <= i < j < |Dedup(s)| :: IndexOf(s, Dedup(s)[i]) < IndexOf(s, Dedup(s)[j])
  {
    if |s| > 0 {
      var s', x := s[..|s| - 1], s[|s| - 1];
      var d := Dedup(s');
      var r := Dedup(s);
      assert s == s' + [x];
      DedupFirstOccurrenceOrder(s');
      DedupSpec(s');
      forall y | y in s' ensures IndexOf(s, y) == IndexOf(s', y) {
        IndexOfPrefix(s', [x], y);
      }
      if x !in d {
        IndexOfAt(s, x, |s'|);
        forall i, j | 0 <= i < j < |r| ensures IndexOf(s, r[i]) < IndexOf(s, r[j]) {
          assert r[i] == d[i] && d[i] in d;
          assert IndexOf(s, r[i]) == IndexOf(s', r[i]);
          if j < |d| {
            assert r[j] == d[j] && d[j] in d;
            assert IndexOf(s, r[j]) == IndexOf(s', r[j]);
          } else {
            assert r[j] == x;
          }
        }
      }
    }
  }

  /** A sequence without repetitions has as many distinct elements as entries. */
  lemma {:induction false} DistinctCard<T>(s: seq<T>)
    requires Distinct(s)
    ensures |set x | x in s| == |s|
  {
    if |s| > 0 {
      var s' := s[..|s| - 1];
      DistinctCard(s');
      assert (set x | x in s) == (set x | x in s') + {s[|s| - 1]};
      assert s[|s| - 1] !in (set x | x in s');
    }
  }

  function Min(a: int, b: int): int
  {
    if a <= b then a else b
  }

  /** `Math.max(...s)`. */
  function MaxOf(s: seq<int>): (m: int)
    requires |s| > 0
    ensures m in s
    ensures forall x | x in s :: x <= m
  {
    if |s| == 1 then s[0]
    else
      var m' := MaxOf(s[1..]);
      assert forall x | x in s :: x == s[0] || x in s[1..];
      if s[0] >= m' then s[0] else m'
  }

  /** `Math.min(...s)`. */
  function MinOf(s: seq<int>): (m: int)
    requires |s| > 0
    ensures m in s
    ensures forall x | x in s :: m <= x
  {
    if |s| == 1 then s[0]
    else
      var m' := MinOf(s[1..]);
      assert forall x | x in s :: x == s[0] || x in s[1..];
      if s[0] <= m' then s[0] else m'
  }
}
