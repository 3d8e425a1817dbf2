/** The string operations the OBJ parser relies on: `isWhitespace`/`isBlank`,
    `trim`, the regular expressions `^[^\s]+` and `\s+`, and `split("/")`.
    Whitespace is the class `\s` of JavaScript regular expressions, which is
    also what `trim` and `isBlank` strip on the JavaScript target. */
module Text {

  predicate IsWhitespace(c: char) {
    || c in {' ', '\t', '\n', '\r', '\U{000B}', '\U{000C}', '\U{00A0}', '\U{1680}'}
    || ('\U{2000}' <= c <= '\U{200A}')
    || c in {'\U{2028}', '\U{2029}', '\U{202F}', '\U{205F}', '\U{3000}', '\U{FEFF}'}
  }

  /** `isBlank()`: empty or whitespace only */
  predicate IsBlank(s: string) {
    forall i :: 0 <= i < |s| ==> IsWhitespace(s[i])
  }

  predicate NoWhitespace(s: string) {
    forall i :: 0 <= i < |s| ==> !IsWhitespace(s[i])
  }

  /** Length of the whitespace run at the start of `s`. */
  function LeadingWhitespace(s: string): (n: nat)
    ensures n <= |s|
    ensures forall i :: 0 <= i < n ==> IsWhitespace(s[i])
    ensures n < |s| ==> !IsWhitespace(s[n])
  {
    if s == [] || !IsWhitespace(s[0]) then 0 else 1 + LeadingWhitespace(s[1..])
  }

  /** Length of the whitespace run at the end of `s`. */
  function TrailingWhitespace(s: string): (n: nat)
    ensures n <= |s|
    ensures forall i :: |s| - n <= i < |s| ==> IsWhitespace(s[i])
    ensures n < |s| ==> !IsWhitespace(s[|s| - n - 1])
  {
    if s == [] || !IsWhitespace(s[|s| - 1]) then 0 else 1 + TrailingWhitespace(s[..|s| - 1])
  }

  /** Length of the run of non-whitespace characters at the start of `s`:
      what the regular expression `^[^\s]+` matches. */
  function LeadingWord(s: string): (n: nat)
    ensures n <= |s|
    ensures forall i :: 0 <= i < n ==> !IsWhitespace(s[i])
    ensures n < |s| ==> IsWhitespace(s[n])
  {
    if s == [] || IsWhitespace(s[0]) then 0 else 1 + LeadingWord(s[1..])
  }

  /** `trim()`: `s` without its leading and trailing whitespace. */
  function Trim(s: string): (t: string)
    ensures exists i, j ::
              && 0 <= i <= j <= |s| && t == s[i..j]
              && (forall k :: 0 <= k < i ==> IsWhitespace(s[k]))
              && (forall k :: j <= k < |s| ==> IsWhitespace(s[k]))
    ensures t == [] <==> IsBlank(s)
    ensures t != [] ==> !IsWhitespace(t[0]) && !IsWhitespace(t[|t| - 1])
  {
    var i := LeadingWhitespace(s);
    if i == |s| then
      assert s[0..0] == [];
      []
    else
      var j := |s| - TrailingWhitespace(s[i..]);
      assert !IsWhitespace(s[i]);
      s[i..j]
  }

  /** `split("\\s+".toRegex())`: the pieces of `s` between maximal runs of
      whitespace; never empty, and `[""]` for the empty string. */
  function SplitWhitespace(s: string): (parts: seq<string>)
    ensures |parts| >= 1
    ensures forall k :: 0 <= k < |parts| ==> NoWhitespace(parts[k])
    decreases |s|
  {
    var i := LeadingWord(s);
    if i == |s| then [s]
    else
      var j := i + LeadingWhitespace(s[i..]);
      [s[..i]] + SplitWhitespace(s[j..])
  }

  /** The pieces with `gaps[k]` put back between piece k and piece k + 1. */
  function Interleave(parts: seq<string>, gaps: seq<string>): string
    requires |parts| == |gaps| + 1
  {
    if gaps == [] then parts[0] else parts[0] + gaps[0] + Interleave(parts[1..], gaps[1..])
  }

  /** Non-empty runs of whitespace. */
  predicate WhitespaceRuns(gaps: seq<string>) {
    forall k :: 0 <= k < |gaps| ==> gaps[k] != [] && IsBlank(gaps[k])
  }

  /** `gaps` are non-empty whitespace runs, one between each pair of
      neighbouring pieces, and putting them back gives `s`. */
  predicate JoinsTo(parts: seq<string>, gaps: seq<string>, s: string) {
    |parts| == |gaps| + 1 && WhitespaceRuns(gaps) && Interleave(parts, gaps) == s
  }

  /** Splitting on whitespace loses only the separators: putting a
      non-empty whitespace run back between neighbouring pieces gives the
      input. Since no piece holds whitespace, each run is a maximal one. */
  lemma {:induction false} SplitWhitespaceJoin(s: string)
    ensures exists gaps :: JoinsTo(SplitWhitespace(s), gaps, s)
    decreases |s|
  {
    if LeadingWord(s) == |s| {
      assert JoinsTo(SplitWhitespace(s), [], s);
    } else {
      var first, gap, tail := SplitUnfold(s);
      SplitWhitespaceJoin(tail);
      var gaps :| JoinsTo(SplitWhitespace(tail), gaps, tail);
      JoinStep(first, gap, SplitWhitespace(tail), gaps, tail, s);
    }
  }

  /** Only the first piece (before leading whitespace) and the last one
      (after trailing whitespace) can be empty. */
  lemma {:induction false} SplitWhitespaceInnerPieces(s: string)
    ensures forall k :: 0 < k < |SplitWhitespace(s)| - 1 ==> SplitWhitespace(s)[k] != []
    decreases |s|
  {
    if LeadingWord(s) < |s| {
      var first, gap, tail := SplitUnfold(s);
      SplitWhitespaceInnerPieces(tail);
    }
  }

  /** One step of `SplitWhitespace` on a string holding whitespace: the
      first piece, a non-empty whitespace run, then the pieces of the
      rest, which starts with a non-empty piece unless it is the last. */
  lemma SplitUnfold(s: string) returns (first: string, gap: string, tail: string)
    requires LeadingWord(s) < |s|
    ensures SplitWhitespace(s) == [first] + SplitWhitespace(tail)
    ensures first + gap + tail == s
    ensures gap != [] && IsBlank(gap)
    ensures |tail| < |s|
    ensures |SplitWhitespace(tail)| > 1 ==> SplitWhitespace(tail)[0] != []
  {
    var i := LeadingWord(s);
    var j := SplitStep(s);
    first, gap, tail := s[..i], s[i..j], s[j..];
    Reassemble(s, i, j);
  }

  /** Putting one more piece and run in front. */
  lemma JoinStep(first: string, gap: string, rest: seq<string>, gaps: seq<string>, tail: string, s: string)
    requires JoinsTo(rest, gaps, tail) && gap != [] && IsBlank(gap) && first + gap + tail == s
    ensures JoinsTo([first] + rest, [gap] + gaps, s)
  {
    var all := [gap] + gaps;
    forall k | 0 <= k < |all| ensures all[k] != [] && IsBlank(all[k]) {
      if k > 0 {
        assert all[k] == gaps[k - 1];
      }
    }
    assert ([first] + rest)[1..] == rest;
  }

  lemma Reassemble(s: string, i: int, j: int)
    requires 0 <= i <= j <= |s|
    ensures s[..i] + s[i..j] + s[j..] == s
  {
  }

  /** One step of `SplitWhitespace` on a string holding whitespace: the
      first piece, then a non-empty whitespace run up to `j`, then the
      pieces of the rest, which starts with a non-empty piece unless it is
      the last. */
  lemma SplitStep(s: string) returns (j: int)
    requires LeadingWord(s) < |s|
    ensures LeadingWord(s) < j <= |s|
    ensures j == LeadingWord(s) + LeadingWhitespace(s[LeadingWord(s)..])
    ensures IsBlank(s[LeadingWord(s)..j])
    ensures |SplitWhitespace(s[j..])| > 1 ==> SplitWhitespace(s[j..])[0] != []
  {
    var i := LeadingWord(s);
    j := i + LeadingWhitespace(s[i..]);
    assert s[i] == s[i..][0];
    RunIsBlank(s, i);
    var tail := s[j..];
    if tail != [] {
      assert tail[0] == s[i..][j - i];
    }
    FirstPieceNonEmpty(tail);
  }

  lemma RunIsBlank(s: string, i: int)
    requires 0 <= i <= |s|
    ensures i + LeadingWhitespace(s[i..]) <= |s|
    ensures IsBlank(s[i..i + LeadingWhitespace(s[i..])])
  {
    var j := i + LeadingWhitespace(s[i..]);
    forall k | 0 <= k < j - i ensures IsWhitespace(s[i..j][k]) {
      assert s[i..j][k] == s[i..][k];
    }
  }

  lemma FirstPieceNonEmpty(t: string)
    requires t != [] ==> !IsWhitespace(t[0])
    ensures |SplitWhitespace(t)| > 1 ==> SplitWhitespace(t)[0] != []
  {
    if t == [] {
      assert SplitWhitespace(t) == [t];
    }
  }

  /** `split("/".toRegex())` and every other split on one separator
      character: the pieces between separators, empty pieces included. */
  function Split(s: string, sep: char): (parts: seq<string>)
    ensures |parts| >= 1
    ensures forall k :: 0 <= k < |parts| ==> sep !in parts[k]
  {
    if s == [] then [""]
    else
      var rest := Split(s[1..], sep);
      if s[0] == sep then [""] + rest
      else [[s[0]] + rest[0]] + rest[1..]
  }

  /** Reassembles pieces with the separator between neighbours. */
  function Join(parts: seq<string>, sep: char): string
    requires |parts| >= 1
  {
    if |parts| == 1 then parts[0] else parts[0] + [sep] + Join(parts[1..], sep)
  }

  /** Splitting loses nothing: joining the pieces back gives the input. */
  lemma {:induction false} SplitJoin(s: string, sep: char)
    ensures Join(Split(s, sep), sep) == s
  {
    if s != [] {
      var rest := Split(s[1..], sep);
      SplitJoin(s[1..], sep);
      if s[0] != sep && |rest| > 1 {
        assert Split(s, sep)[1..] == rest[1..];
      }
    }
  }

  /** Splitting a trimmed, non-empty string on whitespace yields only
      non-empty words. */
  lemma {:induction false} SplitTrimmedWords(s: string)
    requires s != [] && !IsWhitespace(s[0]) && !IsWhitespace(s[|s| - 1])
    ensures forall k :: 0 <= k < |SplitWhitespace(s)| ==> SplitWhitespace(s)[k] != []
    decreases |s|
  {
    var i := LeadingWord(s);
    if i < |s| {
      var j := i + LeadingWhitespace(s[i..]);
      assert j < |s|;
      SplitTrimmedWords(s[j..]);
    }
  }
}
