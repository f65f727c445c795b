/** The truncation heuristic of the chat backend (`looksCut`): a guess, from
    the surface of an answer alone, whether the model stopped in the middle
    of it. */
module Truncation {
  import opened Strings

  /** Below this trimmed length an answer is never judged cut. */
  const MinLength: nat := 80
  /** A last word of at most this many characters that holds a letter is
      taken for a word cut short. */
  const ShortWord: nat := 4

  /** The class `[.!?…)\]"'\n]`: characters an answer may end with. */
  predicate EndsNiceChar(c: char) {
    c == '.' || c == '!' || c == '?' || c == '\U{2026}' || c == ')' || c == ']'
    || c == '"' || c == '\'' || c == '\n'
  }

  /** The class `[A-Za-zÀ-ÿ]`: ASCII letters and U+00C0 to U+00FF, which also
      holds the signs U+00D7 and U+00F7. */
  predicate IsLetter(c: char) {
    ('A' <= c <= 'Z') || ('a' <= c <= 'z') || ('\U{C0}' <= c <= '\U{FF}')
  }

  predicate IsDigit(c: char) {
    '0' <= c <= '9'
  }

  /** The class `[,;:]`: punctuation after which a sentence must go on. */
  predicate IsConnector(c: char) {
    c == ',' || c == ';' || c == ':'
  }

  /** The class `[A-Za-zÀ-ÿ0-9,;:]`. */
  predicate SuspiciousChar(c: char) {
    IsLetter(c) || IsDigit(c) || IsConnector(c)
  }

  predicate HasLetter(w: string) {
    exists i :: 0 <= i < |w| && IsLetter(w[i])
  }

  /** The ellipsis test on the trimmed text. */
  predicate EndsWithEllipsis(t: string) {
    EndsWith(t, "...") || EndsWith(t, "\U{2026}")
  }

  /** `looksCut(text)`: false for an empty text and for a text whose trimmed
      length is under `MinLength`; true for a trimmed text that ends in an
      ellipsis; otherwise true when the last character is suspicious and does
      not end nicely, when the last whitespace-delimited word is short and
      holds a letter, or when the text ends with a connector. */
  predicate LooksCut(text: string)
    ensures LooksCut(text) ==> |Trim(text)| >= MinLength
  {
    if text == [] then false
    else
      var t := Trim(text);
      if |t| < MinLength then false
      else if EndsWithEllipsis(t) then true
      else
        var lastChar := t[|t| - 1];
        var endsNice := EndsNiceChar(lastChar);
        var suspiciousEnd := SuspiciousChar(lastChar) && !endsNice;
        var lastWord := LastWord(t);
        var midWord := |lastWord| <= ShortWord && HasLetter(lastWord);
        var endsWithConnector := IsConnector(lastChar);
        suspiciousEnd || midWord || endsWithConnector
  }

  /** Empty text, and any text whose trimmed length is under 80, is not cut. */
  lemma ShortTextIsNotCut(text: string)
    requires |Trim(text)| < MinLength
    ensures !LooksCut(text)
  {
  }

  /** A trimmed text of at least 80 characters ending in "..." or "…" is cut. */
  lemma EllipsisIsCut(text: string)
    requires |Trim(text)| >= MinLength
    requires EndsWithEllipsis(Trim(text))
    ensures LooksCut(text)
  {
  }

  /** The two classes are disjoint, so `!endsNice` never changes
      `suspiciousEnd`. */
  lemma NiceAndSuspiciousDisjoint(c: char)
    ensures !(EndsNiceChar(c) && SuspiciousChar(c))
  {
  }

  /** A trimmed text never ends with white space, so the newline in the
      "ends nice" class can never be the last character looked at. */
  lemma LastCharIsNotNewline(text: string)
    requires Trim(text) != []
    ensures Trim(text)[|Trim(text)| - 1] != '\n'
  {
  }

  /** Past the length gate and without an ellipsis, the verdict is exactly:
      the last character is a letter, a digit or a connector, or the last
      word has at most four characters and holds a letter. */
  lemma LooksCutCharacterization(text: string)
    requires |Trim(text)| >= MinLength
    requires !EndsWithEllipsis(Trim(text))
    ensures var t := Trim(text); var w := LastWord(t);
      LooksCut(text) <==> SuspiciousChar(t[|t| - 1]) || (|w| <= ShortWord && HasLetter(w))
  {
    var t := Trim(text);
    NiceAndSuspiciousDisjoint(t[|t| - 1]);
  }

  /** A text ending with `,`, `;` or `:` after trimming is cut, whatever its
      last word: a connector is itself a suspicious last character. */
  lemma ConnectorIsCut(text: string)
    requires |Trim(text)| >= MinLength
    ensures var t := Trim(text); IsConnector(t[|t| - 1]) ==> LooksCut(text)
  {
  }

  /** A text that ends with one of `. ! ? ) ] " '` and whose last word is
      longer than four characters is not cut (and no ellipsis ending). */
  lemma NiceEndingWithLongWordIsNotCut(text: string)
    requires |Trim(text)| >= MinLength
    requires !EndsWithEllipsis(Trim(text))
    requires EndsNiceChar(Trim(text)[|Trim(text)| - 1])
    requires |LastWord(Trim(text))| > ShortWord
    ensures !LooksCut(text)
  {
  }

  /** A short final word still counts as a cut even after a full stop: the
      last word keeps its punctuation, so "fim." is a four-character word
      with letters. */
  lemma ShortWordAfterFullStopIsCut(text: string)
    requires |Trim(text)| >= MinLength
    requires EndsWith(Trim(text), " fim.")
    ensures LooksCut(text)
  {
    var t := Trim(text);
    var n := |t|;
    assert t == t[..n - 5] + [' '] + "fim.";
    LastWordAfterSpace(t[..n - 5], ' ', "fim.");
    assert IsLetter(LastWord(t)[0]);
  }

  /** Judging a text and judging its trimmed form agree, so the verdict on the
      buffer is also the verdict on the answer the handler returns. */
  lemma {:induction false} LooksCutOfTrim(text: string)
    ensures LooksCut(Trim(text)) == LooksCut(text)
  {
    TrimIdempotent(text);
  }
}
