/** The JavaScript string operations that the chat backend and the chat page
    rely on, over strings of Unicode scalar values: `trim`, `endsWith`, the
    last element of `split(/\s+/)`, `split` on one character and `join`. */
module Strings {

  /** The ECMAScript WhiteSpace and LineTerminator code points: what
      `String.prototype.trim` removes and what the regular-expression class
      `\s` matches. */
  predicate IsSpace(c: char) {
    c == '\t' || c == '\n' || c == '\U{B}' || c == '\U{C}' || c == '\r' || c == ' '
    || c == '\U{A0}' || c == '\U{1680}' || ('\U{2000}' <= c <= '\U{200A}')
    || c == '\U{2028}' || c == '\U{2029}' || c == '\U{202F}' || c == '\U{205F}'
    || c == '\U{3000}' || c == '\U{FEFF}'
  }

  predicate AllSpace(s: string) {
    forall i :: 0 <= i < |s| ==> IsSpace(s[i])
  }

  /** `s.trimStart()`: drops the maximal run of leading white space. */
  function TrimStart(s: string): (r: string)
    ensures |r| <= |s|
  {
    if s != [] && IsSpace(s[0]) then TrimStart(s[1..]) else s
  }

  /** What `TrimStart` drops is white space, what it keeps is a suffix that
      does not start with white space. */
  lemma {:induction false} TrimStartSpec(s: string)
    ensures var r := TrimStart(s);
      r == s[|s| - |r|..] && AllSpace(s[..|s| - |r|]) && (r == [] || !IsSpace(r[0]))
  {
    if s != [] && IsSpace(s[0]) {
      TrimStartSpec(s[1..]);
      var r := TrimStart(s);
      assert s[1..][..|s| - 1 - |r|] == s[1..|s| - |r|];
    }
  }

  /** `s.trimEnd()`: drops the maximal run of trailing white space. */
  function TrimEnd(s: string): (r: string)
    ensures |r| <= |s| && r == s[..|r|]
    ensures AllSpace(s[|r|..])
    ensures r == [] || !IsSpace(r[|r| - 1])
  {
    if s != [] && IsSpace(s[|s| - 1]) then TrimEnd(s[..|s| - 1]) else s
  }

  /** `s.trim()`: drops white space at both ends. */
  function Trim(s: string): (r: string)
    ensures |r| <= |s|
  {
    TrimEnd(TrimStart(s))
  }

  /** The trimmed text is empty exactly when `s` is all white space, and
      otherwise neither starts nor ends with white space. */
  lemma {:induction false} TrimSpec(s: string)
    ensures var r := Trim(s);
      (r == [] <==> AllSpace(s)) && (r == [] || (!IsSpace(r[0]) && !IsSpace(r[|r| - 1])))
  {
    TrimStartSpec(s);
    TrimEmpty(s);
  }

  lemma {:induction false} TrimEmpty(s: string)
    ensures TrimEnd(TrimStart(s)) == [] <==> AllSpace(s)
  {
    var u := TrimStart(s);
    TrimStartSpec(s);
    var k := |s| - |u|;
    if TrimEnd(u) == [] {
      assert s[..k] == s;
    } else {
      assert u[0] == s[k];
    }
  }

  /** Where the trimmed text sits in `s`: after the leading white space that
      `TrimStart` drops and before a trailing run of white space. */
  lemma {:induction false} TrimInfix(s: string)
    ensures var k := |s| - |TrimStart(s)|; var r := Trim(s);
      k + |r| <= |s| && r == s[k..k + |r|] && AllSpace(s[..k]) && AllSpace(s[k + |r|..])
  {
    var u := TrimStart(s);
    TrimStartSpec(s);
    var r := TrimEnd(u);
    var k := |s| - |u|;
    assert s[k..k + |r|] == u[..|r|];
    assert s[k + |r|..] == u[|r|..];
  }

  /** Trimming twice is trimming once. */
  lemma {:induction false} TrimIdempotent(s: string)
    ensures Trim(Trim(s)) == Trim(s)
  {
    var t := Trim(s);
    TrimSpec(s);
    assert TrimStart(t) == t;
    assert TrimEnd(t) == t;
  }

  /** `s.endsWith(suffix)`. */
  predicate EndsWith(s: string, suffix: string) {
    |suffix| <= |s| && s[|s| - |suffix|..] == suffix
  }

  /** The last element of `s.split(/\s+/)`: the text after the last white-space
      character of `s` (all of `s` when it has none, empty when `s` ends with
      white space). */
  function LastWord(s: string): (w: string)
    ensures |w| <= |s|
  {
    if s == [] || IsSpace(s[|s| - 1]) then []
    else LastWord(s[..|s| - 1]) + [s[|s| - 1]]
  }

  /** The last word is a suffix without white space, and it is all of `s`
      or comes right after a white-space character. */
  lemma {:induction false} LastWordSpec(s: string)
    ensures var w := LastWord(s);
      w == s[|s| - |w|..] && (forall i :: 0 <= i < |w| ==> !IsSpace(w[i]))
      && (|w| == |s| || IsSpace(s[|s| - |w| - 1]))
  {
    if s != [] && !IsSpace(s[|s| - 1]) {
      var p := s[..|s| - 1];
      LastWordSpec(p);
      var w := LastWord(s);
      assert w == LastWord(p) + [s[|s| - 1]];
      assert p[|p| - |LastWord(p)|..] + [s[|s| - 1]] == s[|s| - |w|..];
      if |w| < |s| {
        assert s[|s| - |w| - 1] == p[|p| - |LastWord(p)| - 1];
      }
    }
  }

  /** The last word is whatever follows the last white-space character. */
  lemma {:induction false} LastWordAfterSpace(p: string, c: char, w: string)
    requires IsSpace(c)
    requires forall i :: 0 <= i < |w| ==> !IsSpace(w[i])
    ensures LastWord(p + [c] + w) == w
  {
    if w != [] {
      var s := p + [c] + w;
      assert s[..|s| - 1] == p + [c] + w[..|w| - 1];
      LastWordAfterSpace(p, c, w[..|w| - 1]);
    }
  }

  /** `s.split(sep)` for a one-character separator: the maximal runs of
      non-separator characters, including the empty ones between adjacent
      separators and at either end. */
  function Split(s: string, sep: char): (parts: seq<string>)
    ensures |parts| >= 1
    ensures forall k, i :: 0 <= k < |parts| && 0 <= i < |parts[k]| ==> parts[k][i] != sep
  {
    if s == [] then [""]
    else
      var rest := Split(s[1..], sep);
      if s[0] == sep then [""] + rest
      else [[s[0]] + rest[0]] + rest[1..]
  }

  /** `parts.join(sep)`; the empty array joins to the empty string. */
  function Join(parts: seq<string>, sep: string): (r: string)
    ensures |r| >= TotalLength(parts)
  {
    if |parts| == 0 then ""
    else if |parts| == 1 then parts[0]
    else parts[0] + sep + Join(parts[1..], sep)
  }

  /** Joining the parts of a split with the separator gives back the string. */
  lemma {:induction false} JoinSplit(s: string, sep: char)
    ensures Join(Split(s, sep), [sep]) == s
  {
    if s != [] {
      var rest := Split(s[1..], sep);
      JoinSplit(s[1..], sep);
      if s[0] == sep {
        assert Split(s, sep) == [""] + rest;
        assert Split(s, sep)[1..] == rest;
      } else {
        var parts := Split(s, sep);
        assert parts == [[s[0]] + rest[0]] + rest[1..];
        if |rest| == 1 {
          assert parts == [[s[0]] + rest[0]];
        } else {
          assert parts[1..] == rest[1..];
          assert Join(rest, [sep]) == rest[0] + [sep] + Join(rest[1..], [sep]);
        }
      }
    }
  }

  function TotalLength(parts: seq<string>): (n: nat) {
    if parts == [] then 0 else |parts[0]| + TotalLength(parts[1..])
  }

  /** A join of n >= 1 parts holds the parts and exactly n - 1 separators. */
  lemma {:induction false} JoinLength(parts: seq<string>, sep: string)
    requires |parts| >= 1
    ensures |Join(parts, sep)| == TotalLength(parts) + (|parts| - 1) * |sep|
  {
    if |parts| > 1 {
      JoinLength(parts[1..], sep);
    }
  }
}
