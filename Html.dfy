/** `escapeHtml` of the chat page: three chained `replaceAll` calls that turn
    `&`, `<` and `>` into character references, `&` first. */
module Html {

  /** `s.replaceAll(c, rep)` for a one-character pattern: every occurrence of
      `c`, scanned left to right, becomes `rep`. */
  function ReplaceAll(s: string, c: char, rep: string): (r: string) {
    if s == [] then []
    else (if s[0] == c then rep else [s[0]]) + ReplaceAll(s[1..], c, rep)
  }

  /** A non-empty replacement never shortens the text. */
  lemma {:induction false} ReplaceAllLonger(s: string, c: char, rep: string)
    requires rep != []
    ensures |ReplaceAll(s, c, rep)| >= |s|
  {
    if s != [] {
      ReplaceAllLonger(s[1..], c, rep);
    }
  }

  lemma {:induction false} ReplaceAllAppend(a: string, b: string, c: char, rep: string)
    ensures ReplaceAll(a + b, c, rep) == ReplaceAll(a, c, rep) + ReplaceAll(b, c, rep)
  {
    if a != [] {
      assert (a + b)[1..] == a[1..] + b;
      ReplaceAllAppend(a[1..], b, c, rep);
    } else {
      assert a + b == b;
    }
  }

  /** `escapeHtml(str)`, in the order the source applies the replacements. */
  function EscapeHtml(s: string): (r: string)
    ensures |r| >= |s|
  {
    var a := ReplaceAll(s, '&', "&amp;");
    var b := ReplaceAll(a, '<', "&lt;");
    ReplaceAllLonger(s, '&', "&amp;");
    ReplaceAllLonger(a, '<', "&lt;");
    ReplaceAllLonger(b, '>', "&gt;");
    ReplaceAll(b, '>', "&gt;")
  }

  /** What one character becomes. */
  function EscapeChar(c: char): (r: string) {
    if c == '&' then "&amp;"
    else if c == '<' then "&lt;"
    else if c == '>' then "&gt;"
    else [c]
  }

  /** The reference encoder: each character encoded on its own. */
  function EscapeEach(s: string): (r: string)
    ensures |r| >= |s|
  {
    if s == [] then [] else EscapeChar(s[0]) + EscapeEach(s[1..])
  }

  /** Because `&` is replaced first, the `&` of an inserted `&lt;` or `&gt;`
      is never escaped again: the chain encodes each character independently. */
  lemma {:induction false} EscapeHtmlIsPerCharacter(s: string)
    ensures EscapeHtml(s) == EscapeEach(s)
  {
    if s != [] {
      var c := s[0];
      assert s == [c] + s[1..];
      ReplaceAllAppend([c], s[1..], '&', "&amp;");
      var a1 := ReplaceAll([c], '&', "&amp;");
      var b1 := ReplaceAll(s[1..], '&', "&amp;");
      ReplaceAllAppend(a1, b1, '<', "&lt;");
      var a2 := ReplaceAll(a1, '<', "&lt;");
      var b2 := ReplaceAll(b1, '<', "&lt;");
      ReplaceAllAppend(a2, b2, '>', "&gt;");
      EscapeOne(c);
      EscapeHtmlIsPerCharacter(s[1..]);
    }
  }

  /** The chain on a single character. */
  lemma {:induction false} EscapeOne(c: char)
    ensures EscapeHtml([c]) == EscapeChar(c)
  {
    ReplaceAllOne(c, '&', "&amp;");
    if c == '&' {
      ReplaceAllAbsent("&amp;", '<', "&lt;");
      ReplaceAllAbsent("&amp;", '>', "&gt;");
    } else {
      ReplaceAllOne(c, '<', "&lt;");
      if c == '<' {
        ReplaceAllAbsent("&lt;", '>', "&gt;");
      } else {
        ReplaceAllOne(c, '>', "&gt;");
      }
    }
  }

  lemma ReplaceAllOne(c: char, x: char, rep: string)
    ensures ReplaceAll([c], x, rep) == if c == x then rep else [c]
  {
    assert [c][1..] == [];
  }

  lemma {:induction false} ReplaceAllAbsent(s: string, x: char, rep: string)
    requires forall i :: 0 <= i < |s| ==> s[i] != x
    ensures ReplaceAll(s, x, rep) == s
  {
    if s != [] {
      ReplaceAllAbsent(s[1..], x, rep);
    }
  }

  /** The escaped text holds no angle brackets. */
  lemma {:induction false} EscapedHasNoAngleBrackets(s: string)
    ensures forall i :: 0 <= i < |EscapeHtml(s)| ==> EscapeHtml(s)[i] != '<' && EscapeHtml(s)[i] != '>'
  {
    EscapeHtmlIsPerCharacter(s);
    EachHasNoAngleBrackets(s);
  }

  lemma {:induction false} EachHasNoAngleBrackets(s: string)
    ensures forall i :: 0 <= i < |EscapeEach(s)| ==> EscapeEach(s)[i] != '<' && EscapeEach(s)[i] != '>'
  {
    if s != [] {
      EachHasNoAngleBrackets(s[1..]);
      var e := EscapeEach(s);
      var h := EscapeChar(s[0]);
      assert e == h + EscapeEach(s[1..]);
      forall i | 0 <= i < |e| ensures e[i] != '<' && e[i] != '>' {
        if i >= |h| { assert e[i] == EscapeEach(s[1..])[i - |h|]; }
      }
    }
  }

  /** A text without `&`, `<` and `>` is left as it is: every other character,
      quotes included, passes through unchanged and in order. */
  lemma {:induction false} EscapeKeepsPlainText(s: string)
    requires forall i :: 0 <= i < |s| ==> s[i] != '&' && s[i] != '<' && s[i] != '>'
    ensures EscapeHtml(s) == s
  {
    EscapeHtmlIsPerCharacter(s);
    EachKeepsPlainText(s);
  }

  lemma {:induction false} EachKeepsPlainText(s: string)
    requires forall i :: 0 <= i < |s| ==> s[i] != '&' && s[i] != '<' && s[i] != '>'
    ensures EscapeEach(s) == s
  {
    if s != [] {
      EachKeepsPlainText(s[1..]);
    }
  }

  /** Decoding of the three references the encoder produces; any other
      character, including an `&` that starts none of them, stands for itself. */
  function Unescape(s: string): (r: string)
    ensures |r| <= |s|
    decreases |s|
  {
    if s == [] then []
    else if |s| >= 5 && s[..5] == "&amp;" then "&" + Unescape(s[5..])
    else if |s| >= 4 && s[..4] == "&lt;" then "<" + Unescape(s[4..])
    else if |s| >= 4 && s[..4] == "&gt;" then ">" + Unescape(s[4..])
    else [s[0]] + Unescape(s[1..])
  }

  /** Decoding the escaped text recovers the input, so no text is escaped
      twice and two different texts never escape alike. */
  lemma {:induction false} UnescapeEscape(s: string)
    ensures Unescape(EscapeHtml(s)) == s
  {
    EscapeHtmlIsPerCharacter(s);
    UnescapeEach(s);
  }

  lemma {:induction false} UnescapeEach(s: string)
    ensures Unescape(EscapeEach(s)) == s
    decreases |s|
  {
    if s != [] {
      assert EscapeEach(s) == EscapeChar(s[0]) + EscapeEach(s[1..]);
      UnescapeOne(s[0], EscapeEach(s[1..]));
      UnescapeEach(s[1..]);
    }
  }

  /** Decoding undoes the encoding of one character, whatever follows it. */
  lemma {:induction false} UnescapeOne(c: char, rest: string)
    ensures Unescape(EscapeChar(c) + rest) == [c] + Unescape(rest)
  {
    var e := EscapeChar(c) + rest;
    if c == '&' {
      assert e[..5] == "&amp;" && e[5..] == rest;
    } else if c == '<' {
      assert e[..4] == "&lt;" && e[4..] == rest;
      assert e[1] == 'l';
    } else if c == '>' {
      assert e[..4] == "&gt;" && e[4..] == rest;
      assert e[1] == 'g';
    } else {
      assert e[0] == c && e[1..] == rest;
    }
  }

  /** Two texts escape alike only if they are equal. */
  lemma EscapeInjective(s: string, t: string)
    requires EscapeHtml(s) == EscapeHtml(t)
    ensures s == t
  {
    UnescapeEscape(s);
    UnescapeEscape(t);
  }
}
