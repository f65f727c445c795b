/** The list pass of `renderMarkdown` on the chat page: the text is split into
    lines, each maximal run of list lines is wrapped in `<ul>` … `</ul>` with
    one `<li>` per line, every other line is kept as it is, and the output
    lines are joined with `<br/>`. */
module Markdown {
  import opened Strings
  import Html

  /** The characters `.` does not match in a regular expression without the
      `s` flag. */
  predicate IsLineTerminator(c: char) {
    c == '\n' || c == '\r' || c == '\U{2028}' || c == '\U{2029}'
  }

  predicate NoLineTerminator(s: string) {
    forall i :: 0 <= i < |s| ==> !IsLineTerminator(s[i])
  }

  /** The match of `/^(\s*)[-*]\s+(.*)$/` (no `m` flag): after the leading
      white space comes `-` or `*`, then at least one white-space character,
      and what follows the white space after the marker holds no line
      terminator, since `$` only matches at the very end. */
  predicate IsListLine(line: string)
    ensures IsListLine(line) ==> |line| >= 2
  {
    var body := TrimStart(line);
    |body| >= 2 && (body[0] == '-' || body[0] == '*') && IsSpace(body[1])
    && NoLineTerminator(TrimStart(body[1..]))
  }

  /** The second capture group: the text after the marker and the white space
      that follows it. */
  function ItemText(line: string): (text: string)
    requires IsListLine(line)
    ensures |text| < |line|
  {
    TrimStart(TrimStart(line)[1..])
  }

  /** Every list line has the shape the pattern describes: leading white
      space, the marker, a non-empty run of white space, and the captured
      text, which holds no line terminator. */
  lemma {:induction false} ListLineShape(line: string)
    requires IsListLine(line)
    ensures var k := |line| - |TrimStart(line)|; var j := |line| - |ItemText(line)|;
      k + 1 < j <= |line| && AllSpace(line[..k]) && (line[k] == '-' || line[k] == '*')
      && AllSpace(line[k + 1..j]) && ItemText(line) == line[j..]
      && NoLineTerminator(line[j..])
  {
    var body := TrimStart(line);
    TrimStartSpec(line);
    var k := |line| - |body|;
    var b1 := body[1..];
    var rest := TrimStart(b1);
    TrimStartSpec(b1);
    assert rest == TrimStart(b1[1..]);
    var j := |line| - |rest|;
    assert b1 == line[k + 1..];
    assert line[k + 1..j] == b1[..|b1| - |rest|];
  }

  /** Conversely, every line of that shape matches, and the capture is the
      text after the maximal run of white space that follows the marker. */
  lemma {:induction false} ShapeIsListLine(lead: string, marker: char, gap: string, rest: string)
    requires AllSpace(lead) && (marker == '-' || marker == '*')
    requires gap != [] && AllSpace(gap) && NoLineTerminator(rest)
    ensures IsListLine(lead + [marker] + gap + rest)
    ensures ItemText(lead + [marker] + gap + rest) == TrimStart(rest)
  {
    var line := lead + [marker] + gap + rest;
    var body := [marker] + gap + rest;
    assert line == lead + body;
    TrimStartSkipsSpace(lead, body);
    assert body[0] == marker;
    assert TrimStart(body) == body;
    assert body[1..] == gap + rest;
    assert body[1] == gap[0];
    TrimStartSkipsSpace(gap, rest);
    TrimStartKeepsNoTerminator(rest);
  }

  lemma {:induction false} TrimStartKeepsNoTerminator(s: string)
    requires NoLineTerminator(s)
    ensures NoLineTerminator(TrimStart(s))
  {
    var r := TrimStart(s);
    TrimStartSpec(s);
    forall i | 0 <= i < |r| ensures !IsLineTerminator(r[i]) {
      assert r[i] == s[|s| - |r| + i];
    }
  }

  lemma {:induction false} TrimStartSkipsSpace(ws: string, s: string)
    requires AllSpace(ws)
    ensures TrimStart(ws + s) == TrimStart(s)
  {
    if ws != [] {
      assert (ws + s)[1..] == ws[1..] + s;
      TrimStartSkipsSpace(ws[1..], s);
    } else {
      assert ws + s == s;
    }
  }

  /** What the pass emits, before it becomes text: the tags it inserts and
      the lines it keeps. */
  datatype Piece = Open | Close | Item(text: string) | Verbatim(line: string)

  function Emit(p: Piece): (line: string) {
    match p
    case Open => "<ul>"
    case Close => "</ul>"
    case Item(text) => "<li>" + text + "</li>"
    case Verbatim(line) => line
  }

  function EmitAll(ps: seq<Piece>): (out: seq<string>)
    ensures |out| == |ps|
  {
    if ps == [] then [] else [Emit(ps[0])] + EmitAll(ps[1..])
  }

  /** The pass over `lines`, starting with the `inList` flag given. */
  function Group(lines: seq<string>, inList: bool): (ps: seq<Piece>)
    ensures |ps| >= |lines|
  {
    if lines == [] then (if inList then [Close] else [])
    else if IsListLine(lines[0]) then
      (if inList then [] else [Open]) + [Item(ItemText(lines[0]))] + Group(lines[1..], true)
    else
      (if inList then [Close] else []) + [Verbatim(lines[0])] + Group(lines[1..], false)
  }

  /** The pieces the pass emits for one input line, given whether a list is
      open. */
  function Head(line: string, inList: bool): (ps: seq<Piece>) {
    if IsListLine(line) then (if inList then [] else [Open]) + [Item(ItemText(line))]
    else (if inList then [Close] else []) + [Verbatim(line)]
  }

  lemma GroupCons(lines: seq<string>, inList: bool)
    requires lines != []
    ensures Group(lines, inList) == Head(lines[0], inList) + Group(lines[1..], IsListLine(lines[0]))
  {
  }

  lemma {:induction false} EmitAllAppend(a: seq<Piece>, b: seq<Piece>)
    ensures EmitAll(a + b) == EmitAll(a) + EmitAll(b)
  {
    if a == [] {
      assert a + b == b;
    } else {
      assert (a + b)[1..] == a[1..] + b;
      EmitAllAppend(a[1..], b);
    }
  }

  /** The output lines the pass emits for one input line, given whether a
      list is open. */
  function LineOutput(line: string, inList: bool): (out: seq<string>) {
    if IsListLine(line) then (if inList then [] else ["<ul>"]) + ["<li>" + ItemText(line) + "</li>"]
    else (if inList then ["</ul>"] else []) + [line]
  }

  /** The text of one line's output is its pieces, emitted one by one: the
      two descriptions of a single step agree. */
  lemma LineOutputIsEmitHead(line: string, inList: bool)
    ensures LineOutput(line, inList) == EmitAll(Head(line, inList))
  {
    var ps := Head(line, inList);
    if |ps| == 2 {
      assert ps[1..][1..] == [];
    } else {
      assert ps[1..] == [];
    }
  }

  /** The output lines of the pass over `lines`, starting with the `inList`
      flag given. */
  function Render(lines: seq<string>, inList: bool): (out: seq<string>)
    ensures |out| >= |lines|
  {
    if lines == [] then (if inList then ["</ul>"] else [])
    else LineOutput(lines[0], inList) + Render(lines[1..], IsListLine(lines[0]))
  }

  /** The output lines are the pieces of the grouping, emitted one by one. */
  lemma {:induction false} RenderIsEmitGroup(lines: seq<string>, inList: bool)
    ensures Render(lines, inList) == EmitAll(Group(lines, inList))
  {
    if lines == [] {
      if inList { assert EmitAll([Close]) == ["</ul>"]; }
    } else {
      var line := lines[0];
      var head := Head(line, inList);
      GroupCons(lines, inList);
      EmitAllAppend(head, Group(lines[1..], IsListLine(line)));
      LineOutputIsEmitHead(line, inList);
      RenderIsEmitGroup(lines[1..], IsListLine(line));
    }
  }

  /** Rendering from line `i` on: the output of line `i`, then the rest. */
  lemma {:induction false} RenderStep(lines: seq<string>, i: nat, inList: bool)
    requires i < |lines|
    ensures Render(lines[i..], inList) == LineOutput(lines[i], inList) + Render(lines[i + 1..], IsListLine(lines[i]))
  {
    assert lines[i..][1..] == lines[i + 1..];
  }

  /** Solver hint for `RenderLists`: regrouping a concatenation of output
      lines, stated once so the loop does not re-derive it per push. */
  lemma {:induction false} AppendAssoc(a: seq<string>, b: seq<string>, c: seq<string>)
    ensures a + b + c == a + (b + c)
  {
  }

  /** `renderMarkdown` from the line split on: the `for` loop over the lines
      with its `inList` flag, the final `</ul>` and the `<br/>` join. */
  method RenderLists(t: string) returns (html: string)
    ensures html == Join(Render(Split(t, '\n'), false), "<br/>")
  {
    var lines := Split(t, '\n');
    var out: seq<string> := [];
    var inList := false;
    for i := 0 to |lines|
      invariant out + Render(lines[i..], inList) == Render(lines, false)
    {
      var line := lines[i];
      RenderStep(lines, i, inList);
      ghost var out0, inList0 := out, inList;
      ghost var emitted: seq<string> := [];
      assert out == out0 + emitted;
      if IsListLine(line) {
        if !inList {
          inList := true;
          AppendAssoc(out0, emitted, ["<ul>"]);
          out, emitted := out + ["<ul>"], emitted + ["<ul>"];
        }
        var item := "<li>" + ItemText(line) + "</li>";
        AppendAssoc(out0, emitted, [item]);
        out, emitted := out + [item], emitted + [item];
      } else {
        if inList {
          AppendAssoc(out0, emitted, ["</ul>"]);
          out, emitted := out + ["</ul>"], emitted + ["</ul>"];
          inList := false;
        }
        AppendAssoc(out0, emitted, [line]);
        out, emitted := out + [line], emitted + [line];
      }
      assert emitted == LineOutput(line, inList0);
      AppendAssoc(out0, emitted, Render(lines[i + 1..], inList));
    }
    assert lines[|lines|..] == [];
    if inList {
      out := out + ["</ul>"];
    } else {
      assert out + [] == out;
    }
    html := Join(out, "<br/>");
  }

  /** The structure of the output: `Open` and `Close` alternate and never
      nest, starting closed and ending closed; each `Open` is followed by an
      item; items stand only inside a list and kept lines only outside one;
      a `Close` is never directly followed by an `Open`, so each list is a
      maximal run. */
  predicate WellNested(ps: seq<Piece>, open: bool)
    decreases |ps|
  {
    if ps == [] then !open
    else match ps[0]
      case Open => !open && |ps| > 1 && ps[1].Item? && WellNested(ps[1..], true)
      case Close => open && (|ps| == 1 || !ps[1].Open?) && WellNested(ps[1..], false)
      case Item(_) => open && WellNested(ps[1..], true)
      case Verbatim(_) => !open && WellNested(ps[1..], false)
  }

  lemma {:induction false} GroupWellNested(lines: seq<string>, inList: bool)
    ensures WellNested(Group(lines, inList), inList)
  {
    if lines != [] {
      var g := Group(lines, inList);
      var tail := Group(lines[1..], IsListLine(lines[0]));
      GroupWellNested(lines[1..], IsListLine(lines[0]));
      if IsListLine(lines[0]) {
        if !inList {
          assert g[1..] == [Item(ItemText(lines[0]))] + tail;
          assert g[1..][1..] == tail;
        } else {
          assert g[1..] == tail;
        }
      } else {
        if inList {
          assert g[1..] == [Verbatim(lines[0])] + tail;
          assert g[1..][1..] == tail;
        } else {
          assert g[1..] == tail;
        }
      }
    }
  }

  /** The pass's own output lines, that is, the pieces that are not tags. */
  function Payload(ps: seq<Piece>): (kept: seq<Piece>)
    ensures |kept| <= |ps|
  {
    if ps == [] then []
    else (if ps[0].Open? || ps[0].Close? then [] else [ps[0]]) + Payload(ps[1..])
  }

  /** What each input line becomes on its own: the item holding its capture
      if it is a list line, the line itself otherwise. */
  function Classify(line: string): (p: Piece) {
    if IsListLine(line) then Item(ItemText(line)) else Verbatim(line)
  }

  function ClassifyAll(lines: seq<string>): (ps: seq<Piece>)
    ensures |ps| == |lines|
    ensures forall k :: 0 <= k < |lines| ==> ps[k] == Classify(lines[k])
  {
    if lines == [] then [] else [Classify(lines[0])] + ClassifyAll(lines[1..])
  }

  /** Every list line yields exactly one item holding its capture and every
      other line is kept verbatim, one for one and in the input order. */
  lemma {:induction false} GroupPayload(lines: seq<string>, inList: bool)
    ensures Payload(Group(lines, inList)) == ClassifyAll(lines)
  {
    if lines == [] {
      if inList {
        assert Payload([Close]) == [] + Payload([]);
      }
    } else {
      var head := Head(lines[0], inList);
      var tail := Group(lines[1..], IsListLine(lines[0]));
      GroupCons(lines, inList);
      PayloadAppend(head, tail);
      HeadPayload(lines[0], inList);
      GroupPayload(lines[1..], IsListLine(lines[0]));
    }
  }

  /** Of the pieces for one line, only its item or kept line is payload. */
  lemma HeadPayload(line: string, inList: bool)
    ensures Payload(Head(line, inList)) == [Classify(line)]
  {
    var h := Head(line, inList);
    var p := Classify(line);
    assert Payload([p]) == [p] by {
      assert [p][1..] == [];
    }
    if |h| == 2 {
      assert h == [h[0]] + [p];
      assert h[1..] == [p];
    } else {
      assert h == [p];
    }
  }

  lemma {:induction false} PayloadAppend(a: seq<Piece>, b: seq<Piece>)
    ensures Payload(a + b) == Payload(a) + Payload(b)
  {
    if a == [] {
      assert a + b == b;
    } else {
      assert (a + b)[1..] == a[1..] + b;
      PayloadAppend(a[1..], b);
    }
  }

  /** The rendered text holds the output lines and one `<br/>` between each
      two of them: the output is never empty, since the split gives at least
      one line. */
  lemma RenderedLength(t: string)
    ensures var out := Render(Split(t, '\n'), false);
      |out| >= 1 && |Join(out, "<br/>")| == TotalLength(out) + (|out| - 1) * 5
  {
    var lines := Split(t, '\n');
    var out := Render(lines, false);
    assert out == LineOutput(lines[0], false) + Render(lines[1..], IsListLine(lines[0]));
    JoinLength(out, "<br/>");
  }

  predicate NoAngleBrackets(s: string) {
    forall i :: 0 <= i < |s| ==> s[i] != '<' && s[i] != '>'
  }

  /** `renderMarkdown` escapes its input before the pass, so every item and
      every kept line of the output is free of angle brackets: each `<` or `>`
      in the result belongs to a `<ul>`, `</ul>`, `<li>`, `</li>` or `<br/>`
      that the pass inserted. */
  lemma EscapedPiecesHaveNoTags(text: string)
    ensures var ps := Payload(Group(Split(Html.EscapeHtml(text), '\n'), false));
      forall k :: 0 <= k < |ps| ==> ContentHasNoAngleBrackets(ps[k])
  {
    var e := Html.EscapeHtml(text);
    Html.EscapedHasNoAngleBrackets(text);
    var lines := Split(e, '\n');
    SplitKeepsNoAngleBrackets(e, '\n');
    GroupPayload(lines, false);
    forall k | 0 <= k < |lines| ensures ContentHasNoAngleBrackets(Classify(lines[k])) {
      ClassifyKeepsNoAngleBrackets(lines[k]);
    }
  }

  /** The item or kept line holds no angle bracket. */
  predicate ContentHasNoAngleBrackets(p: Piece) {
    match p
    case Item(text) => NoAngleBrackets(text)
    case Verbatim(line) => NoAngleBrackets(line)
    case _ => false
  }

  lemma ClassifyKeepsNoAngleBrackets(line: string)
    requires NoAngleBrackets(line)
    ensures ContentHasNoAngleBrackets(Classify(line))
  {
    if IsListLine(line) {
      var r := ItemText(line);
      ListLineShape(line);
      forall i | 0 <= i < |r| ensures r[i] != '<' && r[i] != '>' {
        assert r[i] == line[|line| - |r| + i];
      }
    }
  }

  lemma {:induction false} SplitKeepsNoAngleBrackets(s: string, sep: char)
    requires NoAngleBrackets(s)
    ensures forall k :: 0 <= k < |Split(s, sep)| ==> NoAngleBrackets(Split(s, sep)[k])
  {
    if s != [] {
      SplitKeepsNoAngleBrackets(s[1..], sep);
      var rest := Split(s[1..], sep);
      if s[0] != sep {
        var first := [s[0]] + rest[0];
        forall i | 0 <= i < |first| ensures first[i] != '<' && first[i] != '>' {
          if i > 0 { assert first[i] == rest[0][i - 1]; }
        }
      }
    }
  }
}
