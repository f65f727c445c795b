# NearbyMe chat: a verified model of the backend handler and the chat-page renderer

This project models the two pieces of the NearbyMe chat assistant that hold real decision logic, and proves what they promise.

- **The backend `/chat` handler** (`backend/server.js`). It checks that the API key is configured and the message is valid. It turns the client's history into the upstream context and calls the model once. Then it keeps asking the model to continue while the answer is not reported finished, or looks cut. It stops after ten continuations. The truncation heuristic `looksCut` is modelled exactly, character classes included.
- **The chat page's text rendering** (`frontend-teste/script.js`). This covers `escapeHtml` and the list pass of `renderMarkdown`. The list pass wraps each run of list lines in `<ul>`…`</ul>`, with one `<li>` per line, and joins the output lines with `<br/>`.

The upstream model (`callGemini`) is an oracle. `upstream[k]` is the reply to call `k`, and call 0 is the first call. A reply is a normalized success (`Ok`), an HTTP error (`HttpErr`) or an uncaught exception (`Throws`).

The handler runs as the imperative method `ChatHandler.HandleChat`. It is a `while` loop with `break` exits and is proved equal to the reference function `ChatHandler.Handle`. The handler's properties are proved about `Handle`.

In the same way, the list pass runs as the method `Markdown.RenderLists`, a `for` loop with an `inList` flag. It is proved equal to the function `Markdown.Render`. That function is tied to a structured form, `Markdown.Group`, which emits tags, items and kept lines.

Modules:

- `Strings`: the JavaScript string operations used: `trim`, `endsWith`, the last element of `split(/\s+/)`, `split` on one character, and `join`.
- `Truncation`: `looksCut`.
- `ChatHandler`: validation, history conversion, the first call and the continuation loop.
- `Html`: `escapeHtml`.
- `Markdown`: the list pass and the `<br/>` join.

## Model

| member | source | states |
|---|---|---|
| Strings.Trim | backend/server.js:17 | `trim()`: white space is stripped from both ends, so the result is never longer than the input (what it keeps is pinned down by TrimSpec and TrimInfix) |
| Strings.TrimSpec | backend/server.js:17 | `trim` gives the empty text exactly when the text is all white space; otherwise the result neither starts nor ends with white space |
| Strings.TrimInfix | backend/server.js:17 | the trimmed text is the slice of the input between a leading and a trailing run of white space |
| Strings.TrimIdempotent | backend/server.js:200 | trimming twice is trimming once, so trimming the final answer again changes nothing |
| Strings.LastWordSpec | backend/server.js:27 | the last element of `split(/\s+/)` is a suffix with no white space, and it is either the whole text or preceded by white space |
| Strings.LastWordAfterSpace | backend/server.js:27 | whatever follows the last white-space character is the last word |
| Strings.LastWord | backend/server.js:27 | the last element of `split(/\s+/)`, never longer than the text (its shape is pinned down by LastWordSpec) |
| Strings.Split | frontend-teste/script.js:46 | `split("\n")` gives at least one part, and no part holds the separator |
| Strings.Join | frontend-teste/script.js:69 | `join(sep)` holds every part, so it is at least as long as the parts together (JoinLength counts the separators exactly) |
| Strings.JoinSplit | frontend-teste/script.js:46 | joining the lines of `split("\n")` with `"\n"` gives back the text, so the split loses nothing |
| Strings.JoinLength | frontend-teste/script.js:69 | a join of n >= 1 parts holds the parts and exactly n - 1 separators |
| Truncation.LooksCut | backend/server.js:15-33 | `looksCut`: a text judged cut always has a trimmed length of at least 80 (the full decision is LooksCutCharacterization) |
| Truncation.ShortTextIsNotCut | backend/server.js:16-18 | empty text, and any text whose trimmed length is under 80, is not judged cut |
| Truncation.EllipsisIsCut | backend/server.js:20 | a trimmed text of at least 80 characters that ends in "..." or "…" is judged cut |
| Truncation.LooksCutCharacterization | backend/server.js:22-32 | past the length gate and without an ellipsis, the text is judged cut if and only if its last character is a letter, a digit or `,;:`, or its last word has at most 4 characters and holds a letter |
| Truncation.NiceAndSuspiciousDisjoint | backend/server.js:23-25 | the "ends nice" and "suspicious" classes are disjoint, so `!endsNice` never changes `suspiciousEnd` |
| Truncation.ConnectorIsCut | backend/server.js:25-30 | a text past the length gate that ends with `,`, `;` or `:` is judged cut |
| Truncation.LastCharIsNotNewline | backend/server.js:17-23 | the last character of the trimmed text is never `\n`, so that member of the "ends nice" class never applies |
| Truncation.NiceEndingWithLongWordIsNotCut | backend/server.js:22-32 | a text past the length gate that does not end in an ellipsis, ends in one of `. ! ? ) ] " '` and whose last word has more than 4 characters is not judged cut |
| Truncation.ShortWordAfterFullStopIsCut | backend/server.js:27-28 | a text past the length gate (trimmed length at least 80) that ends in " fim." is judged cut, because the last word keeps its punctuation |
| Truncation.LooksCutOfTrim | backend/server.js:17 | judging a text and judging its trimmed form agree |
| ChatHandler.FinishReason | backend/server.js:71 | the reported finish reason is never empty: it is the candidate's own when that is present and non-empty, "UNKNOWN" otherwise |
| ChatHandler.ToTurn | backend/server.js:141-145 | a kept entry becomes a turn with its own content, and the turn is the model's exactly when the role is "assistant" |
| ChatHandler.HistoryTurns | backend/server.js:138-146 | the recursive reference definition of the history conversion that the `for` loop of BuildContents is proved against: it keeps only entries with a string content, so it never yields more turns than there are entries (HistoryTurnsLength gives the exact count) |
| ChatHandler.HistoryTurnsAppend | backend/server.js:138-146 | converting two pieces of a history and concatenating is converting the whole, so order is kept and skipped entries move nothing |
| ChatHandler.HistoryTurnsSingle | backend/server.js:139 | an entry that is falsy or has no string content gives no turn; any other gives exactly one |
| ChatHandler.HistoryTurnsLength | backend/server.js:138-146 | the converted history holds one turn per kept entry |
| ChatHandler.BuildContents | backend/server.js:135-148 | the first context is the converted history (a non-array history counts as empty) followed by the message as a user turn, so it has one turn more than there are kept entries |
| ChatHandler.Accumulate | backend/server.js:188-190 | adding a continuation chunk never shortens the buffer (AccumulateExtends states exactly what is appended) |
| ChatHandler.Gather | backend/server.js:162-190 | the `fullText` buffer after the first n calls, all successful: the first chunk as sent (line 162), then each later chunk accumulated in call order (lines 188-190); it is never shorter than the first chunk |
| ChatHandler.AccumulateExtends | backend/server.js:188-190 | the buffer only grows; a chunk that is blank after trimming leaves it unchanged; any other chunk is appended trimmed, after a newline unless the buffer already ends with one |
| ChatHandler.SentContextGrows | backend/server.js:165-194 | each context sent extends the previous one by two turns, the model's chunk and the continuation prompt, so the context is only appended to |
| ChatHandler.Loop | backend/server.js:167-203 | the continuation loop from a given state makes at most as many further calls as continuations remain before the limit of 10 |
| ChatHandler.Handle | backend/server.js:76-207 | the reference handler: checks, first call, loop and catch; it never makes more than 11 upstream calls |
| ChatHandler.HandleChat | backend/server.js:76-207 | the handler body (checks, history loop, first call, `while` loop with its three `break`s, the catch) produces the response and the sequence of contexts sent that the reference `Handle` defines |
| ChatHandler.LoopSettles | backend/server.js:167-203 | from any state the loop reaches, the outcome is settled: every reply but the last was a success after which the answer had to be continued; call k was sent the k-th context; the last reply decides the response |
| ChatHandler.HandleSettles | backend/server.js:154-203 | once the checks pass and the first call succeeds, the handler's outcome is settled over the first context |
| ChatHandler.HandleShape | backend/server.js:80-206 | a refused request makes no call; a failed first call is the only call; otherwise at most 11 calls are made, all contexts are the ones built from the replies, and a failure comes only from an exception on the last call |
| ChatHandler.HandleValidatesFirst | backend/server.js:80-88 | a missing or empty API key (`ChatHandler.KeyConfigured`, line 80) gives 500 whatever the message; then a missing, empty or non-string message (`ChatHandler.MessageValid`, line 86) gives 400; neither makes an upstream call |
| ChatHandler.HandleFirstCallFails | backend/server.js:154-160 | a failed first call is the only call: an HTTP error passes on its status (500 when it has none) and its message, an exception gives 500 "Erro interno" |
| ChatHandler.HandleCallCount | backend/server.js:150-203 | at most 11 calls; an answer reports `continued` <= 10 and exactly 1 + `continued` calls were made; a valid request makes a first call with the history and the message |
| ChatHandler.HandleContextGrows | backend/server.js:165-194 | call k (k > 0) is sent the context of call k - 1 followed by the model's chunk from call k - 1 and the continuation prompt |
| ChatHandler.CompleteFirstAnswer | backend/server.js:162-203 | a first answer reported "STOP" that does not look cut is returned trimmed, with `continued` 0 and one call |
| ChatHandler.NeverStopping | backend/server.js:167-197 | for a request that passes both checks, if every one of the 11 calls succeeds and none reports "STOP", all 11 calls are made, `continued` is 10 and the answer is the eleven chunks gathered and trimmed, with the last call's finish reason |
| ChatHandler.ContinuationFailureKeepsAnswer | backend/server.js:185-203 | an HTTP error on any continuation call k (1 <= k <= 10), after k successful calls that each had to be continued, ends the loop with a successful answer: exactly k + 1 calls, the k chunks gathered and trimmed, the finish reason of call k - 1, and `continued` = k, already counting the failed call |
| ChatHandler.ExceptionIsInternalError | backend/server.js:204-206 | a failure after the first call comes only from an exception on the last call made, and it is 500 "Erro interno" |
| ChatHandler.SettledFacts | backend/server.js:167-203 | in a settled outcome the first call is sent the first context, an answer counts its continuation calls, and a failure is 500 "Erro interno" from an exception |
| Html.EscapeHtml | frontend-teste/script.js:16-21 | `escapeHtml`: three chained `Html.ReplaceAll` calls, each the one-character `replaceAll` of lines 18-20; the chain never shortens the text (EscapeHtmlIsPerCharacter gives the exact encoding) |
| Html.EscapeHtmlIsPerCharacter | frontend-teste/script.js:16-21 | because `&` is replaced first, the three chained `replaceAll` calls encode each character on its own |
| Html.EscapedHasNoAngleBrackets | frontend-teste/script.js:16-21 | the escaped text holds no `<` and no `>` |
| Html.EscapeKeepsPlainText | frontend-teste/script.js:17-20 | a text without `&`, `<` and `>` is left unchanged, quotes included |
| Html.UnescapeEscape | frontend-teste/script.js:17-20 | decoding `&amp;`, `&lt;` and `&gt;` recovers the input, so nothing is escaped twice |
| Html.EscapeInjective | frontend-teste/script.js:16-21 | two texts escape alike only if they are equal |
| Markdown.IsListLine | frontend-teste/script.js:51 | whether `^(\s*)[-*]\s+(.*)$` matches the line; a matching line has at least the marker and one white-space character |
| Markdown.ItemText | frontend-teste/script.js:51 | the regular expression's capture, strictly shorter than the line since the marker is dropped |
| Markdown.ListLineShape | frontend-teste/script.js:51 | a line matching `^(\s*)[-*]\s+(.*)$` is leading white space, the marker, a non-empty run of white space and the captured text, which holds no line terminator |
| Markdown.ShapeIsListLine | frontend-teste/script.js:51 | every line of that shape matches, and the capture is the text after the white space that follows the marker |
| Markdown.RenderLists | frontend-teste/script.js:46-69 | the `for` loop with its `inList` flag, the final `</ul>` and the `<br/>` join give the output lines of the reference pass, joined by `<br/>` |
| Markdown.Render | frontend-teste/script.js:50-66 | the output lines of the list pass, at least one per input line (RenderIsEmitGroup ties it to Group) |
| Markdown.Group | frontend-teste/script.js:50-66 | the same pass as tags, items and kept lines: at least one piece per input line (GroupWellNested and GroupPayload state the structure) |
| Markdown.RenderIsEmitGroup | frontend-teste/script.js:50-66 | the output lines are the tags, items and kept lines of the grouping, emitted in order |
| Markdown.GroupWellNested | frontend-teste/script.js:53-66 | `<ul>` and `</ul>` alternate and never nest; the output starts and ends outside a list; each `<ul>` is followed by an item; items stand only inside a list and kept lines only outside one; a `</ul>` is never directly followed by a `<ul>`, so each list is a maximal run |
| Markdown.GroupPayload | frontend-teste/script.js:51-63 | leaving out the tags, the output is one piece per input line, in input order: an item holding the capture for a list line, the line itself otherwise |
| Markdown.ClassifyAll | frontend-teste/script.js:50-65 | one piece per line, each being that line's item or kept line |
| Markdown.RenderedLength | frontend-teste/script.js:69 | the output is never empty, and the rendered text holds its lines and exactly one `<br/>` between each two |
| Markdown.EscapedPiecesHaveNoTags | frontend-teste/script.js:31-65 | since the text is escaped first, no item and no kept line holds `<` or `>`; every angle bracket in the list pass's output belongs to a tag it inserted |

## Left out

- Express setup, CORS, the JSON body limit, the `/health` route and `app.listen` (backend/server.js:1-13, 210-214) are HTTP plumbing. They are not modelled.
- The body of `callGemini` (backend/server.js:35-74) is a network client. It covers the fetch, the headers, `resp.json()` and the extraction of the parts. The model keeps only its normalized result: a success with the joined text and the raw finish reason, an HTTP error with its status and message, or an exception. Only the `finishReason` default of line 71 is modelled.
- The `raw` field of the first-call error response (backend/server.js:159) is not modelled. Neither is the generation configuration.
- The system instruction (backend/server.js:90-133) is a constant passed on every call. It is not modelled. The continuation prompt is kept as a constant string.
- `console.error` in the catch (backend/server.js:205) is logging. It is not modelled.
- `async`/`await`: the calls are strictly sequential with one in flight, so the loop is a plain loop over the oracle.
- ChatHandler.HandleChat: requires an oracle that scripts at least 11 replies, the most the handler can ever consume, and so does the reference `ChatHandler.Handle`. Replies past the last call made are never read.
- The handler's response for a first-call HTTP error keeps only its status and message. An HTTP status is modelled as any natural number, and 0 stands for a missing one.
- The regex rewrites of `renderMarkdown` (frontend-teste/script.js:34-42) are not modelled. These are the horizontal rule, `###` titles, bold and italic. They rely on multiline regular expressions with lazy quantifiers. The list pass is modelled over the text as it reaches line 46, and Markdown.EscapedPiecesHaveNoTags is stated for escaped text on which those rewrites have not run.
- The DOM and UI helpers (frontend-teste/script.js:1-14, 72 onwards) are browser I/O. This covers `scrollToBottom`, `addMessage`, the typing indicator, `autoresize`, `sendMessage` and the event listeners. None of them is modelled.
- JavaScript strings are UTF-16. The model works on Unicode scalar values. So `length` (the 80-character gate and the 4-character word), `slice(-1)` and the `À-ÿ` class are counted in code points, not code units. The two agree for text in the Basic Multilingual Plane.
- The white-space set of `trim()` and `\s` is written out as the ECMAScript WhiteSpace and LineTerminator code points of Unicode's current `Zs` category.
